// The broadcast topic keeps a connection's channel open: no channel is closed
// while its connection lasts, and nothing is ever sent on a closed one.
module PubsChannels {
  import opened PubsModel
  import opened PubsDelivery

  /** The client does not name the broadcast topic in an unsub. */
  predicate Polite(b: Topic, a: Action) {
    a.Text? && a.msg.kind == UNSUB ==> b !in a.msg.topics
  }

  predicate AllPolite(b: Topic, actions: seq<Action>) {
    forall i :: 0 <= i < |actions| ==> Polite(b, actions[i])
  }

  /** How far a connection's own commands have come; Bad when they are out of order. */
  datatype Stage = Fresh | Live | Left | Bad

  function StageAfter(st: Stage, cmd: Cmd, c: ConnId, b: Topic): Stage {
    if cmd.Pub? || cmd.conn != c then st
    else
      match (st, cmd)
      case (Fresh, Sub(_, ts)) => if ts == [b] then Live else Bad
      case (Live, Sub(_, _)) => Live
      case (Live, Unsub(_, ts)) => if b in ts then Bad else Live
      case (Live, UnsubAll(_)) => Left
      case (_, _) => Bad
  }

  function StageOf(h: seq<Cmd>, c: ConnId, b: Topic): Stage
    decreases |h|
  {
    if h == [] then Fresh else StageAfter(StageOf(h[..|h| - 1], c, b), h[|h| - 1], c, b)
  }

  lemma StageMore(h: seq<Cmd>, cmd: Cmd, c: ConnId, b: Topic)
    ensures StageOf(h + [cmd], c, b) == StageAfter(StageOf(h, c, b), cmd, c, b)
  {
    assert (h + [cmd])[..|h|] == h;
  }

  /** Commands out of order stay out of order. */
  lemma {:induction false} PrefixNotBad(h: seq<Cmd>, n: nat, c: ConnId, b: Topic)
    requires n <= |h| && StageOf(h, c, b) != Bad
    ensures StageOf(h[..n], c, b) != Bad
  {
    if n < |h| {
      assert h[..|h| - 1][..n] == h[..n];
      PrefixNotBad(h[..|h| - 1], n, c, b);
    } else {
      assert h[..n] == h;
    }
  }

  /** What the stage says about the registry. */
  lemma {:induction false} StageRegistry(log: seq<Cmd>, c: ConnId, b: Topic)
    ensures var r := Replay(log, c);
            match StageOf(log, c, b)
            case Fresh => r == Reg({}, false)
            case Live => b in r.topics && !r.closed
            case Left => r == Reg({}, true)
            case Bad => true
  {
    if log != [] {
      StageRegistry(log[..|log| - 1], c, b);
    }
  }

  /** The commands a connection issues over its life: the broadcast sub first, the unsub of everything last. */
  ghost predicate InOrder(s: State, c: ConnId) {
    StageOf(History(s), c, s.broadcast) == if c !in s.conns then Fresh else if s.conns[c].phase == Gone then Left else Live
  }

  ghost predicate Orderly(s: State) {
    && Inv(s)
    && (forall c :: InOrder(s, c))
    && !s.disp.Crashed?
    && (s.disp.Sending? ==> forall c :: c in s.disp.chans ==> StageOf(s.log, c, s.broadcast) == Live)
  }

  lemma LogNotBad(s: State, c: ConnId)
    requires InOrder(s, c)
    ensures StageOf(s.log, c, s.broadcast) != Bad
  {
    assert History(s)[..|s.log|] == s.log;
    PrefixNotBad(History(s), |s.log|, c, s.broadcast);
  }

  lemma HistoryMore(s: State, s': State, cmd: Cmd, c: ConnId)
    requires s'.log == s.log && s'.cmds == s.cmds + [cmd]
    ensures History(s') == History(s) + [cmd]
    ensures StageOf(History(s'), c, s.broadcast) == StageAfter(StageOf(History(s), c, s.broadcast), cmd, c, s.broadcast)
  {
    assert History(s') == History(s) + [cmd];
    StageMore(History(s), cmd, c, s.broadcast);
  }

  lemma IssueKeepsOrder(s: State, a: Action, c: ConnId)
    requires a.Connect? || a.Text? || a.Webhook? || a.Disconnect?
    requires InOrder(s, c) && Polite(s.broadcast, a) && Enabled(s, a)
    ensures InOrder(Step(s, a), c)
  {
    var cmd :=
      if a.Connect? then Sub(a.conn, [s.broadcast])
      else if a.Text? then CmdOf(a.conn, s.conns[a.conn].ref, a.msg)
      else if a.Webhook? then Pub(Event(a.ref, [a.topic], a.data))
      else UnsubAll(a.conn);
    HistoryMore(s, Step(s, a), cmd, c);
  }

  lemma ExecuteKeepsHistory(s: State)
    requires Enabled(s, Execute)
    ensures History(Step(s, Execute)) == History(s)
  {
    assert s.cmds == [s.cmds[0]] + s.cmds[1..];
  }

  lemma OtherStepsKeepOrder(s: State, a: Action, c: ConnId)
    requires !(a.Connect? || a.Text? || a.Webhook? || a.Disconnect?)
    requires InOrder(s, c) && Enabled(s, a)
    ensures InOrder(Step(s, a), c)
  {
    if a.Execute? {
      ExecuteKeepsHistory(s);
    }
  }

  lemma OrderKept(s: State, a: Action, c: ConnId)
    requires InOrder(s, c) && Polite(s.broadcast, a)
    ensures InOrder(Step(s, a), c)
  {
    if Enabled(s, a) {
      if a.Connect? || a.Text? || a.Webhook? || a.Disconnect? {
        IssueKeepsOrder(s, a, c);
      } else {
        OtherStepsKeepOrder(s, a, c);
      }
    }
  }

  /** Subscribed channels are live, hence open. */
  lemma SubscribedIsLive(s: State, c: ConnId)
    requires Orderly(s) && c in s.conns && s.conns[c].reg.topics != {}
    ensures StageOf(s.log, c, s.broadcast) == Live && !s.conns[c].reg.closed
  {
    assert InOrder(s, c) && Conserved(s, c);
    LogNotBad(s, c);
    StageRegistry(s.log, c, s.broadcast);
  }

  lemma DispatcherOrderly(s: State, a: Action)
    requires Orderly(s)
    ensures var s' := Step(s, a);
            && !s'.disp.Crashed?
            && (s'.disp.Sending? ==> forall c :: c in s'.disp.chans ==> StageOf(s'.log, c, s.broadcast) == Live)
  {
    if Enabled(s, a) {
      match a
      case Execute =>
        if !s.cmds[0].Pub? && s.conns[s.cmds[0].conn].reg.topics != {} {
          SubscribedIsLive(s, s.cmds[0].conn);
        }
      case NextTopic(order) =>
        forall c | c in order ensures StageOf(s.log, c, s.broadcast) == Live {
          assert multiset(order)[c] > 0;
          SubscribedIsLive(s, c);
        }
      case Deliver =>
        var c := s.disp.chans[0];
        assert Conserved(s, c);
        StageRegistry(s.log, c, s.broadcast);
      case _ =>
    }
  }

  lemma StepOrderly(s: State, a: Action)
    requires Orderly(s) && Polite(s.broadcast, a)
    ensures Orderly(Step(s, a)) && Step(s, a).broadcast == s.broadcast
  {
    StepKeeps(s, a);
    DispatcherOrderly(s, a);
    forall c ensures InOrder(Step(s, a), c) {
      assert InOrder(s, c);
      OrderKept(s, a, c);
    }
  }

  lemma {:induction false} RunOrderly(s: State, actions: seq<Action>)
    requires Orderly(s) && AllPolite(s.broadcast, actions)
    ensures Orderly(RunFrom(s, actions)) && RunFrom(s, actions).broadcast == s.broadcast
  {
    if actions != [] {
      var init := actions[..|actions| - 1];
      RunOrderly(s, init);
      StepOrderly(RunFrom(s, init), actions[|actions| - 1]);
    }
  }

  // ---- Main results ----

  lemma {:induction false} StageByCommands(h: seq<Cmd>, c: ConnId, b: Topic)
    requires StageOf(h, c, b) != Bad
    ensures StageOf(h, c, b) == Fresh ==> Sub(c, [b]) !in h
    ensures StageOf(h, c, b) == Left <==> UnsubAll(c) in h
  {
    if h != [] {
      var n := |h| - 1;
      PrefixNotBad(h, n, c, b);
      StageByCommands(h[..n], c, b);
      assert h == h[..n] + [h[n]];
    }
  }

  /**
   * While no client names the broadcast topic in an unsub, a connection whose
   * first subscription was executed and whose end was not is registered under
   * the broadcast topic, and its channel is open.
   */
  lemma ChannelStaysOpen(b: Topic, actions: seq<Action>, c: ConnId)
    requires AllPolite(b, actions)
    ensures var s := Run(b, actions);
            c in s.conns && Sub(c, [b]) in s.log && UnsubAll(c) !in s.log ==>
              b in s.conns[c].reg.topics && !s.conns[c].reg.closed
    ensures var s := Run(b, actions);
            c in s.conns && s.conns[c].phase != Gone ==> !s.conns[c].reg.closed
  {
    var s := Run(b, actions);
    RunOrderly(Init(b), actions);
    if c in s.conns {
      assert InOrder(s, c) && Conserved(s, c);
      LogNotBad(s, c);
      StageRegistry(s.log, c, b);
      StageByCommands(s.log, c, b);
      assert forall i :: 0 <= i < |s.log| ==> s.log[i] == History(s)[i];
      StageByCommands(History(s), c, b);
    }
  }

  /** Nothing is ever sent on a closed channel and none is closed twice: the dispatcher never crashes. */
  lemma NeverCrashes(b: Topic, actions: seq<Action>)
    requires AllPolite(b, actions)
    ensures !Run(b, actions).disp.Crashed?
  {
    RunOrderly(Init(b), actions);
  }

  /** Once its end has been executed, a connection is in no topic any more and its channel is closed. */
  lemma EndClosesChannel(b: Topic, actions: seq<Action>, c: ConnId)
    requires AllPolite(b, actions)
    ensures var s := Run(b, actions);
            c in s.conns && UnsubAll(c) in s.log ==> s.conns[c].reg == Reg({}, true)
  {
    var s := Run(b, actions);
    RunOrderly(Init(b), actions);
    if c in s.conns {
      assert InOrder(s, c) && Conserved(s, c);
      LogNotBad(s, c);
      StageRegistry(s.log, c, b);
      StageByCommands(s.log, c, b);
    }
  }

  // ---- The condition is exact ----

  lemma Perform(b: Topic, actions: seq<Action>, s: State, a: Action) returns (s': State, more: seq<Action>)
    requires s == Run(b, actions)
    ensures more == actions + [a] && s' == Step(s, a) == Run(b, more)
  {
    RunMore(b, actions, a);
    s', more := Step(s, a), actions + [a];
  }

  /** Unsubs name topics of the given set only. */
  predicate UnsubsWithin(allowed: set<Topic>, actions: seq<Action>) {
    forall i :: 0 <= i < |actions| && actions[i].Text? && actions[i].msg.kind == UNSUB ==>
      forall t :: t in actions[i].msg.topics ==> t in allowed
  }

  /** An idle hub with one connection, which is up. */
  ghost predicate OneUp(s: State, c: ConnId, r: Reg) {
    && s.disp == Ready && s.cmds == [] && s.conns.Keys == {c}
    && s.conns[c].phase == Up && s.conns[c].ackDue.None? && s.conns[c].reg == r
  }

  lemma ExecuteOnly(b: Topic, actions: seq<Action>, s: State, c: ConnId, cmd: Cmd, r: Reg) returns (s': State, more: seq<Action>)
    requires s == Run(b, actions) && OneUp(s.(cmds := []), c, r) && s.cmds == [cmd]
    requires !cmd.Pub? && cmd.conn == c && !ClosesTwice(r, cmd)
    ensures more == actions + [Execute] && s' == Run(b, more) && OneUp(s', c, RegAfter(r, cmd, c))
  {
    assert Enabled(s, Execute);
    s', more := Perform(b, actions, s, Execute);
  }

  /** An unsub of the broadcast topic alone closes the channel of a connection that is still up. */
  lemma NamingBroadcastCloses(b: Topic, c: ConnId, ref: string) returns (actions: seq<Action>)
    ensures UnsubsWithin({b}, actions) && OneUp(Run(b, actions), c, Reg({}, true))
  {
    var s := Init(b);
    actions := [];
    s, actions := Perform(b, actions, s, Connect(c, ref));
    s, actions := Perform(b, actions, s, SayHello(c, true));
    s, actions := ExecuteOnly(b, actions, s, c, Sub(c, [b]), Reg({}, false));
    assert TopicSet([b]) == {b};
    var unsub := Msg(UNSUB, [b], "", "");
    s, actions := Perform(b, actions, s, Text(c, unsub));
    s, actions := ExecuteOnly(b, actions, s, c, Unsub(c, [b]), Reg({b}, false));
    assert Drop(Reg({b}, false), {b}) == Reg({}, true);
  }

  /** Subscribed again, that connection makes the dispatcher send on its closed channel. */
  lemma SubscribedAgain(b: Topic, before: seq<Action>, c: ConnId) returns (actions: seq<Action>)
    requires UnsubsWithin({b}, before) && OneUp(Run(b, before), c, Reg({}, true))
    ensures UnsubsWithin({b}, actions) && OneUp(Run(b, actions), c, Reg({b}, true))
  {
    var s := Run(b, before);
    var sub := Msg(SUB, [b], "", "");
    assert TopicSet([b]) == {b};
    s, actions := Perform(b, before, s, Text(c, sub));
    s, actions := ExecuteOnly(b, actions, s, c, Sub(c, [b]), Reg({}, true));
  }

  ghost predicate PublishBegun(s: State, c: ConnId, e: Event, t: Topic, r: Reg) {
    s.disp == Sending(e, [t], []) && s.conns.Keys == {c} && s.conns[c].reg == r
  }

  lemma PublishedThere(b: Topic, before: seq<Action>, c: ConnId, ref: string) returns (actions: seq<Action>)
    requires UnsubsWithin({b}, before) && OneUp(Run(b, before), c, Reg({b}, true))
    ensures UnsubsWithin({b}, actions) && PublishBegun(Run(b, actions), c, Event(ref, [b], ""), b, Reg({b}, true))
  {
    var s := Run(b, before);
    s, actions := Perform(b, before, s, Webhook(ref, b, ""));
    assert s.cmds == [Pub(Event(ref, [b], ""))];
    s, actions := Perform(b, actions, s, Execute);
  }

  lemma SentThere(b: Topic, before: seq<Action>, c: ConnId, e: Event) returns (actions: seq<Action>)
    requires UnsubsWithin({b}, before) && PublishBegun(Run(b, before), c, e, b, Reg({b}, true))
    ensures UnsubsWithin({b}, actions) && Run(b, actions).disp.Crashed?
  {
    var s := Run(b, before);
    assert Subscribers(s, b) == {c} && multiset([c]) == multiset({c});
    s, actions := Perform(b, before, s, NextTopic([c]));
    s, actions := Perform(b, actions, s, Deliver);
  }

  /**
   * When unsubs may name the topics of a set only, no run crashes the dispatcher
   * if and only if the broadcast topic is not one of them.
   */
  lemma CrashExactly(b: Topic, allowed: set<Topic>)
    ensures (forall actions :: UnsubsWithin(allowed, actions) ==> !Run(b, actions).disp.Crashed?) <==> b !in allowed
  {
    if b in allowed {
      var closed := NamingBroadcastCloses(b, 0, "");
      var again := SubscribedAgain(b, closed, 0);
      var published := PublishedThere(b, again, 0, "");
      var actions := SentThere(b, published, 0, Event("", [b], ""));
      assert UnsubsWithin(allowed, actions);
    } else {
      forall actions | UnsubsWithin(allowed, actions) ensures !Run(b, actions).disp.Crashed? {
        NeverCrashes(b, actions);
      }
    }
  }
}
