// Connections whose forwarder has stopped, or never started, take nothing from
// their channel any more. How far the dispatcher still gets with its commands is
// a matter of how many events for them are in the way.
module PubsStall {
  import opened PubsModel
  import opened PubsDelivery
  import opened PubsChannels

  /** Nobody receives from the channel, now or later. */
  predicate Dead(conn: Conn) {
    conn.fwd.Stopped? || (conn.fwd.NotStarted? && conn.phase != Opening)
  }

  /** The copies for `d` that executing the commands makes, starting from registry entry `r`. */
  function Ahead(cmds: seq<Cmd>, d: ConnId, r: Reg): nat {
    if cmds == [] then 0
    else
      (if cmds[0].Pub? then Matches(cmds[0].event.topics, r.topics) else 0)
      + Ahead(cmds[1..], d, RegAfter(r, cmds[0], d))
  }

  /** Place `p` of the history is not executed yet. */
  ghost predicate Waits(s: State, p: nat) {
    |s.log| <= p < |History(s)|
  }

  /**
   * What the channel of `d` would have to hold when the command at place `p` of the
   * history is taken up: queued, under way, and published by the commands ahead of it.
   */
  function Load(s: State, d: ConnId, p: nat): nat
    requires d in s.conns && |s.log| <= p < |s.log| + |s.cmds|
  {
    |s.conns[d].queue| + |Pending(s.disp, d, s.conns[d].reg.topics)| + Ahead(s.cmds[..p - |s.log|], d, s.conns[d].reg)
  }

  ghost predicate Blocks(s: State, d: ConnId, p: nat) {
    d in s.conns && Dead(s.conns[d]) && Waits(s, p)
  }

  // ---- The load is constant ----

  lemma LoadExecute(s: State, d: ConnId, p: nat)
    requires Blocks(s, d, p) && Enabled(s, Execute) && |s.log| < p
    ensures Blocks(Step(s, Execute), d, p) && Load(Step(s, Execute), d, p) == Load(s, d, p)
  {
    var s', k := Step(s, Execute), p - |s.log|;
    assert s.cmds[..k][1..] == s.cmds[1..][..k - 1] && s.cmds[..k][0] == s.cmds[0];
    assert s'.cmds == s.cmds[1..];
    assert multiset([])[d] == 0;
  }

  lemma LoadDispatch(s: State, a: Action, d: ConnId, p: nat)
    requires Blocks(s, d, p) && Enabled(s, a) && (a.NextTopic? || a.Deliver? || a.Finish?)
    ensures Blocks(Step(s, a), d, p) && Load(Step(s, a), d, p) == Load(s, d, p)
  {
    var conn, chans := s.conns[d], s.disp.chans;
    if a.NextTopic? {
      assert multiset(a.order)[d] == if s.disp.rest[0] in conn.reg.topics then 1 else 0;
      assert multiset(chans)[d] == 0;
    } else if a.Deliver? {
      assert chans == [chans[0]] + chans[1..];
      assert multiset(chans) == multiset([chans[0]]) + multiset(chans[1..]);
    } else {
      assert multiset(chans)[d] == 0;
    }
  }

  predicate Issues(a: Action) {
    a.Connect? || a.Text? || a.Webhook? || a.Disconnect?
  }

  lemma LoadIssue(s: State, a: Action, d: ConnId, p: nat)
    requires Blocks(s, d, p) && Enabled(s, a) && Issues(a)
    ensures Blocks(Step(s, a), d, p) && Load(Step(s, a), d, p) == Load(s, d, p)
  {
    var s', k := Step(s, a), p - |s.log|;
    var later := s'.cmds[|s.cmds|..];
    assert s'.cmds == s.cmds + later;
    assert s'.cmds[..k] == s.cmds[..k];
  }

  lemma LoadOther(s: State, a: Action, d: ConnId, p: nat)
    requires Blocks(s, d, p) && HelloFirst(s.conns[d]) && Enabled(s, a) && IsForwarderStep(a)
    ensures Blocks(Step(s, a), d, p) && Load(Step(s, a), d, p) == Load(s, d, p)
  {
  }

  /** Until the command at place `p` is taken up, no step changes the load of a dead connection. */
  lemma LoadConstant(s: State, a: Action, d: ConnId, p: nat)
    requires Inv(s) && Blocks(s, d, p) && |Step(s, a).log| <= p
    ensures Blocks(Step(s, a), d, p) && Load(Step(s, a), d, p) == Load(s, d, p)
  {
    assert HelloFirst(s.conns[d]);
    if !Enabled(s, a) {
    } else if a.Execute? {
      LoadExecute(s, d, p);
    } else if a.NextTopic? || a.Deliver? || a.Finish? {
      LoadDispatch(s, a, d, p);
    } else if Issues(a) {
      LoadIssue(s, a, d, p);
    } else {
      LoadOther(s, a, d, p);
    }
  }

  /** Too much is in the way of place `p`. */
  ghost predicate Overloaded(s: State, d: ConnId, p: nat) {
    Inv(s) && Blocks(s, d, p) && Load(s, d, p) > CAPACITY
  }

  /** When the command at place `p` is next, the load is what is queued. */
  lemma NotTakenUp(s: State, a: Action, d: ConnId, p: nat)
    requires Overloaded(s, d, p)
    ensures |Step(s, a).log| <= p
  {
    assert Conserved(s, d);
  }

  lemma OverloadKept(s: State, a: Action, d: ConnId, p: nat)
    requires Overloaded(s, d, p)
    ensures Overloaded(Step(s, a), d, p)
  {
    StepKeeps(s, a);
    NotTakenUp(s, a, d, p);
    LoadConstant(s, a, d, p);
  }

  /**
   * With the load of one dead connection above the capacity, the command at place
   * `p` of the history is never executed, and so neither is any issued after it.
   */
  lemma {:induction false} OverloadNeverEnds(s: State, actions: seq<Action>, d: ConnId, p: nat)
    requires Overloaded(s, d, p)
    ensures Overloaded(RunFrom(s, actions), d, p) && |RunFrom(s, actions).log| <= p
  {
    if actions != [] {
      OverloadNeverEnds(s, actions[..|actions| - 1], d, p);
      OverloadKept(RunFrom(s, actions[..|actions| - 1]), actions[|actions| - 1], d, p);
    }
  }

  // ---- Standing still ----

  /** The dispatcher stands before the full channel of a dead connection. */
  ghost predicate Stuck(s: State, d: ConnId) {
    && s.disp.Sending? && s.disp.chans != [] && s.disp.chans[0] == d
    && d in s.conns && Dead(s.conns[d]) && !s.conns[d].reg.closed && |s.conns[d].queue| >= CAPACITY
    && HelloFirst(s.conns[d])
  }

  lemma StuckStays(s: State, a: Action, d: ConnId)
    requires Stuck(s, d)
    ensures Stuck(Step(s, a), d) && Step(s, a).log == s.log && Step(s, a).disp == s.disp
  {
  }

  /** Then no further command is ever executed, for anybody. */
  lemma {:induction false} StuckForGood(s: State, actions: seq<Action>, d: ConnId)
    requires Stuck(s, d)
    ensures var s' := RunFrom(s, actions); Stuck(s', d) && s'.log == s.log && s'.disp == s.disp
  {
    if actions != [] {
      StuckForGood(s, actions[..|actions| - 1], d);
      StuckStays(RunFrom(s, actions[..|actions| - 1]), actions[|actions| - 1], d);
    }
  }

  // ---- Getting through ----

  /** A forwarder has ended only when its channel was closed. */
  ghost predicate EndedIsClosed(s: State) {
    forall d :: d in s.conns && s.conns[d].fwd == Ended ==> s.conns[d].reg.closed
  }

  lemma StepEndedIsClosed(s: State, a: Action)
    requires EndedIsClosed(s)
    ensures EndedIsClosed(Step(s, a))
  {
  }

  lemma {:induction false} RunEndedIsClosed(s: State, actions: seq<Action>)
    requires EndedIsClosed(s)
    ensures EndedIsClosed(RunFrom(s, actions))
  {
    if actions != [] {
      RunEndedIsClosed(s, actions[..|actions| - 1]);
      StepEndedIsClosed(RunFrom(s, actions[..|actions| - 1]), actions[|actions| - 1]);
    }
  }

  lemma {:induction false} Enumerate(cs: set<ConnId>) returns (order: seq<ConnId>)
    ensures multiset(order) == multiset(cs)
  {
    if cs == {} {
      order := [];
    } else {
      var c :| c in cs;
      var rest := Enumerate(cs - {c});
      order := [c] + rest;
      assert multiset(cs) == multiset(cs - {c}) + multiset{c};
    }
  }

  /** The loads of all dead connections fit their channels. */
  ghost predicate AllFit(s: State, p: nat)
    requires Waits(s, p)
  {
    forall d :: d in s.conns && Dead(s.conns[d]) ==> Load(s, d, p) <= CAPACITY
  }

  ghost predicate Ongoing(s: State, p: nat) {
    Orderly(s) && EndedIsClosed(s) && Waits(s, p) && AllFit(s, p)
  }

  /** The dispatcher's own steps and the draining of live channels, without send errors. */
  predicate Dispatching(a: Action) {
    a.Execute? || a.NextTopic? || a.Deliver? || a.Finish? || a.Receive? || ((a.Forward? || a.SayHello?) && a.ok)
  }

  lemma NobodyDies(s: State, a: Action, d: ConnId)
    requires Dispatching(a) && d in Step(s, a).conns && Dead(Step(s, a).conns[d])
    ensures d in s.conns && Dead(s.conns[d])
  {
  }

  lemma RunOne(s: State, a: Action)
    ensures RunFrom(s, [a]) == Step(s, a)
  {
    assert [a][..0] == [];
  }

  lemma PlaceKept(s: State, a: Action, p: nat)
    requires Waits(s, p) && |Step(s, a).log| <= p
    ensures Waits(Step(s, a), p)
  {
    HistoryGrows(s, [a]);
    RunOne(s, a);
  }

  lemma OngoingKept(s: State, a: Action, p: nat)
    requires Ongoing(s, p) && Dispatching(a) && |Step(s, a).log| <= p
    ensures Ongoing(Step(s, a), p)
  {
    StepOrderly(s, a);
    StepEndedIsClosed(s, a);
    PlaceKept(s, a, p);
    forall d | d in Step(s, a).conns && Dead(Step(s, a).conns[d]) ensures Load(Step(s, a), d, p) <= CAPACITY {
      NobodyDies(s, a, d);
      LoadConstant(s, a, d, p);
    }
  }

  /** `s'` differs from `s` at most in one connection, which has the same registry entry. */
  ghost predicate SameBut(s: State, s': State, d: ConnId) {
    && s'.cmds == s.cmds && s'.log == s.log && s'.disp == s.disp
    && d in s.conns && d in s'.conns && s'.conns[d].reg == s.conns[d].reg
  }

  /** The forwarder of a live connection gets ready to receive. */
  lemma GetReady(s: State, d: ConnId, p: nat) returns (actions: seq<Action>)
    requires Ongoing(s, p) && d in s.conns && !Dead(s.conns[d]) && s.conns[d].fwd != Ended
    ensures var s' := RunFrom(s, actions);
            Ongoing(s', p) && SameBut(s, s', d) && s'.conns[d].queue == s.conns[d].queue && s'.conns[d].fwd == Idle
  {
    if s.conns[d].fwd == Idle {
      actions := [];
    } else {
      var a := if s.conns[d].fwd.Holding? then Forward(d, true) else SayHello(d, true);
      OngoingKept(s, a, p);
      RunOne(s, a);
      actions := [a];
    }
  }

  lemma ReceiveOne(s: State, d: ConnId, p: nat) returns (actions: seq<Action>)
    requires Ongoing(s, p) && d in s.conns && s.conns[d].fwd == Idle && s.conns[d].queue != []
    ensures var s' := RunFrom(s, actions);
            Ongoing(s', p) && SameBut(s, s', d) && |s'.conns[d].queue| < CAPACITY
  {
    assert Conserved(s, d);
    OngoingKept(s, Receive(d), p);
    RunOne(s, Receive(d));
    actions := [Receive(d)];
  }

  /** Makes room in the full channel of a live connection. */
  lemma Drain(s: State, d: ConnId, p: nat) returns (actions: seq<Action>)
    requires Ongoing(s, p) && d in s.conns && !Dead(s.conns[d]) && !s.conns[d].reg.closed && |s.conns[d].queue| >= CAPACITY
    ensures var s' := RunFrom(s, actions);
            Ongoing(s', p) && SameBut(s, s', d) && |s'.conns[d].queue| < CAPACITY
  {
    var first := GetReady(s, d, p);
    var second := ReceiveOne(RunFrom(s, first), d, p);
    RunFromJoin(s, first, second);
    actions := first + second;
  }

  /** The dispatcher gets on with the publish under way. */
  ghost predicate Closer(s: State, s': State) {
    && s.disp.Sending? && s'.cmds == s.cmds
    && match s'.disp
       case Ready => true
       case Sending(_, rest, chans) =>
         |rest| < |s.disp.rest| || (rest == s.disp.rest && |chans| < |s.disp.chans|)
       case Crashed(_, _, _) => false
  }

  /** The channel the dispatcher is at is open, and has room if it is that of a dead connection. */
  lemma HeadOpen(s: State, p: nat)
    requires Ongoing(s, p) && s.disp.Sending? && s.disp.chans != []
    ensures var d := s.disp.chans[0];
            && d in s.conns && !s.conns[d].reg.closed
            && (Dead(s.conns[d]) ==> |s.conns[d].queue| < CAPACITY)
  {
    var d := s.disp.chans[0];
    assert d in s.disp.chans;
    assert Scoped(s);
    assert Conserved(s, d);
    StageRegistry(s.log, d, s.broadcast);
    assert multiset(s.disp.chans)[d] >= 1;
  }

  lemma DeliverCloser(s: State)
    requires s.disp.Sending? && s.disp.chans != [] && s.disp.chans[0] in s.conns
    requires !s.conns[s.disp.chans[0]].reg.closed && |s.conns[s.disp.chans[0]].queue| < CAPACITY
    ensures Closer(s, Step(s, Deliver)) && Step(s, Deliver).log == s.log
  {
    assert Enabled(s, Deliver);
  }

  lemma DeliverHead(s: State, p: nat)
    requires Ongoing(s, p) && s.disp.Sending? && s.disp.chans != []
    requires s.disp.chans[0] in s.conns && |s.conns[s.disp.chans[0]].queue| < CAPACITY
    ensures Ongoing(Step(s, Deliver), p) && Closer(s, Step(s, Deliver))
  {
    HeadOpen(s, p);
    DeliverCloser(s);
    OngoingKept(s, Deliver, p);
  }

  /** Delivers one event, after draining the channel the dispatcher is at if that is full. */
  lemma AdvanceChannel(s: State, p: nat) returns (actions: seq<Action>)
    requires Ongoing(s, p) && s.disp.Sending? && s.disp.chans != []
    ensures Ongoing(RunFrom(s, actions), p) && Closer(s, RunFrom(s, actions))
  {
    HeadOpen(s, p);
    var d := s.disp.chans[0];
    if |s.conns[d].queue| < CAPACITY {
      DeliverHead(s, p);
      RunOne(s, Deliver);
      actions := [Deliver];
    } else {
      var first := Drain(s, d, p);
      var s1 := RunFrom(s, first);
      DeliverHead(s1, p);
      RunOne(s1, Deliver);
      RunFromJoin(s, first, [Deliver]);
      actions := first + [Deliver];
    }
  }

  lemma NextCloser(s: State, order: seq<ConnId>)
    requires s.disp.Sending? && s.disp.chans == [] && s.disp.rest != []
    requires multiset(order) == multiset(Subscribers(s, s.disp.rest[0]))
    ensures Closer(s, Step(s, NextTopic(order))) && Step(s, NextTopic(order)).log == s.log
  {
    assert Enabled(s, NextTopic(order));
  }

  lemma FinishCloser(s: State)
    requires Enabled(s, Finish)
    ensures Closer(s, Step(s, Finish)) && Step(s, Finish).log == s.log
  {
  }

  lemma AdvanceTopic(s: State, p: nat) returns (a: Action)
    requires Ongoing(s, p) && s.disp.Sending? && s.disp.chans == []
    ensures Ongoing(Step(s, a), p) && Closer(s, Step(s, a))
  {
    if s.disp.rest == [] {
      a := Finish;
      FinishCloser(s);
      OngoingKept(s, a, p);
    } else {
      var order := Enumerate(Subscribers(s, s.disp.rest[0]));
      a := NextTopic(order);
      NextCloser(s, order);
      OngoingKept(s, a, p);
    }
  }

  lemma AdvancePublish(s: State, p: nat) returns (actions: seq<Action>)
    requires Ongoing(s, p) && s.disp.Sending?
    ensures Ongoing(RunFrom(s, actions), p) && Closer(s, RunFrom(s, actions))
  {
    if s.disp.chans != [] {
      actions := AdvanceChannel(s, p);
    } else {
      var a := AdvanceTopic(s, p);
      RunOne(s, a);
      actions := [a];
    }
  }

  lemma TakesUp(s: State)
    requires Scoped(s) && s.disp == Ready && s.cmds != []
    ensures |Step(s, Execute).log| == |s.log| + 1 && Step(s, Execute).cmds == s.cmds[1..]
  {
    assert Enabled(s, Execute);
  }

  /** When all loads fit, the dispatcher gets to the command at place `p`. */
  lemma {:induction false} LightLoadEnds(s: State, p: nat) returns (actions: seq<Action>)
    requires Ongoing(s, p)
    ensures |RunFrom(s, actions).log| > p
    decreases |s.cmds|, (if s.disp.Ready? then 0 else 1), (if s.disp.Ready? then 0 else |s.disp.rest|), (if s.disp.Ready? then 0 else |s.disp.chans|)
  {
    if s.disp == Ready {
      TakesUp(s);
      RunOne(s, Execute);
    }
    if s.disp == Ready && |s.log| == p {
      actions := [Execute];
    } else {
      var first := [Execute];
      if s.disp == Ready {
        OngoingKept(s, Execute, p);
      } else {
        first := AdvancePublish(s, p);
      }
      var rest := LightLoadEnds(RunFrom(s, first), p);
      RunFromJoin(s, first, rest);
      actions := first + rest;
    }
  }

  // ---- Main results ----

  /**
   * How far the dispatcher can still get, exactly. In a polite run, a command that
   * waits for it at place `p` of the history can still be executed if and only if
   * for every dead connection, however many there are, queued, current and preceding
   * events together fit its channel.
   */
  lemma ReachableExactly(b: Topic, actions: seq<Action>, p: nat)
    requires AllPolite(b, actions) && Waits(Run(b, actions), p)
    ensures (exists more :: |RunFrom(Run(b, actions), more).log| > p) <==> AllFit(Run(b, actions), p)
  {
    var s := Run(b, actions);
    RunOrderly(Init(b), actions);
    RunEndedIsClosed(Init(b), actions);
    if AllFit(s, p) {
      var more := LightLoadEnds(s, p);
    } else {
      var d :| d in s.conns && Dead(s.conns[d]) && Load(s, d, p) > CAPACITY;
      forall more ensures |RunFrom(s, more).log| <= p {
        OverloadNeverEnds(s, more, d, p);
      }
    }
  }

  /**
   * The bound for a single stopped connection: while all others are alive, its own
   * end, at place `p`, can still be executed if and only if the events for it that
   * are queued, current or ahead of its end number at most 256.
   */
  lemma StallBound(b: Topic, actions: seq<Action>, c: ConnId, p: nat)
    requires AllPolite(b, actions) && Waits(Run(b, actions), p) && History(Run(b, actions))[p] == UnsubAll(c)
    requires c in Run(b, actions).conns && Run(b, actions).conns[c].fwd.Stopped?
    requires forall d :: d in Run(b, actions).conns && d != c ==> !Dead(Run(b, actions).conns[d])
    ensures (exists more :: |RunFrom(Run(b, actions), more).log| > p) <==> Load(Run(b, actions), c, p) <= 256
  {
    ReachableExactly(b, actions, p);
  }
}
