// What the pubs protocol delivers: conservation of events, hello first, and
// the effect of acknowledged subscriptions.
module PubsDelivery {
  import opened Text
  import opened PubsModel

  function EventsOn(wire: seq<Frame>): seq<Event>
    decreases |wire|
  {
    if wire == [] then []
    else
      var init, f := EventsOn(wire[..|wire| - 1]), wire[|wire| - 1];
      if f.EventFrame? then init + [f.event] else init
  }

  lemma EventsOnMore(wire: seq<Frame>, f: Frame)
    ensures EventsOn(wire + [f]) == EventsOn(wire) + if f.EventFrame? then [f.event] else []
  {
    assert (wire + [f])[..|wire|] == wire;
  }

  function InHand(f: Forwarder): seq<Event> {
    match f
    case Holding(e) => [e]
    case Stopped(lost) => lost
    case _ => []
  }

  /** Sent, then in the forwarder's hand, then queued. */
  function Stream(conn: Conn): seq<Event> {
    EventsOn(conn.wire) + InHand(conn.fwd) + conn.queue
  }

  /** The copies of the event being published that a connection still has to get. */
  function Pending(disp: Dispatcher, c: ConnId, subscribed: set<Topic>): seq<Event> {
    match disp
    case Ready => []
    case Sending(e, rest, chans) => Copies(e, multiset(chans)[c] + Matches(rest, subscribed))
    case Crashed(e, rest, chans) => Copies(e, multiset(chans)[c] + Matches(rest, subscribed))
  }

  ghost predicate Conserved(s: State, c: ConnId)
    requires c in s.conns
  {
    var conn := s.conns[c];
    && conn.reg == Replay(s.log, c)
    && |conn.queue| <= CAPACITY
    && Stream(conn) + Pending(s.disp, c, conn.reg.topics) == Expected(s.log, c)
  }

  /** The wire starts with the one hello; before it nothing is sent, queued events included. */
  ghost predicate HelloFirst(conn: Conn) {
    && (conn.wire == [] ==> conn.phase != Up && (conn.fwd == NotStarted || conn.fwd == Stopped([])) && conn.ackDue.None?)
    && (conn.wire != [] ==> conn.wire[0] == Hello(conn.ref) && conn.phase != Opening && conn.fwd != NotStarted)
    && (forall i :: 0 < i < |conn.wire| ==> !conn.wire[i].Hello?)
    && (conn.phase == Opening ==> conn.fwd == NotStarted)
  }

  /** Connections that do not exist have no commands, and the dispatcher has only existing ones at hand. */
  ghost predicate Scoped(s: State) {
    && (forall i :: 0 <= i < |s.log| && !s.log[i].Pub? ==> s.log[i].conn in s.conns)
    && (forall i :: 0 <= i < |s.cmds| && !s.cmds[i].Pub? ==> s.cmds[i].conn in s.conns)
    && (!s.disp.Ready? ==> forall c :: c in s.disp.chans ==> c in s.conns)
  }

  ghost predicate Inv(s: State) {
    Scoped(s) && forall c :: c in s.conns ==> Conserved(s, c) && HelloFirst(s.conns[c])
  }

  // ---- One step ----

  lemma ScopedKept(s: State, a: Action)
    requires Scoped(s)
    ensures Scoped(Step(s, a))
  {
    var s' := Step(s, a);
    if a.NextTopic? && Enabled(s, a) {
      forall c | c in a.order ensures c in s.conns {
        assert multiset(a.order)[c] > 0;
      }
    }
  }

  lemma HelloKept(s: State, a: Action, c: ConnId)
    requires c in s.conns && HelloFirst(s.conns[c])
    ensures c in Step(s, a).conns && HelloFirst(Step(s, a).conns[c])
  {
  }

  lemma {:induction false} MatchesNone(ts: seq<Topic>)
    ensures Matches(ts, {}) == 0
  {
    if ts != [] {
      MatchesNone(ts[1..]);
    }
  }

  lemma {:induction false} NoCommands(log: seq<Cmd>, c: ConnId)
    requires forall i :: 0 <= i < |log| && !log[i].Pub? ==> log[i].conn != c
    ensures Replay(log, c) == Reg({}, false) && Expected(log, c) == []
  {
    if log != [] {
      var cmd := log[|log| - 1];
      NoCommands(log[..|log| - 1], c);
      if cmd.Pub? {
        MatchesNone(cmd.event.topics);
      }
    }
  }

  lemma ConnectConserved(s: State, c: ConnId, ref: string)
    requires Scoped(s) && c !in s.conns
    ensures Conserved(Step(s, Connect(c, ref)), c)
  {
    NoCommands(s.log, c);
    if !s.disp.Ready? {
      MatchesNone(s.disp.rest);
      assert c !in s.disp.chans;
      assert multiset(s.disp.chans)[c] == 0;
    }
  }

  lemma LogMore(log: seq<Cmd>, cmd: Cmd, c: ConnId)
    ensures Replay(log + [cmd], c) == RegAfter(Replay(log, c), cmd, c)
    ensures Expected(log + [cmd], c) == Expected(log, c)
            + if cmd.Pub? then Copies(cmd.event, Matches(cmd.event.topics, Replay(log, c).topics)) else []
  {
    assert (log + [cmd])[..|log|] == log;
  }

  lemma ExecuteConserved(s: State, c: ConnId)
    requires Enabled(s, Execute) && c in s.conns && Conserved(s, c)
    ensures Conserved(Step(s, Execute), c)
  {
    LogMore(s.log, s.cmds[0], c);
    assert Stream(s.conns[c]) + [] == Stream(s.conns[c]);
    assert multiset([])[c] == 0;
  }

  lemma NextTopicConserved(s: State, order: seq<ConnId>, c: ConnId)
    requires Enabled(s, NextTopic(order)) && c in s.conns && Conserved(s, c)
    ensures Conserved(Step(s, NextTopic(order)), c)
  {
    var t := s.disp.rest[0];
    assert multiset(order)[c] == if t in s.conns[c].reg.topics then 1 else 0;
    assert multiset(s.disp.chans)[c] == 0;
  }

  lemma MoveCopy(conn: Conn, e: Event, n: nat)
    ensures Stream(conn) + Copies(e, n + 1) == Stream(conn.(queue := conn.queue + [e])) + Copies(e, n)
  {
    assert Copies(e, n + 1) == [e] + Copies(e, n);
    assert Stream(conn.(queue := conn.queue + [e])) == Stream(conn) + [e];
    assert Stream(conn) + ([e] + Copies(e, n)) == (Stream(conn) + [e]) + Copies(e, n);
  }

  lemma DeliverConserved(s: State, c: ConnId)
    requires Enabled(s, Deliver) && c in s.conns && Conserved(s, c)
    ensures Conserved(Step(s, Deliver), c)
  {
    var Sending(e, rest, chans) := s.disp;
    var conn := s.conns[c];
    assert chans == [chans[0]] + chans[1..];
    assert multiset(chans) == multiset([chans[0]]) + multiset(chans[1..]);
    if chans[0] == c && !conn.reg.closed {
      MoveCopy(conn, e, multiset(chans[1..])[c] + Matches(rest, conn.reg.topics));
    }
  }

  lemma HelloStream(conn: Conn)
    requires conn.wire == [] && conn.fwd == NotStarted
    ensures Stream(conn.(phase := Up, fwd := Idle, wire := [Hello(conn.ref)])) == Stream(conn)
    ensures Stream(conn.(phase := Refused, fwd := Stopped([]))) == Stream(conn)
  {
    EventsOnMore([], Hello(conn.ref));
    assert [] + [Hello(conn.ref)] == [Hello(conn.ref)];
  }

  lemma ReceiveStream(conn: Conn)
    requires conn.fwd == Idle && conn.queue != []
    ensures Stream(conn.(fwd := Holding(conn.queue[0]), queue := conn.queue[1..])) == Stream(conn)
  {
    assert conn.queue == [conn.queue[0]] + conn.queue[1..];
  }

  predicate IsForwarderStep(a: Action) {
    a.SayHello? || a.SendAck? || a.Receive? || a.Forward? || a.SeeClosed?
  }

  lemma AckStream(conn: Conn, f: Frame)
    requires !f.EventFrame?
    ensures Stream(conn.(ackDue := None, wire := conn.wire + [f])) == Stream(conn)
  {
    EventsOnMore(conn.wire, f);
    assert EventsOn(conn.wire) + [] == EventsOn(conn.wire);
  }

  lemma ForwardStream(conn: Conn, ok: bool)
    requires conn.fwd.Holding?
    ensures Stream(if ok then conn.(fwd := Idle, wire := conn.wire + [EventFrame(conn.fwd.event)])
                   else conn.(fwd := Stopped([conn.fwd.event]))) == Stream(conn)
  {
    EventsOnMore(conn.wire, EventFrame(conn.fwd.event));
    assert EventsOn(conn.wire) + [conn.fwd.event] + [] == EventsOn(conn.wire) + [conn.fwd.event];
  }

  lemma StreamKept(s: State, a: Action, c: ConnId)
    requires IsForwarderStep(a) && Enabled(s, a) && a.conn == c && HelloFirst(s.conns[c])
    ensures Stream(Step(s, a).conns[c]) == Stream(s.conns[c])
  {
    var conn := s.conns[c];
    match a
    case SayHello(_, _) => HelloStream(conn);
    case SendAck(_, _) => AckStream(conn, Ack(conn.ackDue.value));
    case Receive(_) => ReceiveStream(conn);
    case Forward(_, ok) => ForwardStream(conn, ok);
    case SeeClosed(_) =>
  }

  lemma ForwarderConserved(s: State, a: Action, c: ConnId)
    requires IsForwarderStep(a)
    requires Enabled(s, a) && a.conn == c && Conserved(s, c) && HelloFirst(s.conns[c])
    ensures Conserved(Step(s, a), c)
  {
    StreamKept(s, a, c);
  }

  lemma FinishConserved(s: State, c: ConnId)
    requires Enabled(s, Finish) && c in s.conns && Conserved(s, c)
    ensures Conserved(Step(s, Finish), c)
  {
    assert multiset(s.disp.chans)[c] == 0;
  }

  lemma StepConserves(s: State, a: Action, c: ConnId)
    requires Inv(s) && c in Step(s, a).conns
    ensures Conserved(Step(s, a), c)
  {
    if !Enabled(s, a) {
    } else if a.Connect? && a.conn == c {
      ConnectConserved(s, c, a.ref);
    } else {
      assert c in s.conns && Conserved(s, c) && HelloFirst(s.conns[c]);
      if a.Execute? {
        ExecuteConserved(s, c);
      } else if a.NextTopic? {
        NextTopicConserved(s, a.order, c);
      } else if a.Deliver? {
        DeliverConserved(s, c);
      } else if a.Finish? {
        FinishConserved(s, c);
      } else if IsForwarderStep(a) && a.conn == c {
        ForwarderConserved(s, a, c);
      }
    }
  }

  lemma StepKeeps(s: State, a: Action)
    requires Inv(s)
    ensures Inv(Step(s, a))
  {
    var s' := Step(s, a);
    ScopedKept(s, a);
    forall c | c in s'.conns ensures Conserved(s', c) && HelloFirst(s'.conns[c]) {
      StepConserves(s, a, c);
      if c in s.conns {
        HelloKept(s, a, c);
      }
    }
  }

  lemma {:induction false} RunKeeps(s: State, actions: seq<Action>)
    requires Inv(s)
    ensures Inv(RunFrom(s, actions))
  {
    if actions != [] {
      RunKeeps(s, actions[..|actions| - 1]);
      StepKeeps(RunFrom(s, actions[..|actions| - 1]), actions[|actions| - 1]);
    }
  }

  // ---- Main results ----

  /**
   * Conservation: in every run, what was sent to a connection after its hello,
   * then what its forwarder holds, then what is queued, then what is still to be
   * delivered of the publish under way, is exactly and in order what the executed
   * commands published to its subscriptions, once per matching listed topic.
   */
  lemma DeliveryConserved(broadcast: Topic, actions: seq<Action>, c: ConnId)
    ensures var s := Run(broadcast, actions);
            c in s.conns ==>
              && s.conns[c].reg == Replay(s.log, c)
              && EventsOn(s.conns[c].wire) + InHand(s.conns[c].fwd) + s.conns[c].queue
                 + Pending(s.disp, c, s.conns[c].reg.topics) == Expected(s.log, c)
  {
    RunKeeps(Init(broadcast), actions);
    assert c in Run(broadcast, actions).conns ==> Conserved(Run(broadcast, actions), c);
  }

  /** Nothing precedes the hello, there is only one, and queues never exceed the channel's capacity. */
  lemma HelloPrecedesAll(broadcast: Topic, actions: seq<Action>, c: ConnId)
    ensures var s := Run(broadcast, actions);
            c in s.conns ==>
              && |s.conns[c].queue| <= CAPACITY
              && forall i :: 0 <= i < |s.conns[c].wire| ==> (s.conns[c].wire[i].Hello? <==> i == 0)
  {
    RunKeeps(Init(broadcast), actions);
    assert c in Run(broadcast, actions).conns ==> Conserved(Run(broadcast, actions), c);
  }

  // ---- Acknowledged subscriptions ----

  lemma HistoryStep(s: State, a: Action)
    ensures History(s) <= History(Step(s, a))
  {
    if a.Execute? && Enabled(s, a) {
      assert History(Step(s, a)) == History(s);
    }
  }

  lemma {:induction false} HistoryGrows(s: State, actions: seq<Action>)
    ensures History(s) <= History(RunFrom(s, actions))
  {
    if actions != [] {
      var init, a := RunFrom(s, actions[..|actions| - 1]), actions[|actions| - 1];
      HistoryGrows(s, actions[..|actions| - 1]);
      HistoryStep(init, a);
    }
  }

  /** A command that ends a connection's subscription to a topic. */
  predicate Ends(cmd: Cmd, c: ConnId, t: Topic) {
    cmd == UnsubAll(c) || (cmd.Unsub? && cmd.conn == c && t in cmd.topics)
  }

  /**
   * Who is subscribed, read off the commands alone: a connection is in a topic exactly
   * if it subscribed to it and nothing that ends that came after.
   */
  lemma {:induction false} SubscribedExactly(h: seq<Cmd>, c: ConnId, t: Topic)
    ensures t in Replay(h, c).topics
            <==> exists i :: 0 <= i < |h| && h[i].Sub? && h[i].conn == c && t in h[i].topics
                             && forall k :: i < k < |h| ==> !Ends(h[k], c, t)
  {
    if h != [] {
      var n := |h| - 1;
      var init := h[..n];
      SubscribedExactly(init, c, t);
      assert forall i :: 0 <= i < n ==> init[i] == h[i];
      if !(h[n].Sub? && h[n].conn == c && t in h[n].topics) && !Ends(h[n], c, t) && t in Replay(init, c).topics {
        var i :| 0 <= i < n && init[i].Sub? && init[i].conn == c && t in init[i].topics
                 && forall k :: i < k < n ==> !Ends(init[k], c, t);
        assert h[i] == init[i] && forall k :: i < k < |h| ==> !Ends(h[k], c, t);
      }
    }
  }

  /** What executing a command does to the topics of its connection, in terms of the listed ones. */
  ghost predicate TopicsFollow(s: State, s': State, cmd: Cmd) {
    match cmd
    case Sub(c, topics) =>
      c in s.conns && c in s'.conns && s'.conns[c].reg.topics == s.conns[c].reg.topics + set t | t in topics
    case Unsub(c, topics) =>
      c in s.conns && c in s'.conns && s'.conns[c].reg.topics == s.conns[c].reg.topics - set t | t in topics
    case UnsubAll(c) => c in s.conns && c in s'.conns && s'.conns[c].reg.topics == {}
    case Pub(event) => s'.conns == s.conns && s'.disp == Sending(event, event.topics, [])
  }

  lemma ExecuteEffect(s: State)
    requires Enabled(s, Execute)
    ensures TopicsFollow(s, Step(s, Execute), s.cmds[0])
  {
  }

  lemma NothingLeft(a: set<Topic>, b: set<Topic>)
    ensures a - b == {} <==> a <= b
  {
    if a - b == {} {
      forall t | t in a ensures t in b {
        assert t !in a - b;
      }
    }
  }

  /** The channel is closed with its last topic; that panics exactly if it is closed already. */
  lemma ClosingTwicePanics(s: State, c: ConnId)
    requires Enabled(s, Execute) && !s.cmds[0].Pub? && s.cmds[0].conn == c
    ensures var r, s' := s.conns[c].reg, Step(s, Execute);
            var lost := r.topics != {} && s'.conns[c].reg.topics == {};
            && (s'.conns[c].reg.closed <==> r.closed || lost)
            && (s'.disp.Crashed? <==> r.closed && lost)
  {
    var r, cmd := s.conns[c].reg, s.cmds[0];
    if cmd.Unsub? {
      NothingLeft(r.topics, TopicSet(cmd.topics));
    }
  }

  /** With command `i` of the log the connection loses the last of its topics. */
  predicate LosesLast(h: seq<Cmd>, c: ConnId, i: nat) {
    i < |h| && Replay(h[..i], c).topics != {} && Replay(h[..i + 1], c).topics == {}
  }

  lemma ClosedByCommand(r: Reg, cmd: Cmd, c: ConnId)
    ensures RegAfter(r, cmd, c).closed <==> r.closed || (r.topics != {} && RegAfter(r, cmd, c).topics == {})
  {
    if cmd.Unsub? {
      NothingLeft(r.topics, TopicSet(cmd.topics));
    }
  }

  lemma LosesLastEarlier(h: seq<Cmd>, c: ConnId, i: nat)
    requires i + 1 < |h|
    ensures LosesLast(h[..|h| - 1], c, i) <==> LosesLast(h, c, i)
  {
    assert h[..|h| - 1][..i] == h[..i] && h[..|h| - 1][..i + 1] == h[..i + 1];
  }

  /** A channel is closed exactly if its connection has once lost the last of its topics. */
  lemma {:induction false} ClosedExactly(h: seq<Cmd>, c: ConnId)
    ensures Replay(h, c).closed <==> exists i: nat :: LosesLast(h, c, i)
  {
    if h != [] {
      var n := |h| - 1;
      ClosedExactly(h[..n], c);
      ClosedByCommand(Replay(h[..n], c), h[n], c);
      assert h[..n + 1] == h;
      if i: nat :| LosesLast(h[..n], c, i) {
        LosesLastEarlier(h, c, i);
      } else if i: nat :| LosesLast(h, c, i) {
        if i < n {
          LosesLastEarlier(h, c, i);
          assert false;
        }
      } else {
        assert !LosesLast(h, c, n);
      }
    }
  }

  lemma {:induction false} SubscriptionLasts(h: seq<Cmd>, i: nat, n: nat, c: ConnId, t: Topic)
    requires i < n <= |h| && h[i].Sub? && h[i].conn == c && t in h[i].topics
    requires forall k :: i < k < n ==> !Ends(h[k], c, t)
    ensures t in Replay(h[..n], c).topics
  {
    assert h[..n][..n - 1] == h[..n - 1];
    if n > i + 1 {
      SubscriptionLasts(h, i, n - 1, c, t);
    }
  }

  /** An event matches once for every place in its list that holds a topic of the set. */
  lemma {:induction false} MatchesCounts(a: seq<Topic>, t: Topic, b: seq<Topic>, subscribed: set<Topic>)
    ensures Matches([], subscribed) == 0
    ensures Matches(a + [t] + b, subscribed) == Matches(a + b, subscribed) + if t in subscribed then 1 else 0
  {
    if a == [] {
      assert a + [t] + b == [t] + b && ([t] + b)[1..] == b && a + b == b;
    } else {
      MatchesCounts(a[1..], t, b, subscribed);
      assert (a + [t] + b)[1..] == a[1..] + [t] + b && (a + b)[1..] == a[1..] + b;
    }
  }

  lemma {:induction false} MatchesNothing(ts: seq<Topic>, subscribed: set<Topic>)
    requires forall t :: t in ts ==> t !in subscribed
    ensures Matches(ts, subscribed) == 0
  {
    if ts != [] {
      MatchesNothing(ts[1..], subscribed);
    }
  }

  lemma {:induction false} MatchesSome(ts: seq<Topic>, subscribed: set<Topic>, t: Topic)
    requires t in ts && t in subscribed
    ensures Matches(ts, subscribed) >= 1
  {
    if ts[0] != t {
      MatchesSome(ts[1..], subscribed, t);
    }
  }

  lemma {:induction false} ExpectedGrows(h: seq<Cmd>, n: nat, c: ConnId)
    requires n <= |h|
    ensures Expected(h[..n], c) <= Expected(h, c)
  {
    if n < |h| {
      assert h[..|h| - 1][..n] == h[..n];
      ExpectedGrows(h[..|h| - 1], n, c);
    } else {
      assert h[..n] == h;
    }
  }

  /** The copies a publish makes follow directly on what was expected before it. */
  lemma ExpectedHas(h: seq<Cmd>, j: nat, c: ConnId)
    requires j < |h| && h[j].Pub?
    ensures Expected(h[..j], c) + Copies(h[j].event, Matches(h[j].event.topics, Replay(h[..j], c).topics)) <= Expected(h, c)
  {
    assert h[..j + 1] == h[..j] + [h[j]];
    LogMore(h[..j], h[j], c);
    ExpectedGrows(h, j + 1, c);
  }

  /** The last accepted message of a connection and the place of its command in the history. */
  ghost function LastIssue(broadcast: Topic, actions: seq<Action>, c: ConnId): Option<(Msg, nat)>
    decreases |actions|
  {
    if actions == [] then None
    else
      var init, a := actions[..|actions| - 1], actions[|actions| - 1];
      if a.Text? && a.conn == c && Enabled(Run(broadcast, init), a) then Some((a.msg, |History(Run(broadcast, init))|))
      else LastIssue(broadcast, init, c)
  }

  /** The ack due is for message `m`, whose command is at place `i` of the history. */
  ghost predicate AckIsFor(s: State, c: ConnId, m: Msg, i: nat)
    requires c in s.conns
  {
    && s.conns[c].ackDue == Some(m.state)
    && i < |History(s)| && History(s)[i] == CmdOf(c, s.conns[c].ref, m)
  }

  lemma TextMakesAckDue(s: State, c: ConnId, m: Msg)
    requires Enabled(s, Text(c, m)) && m.state != ""
    ensures AckIsFor(Step(s, Text(c, m)), c, m, |History(s)|)
  {
    assert History(Step(s, Text(c, m))) == History(s) + [CmdOf(c, s.conns[c].ref, m)];
  }

  lemma AckStaysDue(s: State, a: Action, c: ConnId, m: Msg, i: nat)
    requires c in s.conns && AckIsFor(s, c, m, i)
    ensures Step(s, a).conns[c].ackDue.Some? ==> AckIsFor(Step(s, a), c, m, i)
  {
    HistoryGrows(s, [a]);
    assert [a][..0] == [];
    assert RunFrom(s, [a]) == Step(s, a);
  }

  /** An ack is sent for the last accepted message only, and only when its command has been issued. */
  lemma {:induction false} AckFollowsCommand(broadcast: Topic, actions: seq<Action>, c: ConnId)
    ensures var s := Run(broadcast, actions);
            var last := LastIssue(broadcast, actions, c);
            c in s.conns && s.conns[c].ackDue.Some? ==> last.Some? && AckIsFor(s, c, last.value.0, last.value.1)
  {
    if actions != [] {
      var init, a := actions[..|actions| - 1], actions[|actions| - 1];
      var s := Run(broadcast, init);
      AckFollowsCommand(broadcast, init, c);
      if a.Text? && a.conn == c && Enabled(s, a) {
        if a.msg.state != "" {
          TextMakesAckDue(s, c, a.msg);
        }
      } else if c in s.conns && s.conns[c].ackDue.Some? {
        AckStaysDue(s, a, c, LastIssue(broadcast, init, c).value.0, LastIssue(broadcast, init, c).value.1);
      }
    }
  }

  /** A sent ack carries the state of the last accepted message unmodified, and no further ack for it follows. */
  lemma AckEchoesState(broadcast: Topic, before: seq<Action>, c: ConnId)
    requires Enabled(Run(broadcast, before), SendAck(c, true))
    ensures var s, last := Run(broadcast, before), LastIssue(broadcast, before, c);
            var s' := Step(s, SendAck(c, true));
            && last.Some?
            && s'.conns[c].wire == s.conns[c].wire + [Ack(last.value.0.state)]
            && !Enabled(s', SendAck(c, true))
    ensures var s, s' := Run(broadcast, before), Step(Run(broadcast, before), SendAck(c, false));
            s'.conns[c].wire == s.conns[c].wire && !Enabled(s', SendAck(c, true))
  {
    AckFollowsCommand(broadcast, before, c);
  }

  /** The event a publishing action issues. */
  ghost function Published(s: State, a: Action): Option<Event> {
    if a.Webhook? then Some(Event(a.ref, [a.topic], a.data))
    else if a.Text? && Enabled(s, a) && a.msg.kind == PUB then Some(Event(s.conns[a.conn].ref, a.msg.topics, a.msg.data))
    else None
  }

  /** An ack is about to be sent for a sub that lists `t`; `i` is the place of that sub in the history. */
  ghost predicate AckDueForSub(broadcast: Topic, before: seq<Action>, c: ConnId, t: Topic, i: nat) {
    && Enabled(Run(broadcast, before), SendAck(c, true))
    && LastIssue(broadcast, before, c).Some?
    && var (m, place) := LastIssue(broadcast, before, c).value;
    && m.kind == SUB && t in m.topics && place == i
  }

  lemma PublishIsIssued(s: State, a: Action)
    requires Published(s, a).Some?
    ensures History(Step(s, a)) == History(s) + [Pub(Published(s, a).value)]
  {
  }

  lemma {:induction false} ConnsStay(s: State, actions: seq<Action>, c: ConnId)
    requires c in s.conns
    ensures c in RunFrom(s, actions).conns
  {
    if actions != [] {
      ConnsStay(s, actions[..|actions| - 1], c);
    }
  }

  /** In the history of the whole run the publish stands at the place it was issued at, and earlier commands before it. */
  lemma HistoryOfRun(
      broadcast: Topic, before: seq<Action>, mid: seq<Action>, publish: Action, after: seq<Action>, c: ConnId, e: Event, s: State)
    requires Published(Run(broadcast, before + mid), publish) == Some(e)
    requires s == Run(broadcast, before + mid + [publish] + after)
    ensures History(Run(broadcast, before)) <= History(Run(broadcast, before + mid)) <= History(s)
    ensures var j := |History(Run(broadcast, before + mid))|; j < |History(s)| && History(s)[j] == Pub(e)
    ensures c in Run(broadcast, before).conns ==> c in s.conns
  {
    var s1, s2 := Run(broadcast, before), Run(broadcast, before + mid);
    var s3 := Step(s2, publish);
    RunFromJoin(Init(broadcast), before, mid);
    RunFromJoin(Init(broadcast), before + mid, [publish] + after);
    RunFromJoin(s2, [publish], after);
    assert before + mid + [publish] + after == before + mid + ([publish] + after);
    assert [publish][..0] == [];
    assert RunFrom(s2, [publish]) == s3 && s == RunFrom(s3, after);
    HistoryGrows(s1, mid);
    HistoryGrows(s3, after);
    PublishIsIssued(s2, publish);
    if c in s1.conns {
      ConnsStay(s1, mid, c);
      ConnsStay(s2, [publish], c);
      ConnsStay(s3, after, c);
    }
  }

  /**
   * An acknowledged subscription is effective. When the ack for a sub is due
   * after `before`, and after `mid` somebody publishes to one of its topics, then
   * once that publish has been taken up its own copies, at least one, stand right
   * after all that was published to the connection before, in what it was sent, has
   * waiting (or lost to the send error that stopped its forwarder) or is still to
   * get from the publish under way; unless an unsub of that topic or the
   * connection's end stands between the two in the order of commands.
   */
  lemma AcknowledgedSubEffective(
      broadcast: Topic, before: seq<Action>, mid: seq<Action>, publish: Action, after: seq<Action>,
      c: ConnId, t: Topic, i: nat, j: nat, e: Event, s: State)
    requires AckDueForSub(broadcast, before, c, t, i)
    requires j == |History(Run(broadcast, before + mid))|
    requires Published(Run(broadcast, before + mid), publish) == Some(e) && t in e.topics
    requires s == Run(broadcast, before + mid + [publish] + after) && j < |s.log|
    requires forall k :: i < k < j ==> !Ends(History(s)[k], c, t)
    ensures c in s.conns
    ensures var n := Matches(e.topics, Replay(s.log[..j], c).topics);
            && n >= 1
            && Expected(s.log[..j], c) + Copies(e, n) <= Stream(s.conns[c]) + Pending(s.disp, c, s.conns[c].reg.topics)
            && (s.disp == Ready ==> Expected(s.log[..j], c) + Copies(e, n) <= Stream(s.conns[c]))
  {
    var s1, h := Run(broadcast, before), History(s);
    HistoryOfRun(broadcast, before, mid, publish, after, c, e, s);
    AckFollowsCommand(broadcast, before, c);
    assert h[i] == History(s1)[i];
    SubscriptionLasts(h, i, j, c, t);
    assert h[..j] == s.log[..j] && s.log[j] == h[j];
    MatchesSome(e.topics, Replay(s.log[..j], c).topics, t);
    ExpectedHas(s.log, j, c);
    DeliveryConserved(broadcast, before + mid + [publish] + after, c);
    assert Stream(s.conns[c]) + [] == Stream(s.conns[c]);
  }

  /** An ack is about to be sent for an unsub, whose place in the history is `i`. */
  ghost predicate AckDueForUnsub(broadcast: Topic, before: seq<Action>, c: ConnId, topics: seq<Topic>, i: nat) {
    && Enabled(Run(broadcast, before), SendAck(c, true))
    && LastIssue(broadcast, before, c).Some?
    && var (m, place) := LastIssue(broadcast, before, c).value;
    && m.kind == UNSUB && m.topics == topics && place == i
  }

  /** No sub of `c` for the topic stands between the places `i` and `j`. */
  predicate NoSubBetween(h: seq<Cmd>, c: ConnId, t: Topic, i: nat, j: nat) {
    forall k :: i < k < j && k < |h| && h[k].Sub? && h[k].conn == c ==> t !in h[k].topics
  }

  lemma UnsubscribedAt(h: seq<Cmd>, c: ConnId, t: Topic, i: nat, j: nat)
    requires i < j <= |h| && Ends(h[i], c, t) && NoSubBetween(h, c, t, i, j)
    ensures t !in Replay(h[..j], c).topics
  {
    SubscribedExactly(h[..j], c, t);
    assert h[..j][i] == h[i];
  }

  /**
   * An acknowledged unsub is effective: when its ack is due after `before`, a publish
   * issued later that lists nothing but topics of it, to none of which a sub came in
   * between, adds nothing to what the connection is sent.
   */
  lemma AcknowledgedUnsubEffective(
      broadcast: Topic, before: seq<Action>, mid: seq<Action>, publish: Action, after: seq<Action>,
      c: ConnId, topics: seq<Topic>, i: nat, j: nat, e: Event, s: State)
    requires AckDueForUnsub(broadcast, before, c, topics, i)
    requires j == |History(Run(broadcast, before + mid))|
    requires Published(Run(broadcast, before + mid), publish) == Some(e)
    requires s == Run(broadcast, before + mid + [publish] + after) && j < |s.log|
    requires forall t :: t in e.topics ==> t in topics && NoSubBetween(History(s), c, t, i, j)
    ensures Expected(s.log[..j + 1], c) == Expected(s.log[..j], c)
    ensures c in s.conns
    ensures j + 1 == |s.log| ==> Stream(s.conns[c]) + Pending(s.disp, c, s.conns[c].reg.topics) == Expected(s.log[..j], c)
  {
    var s1, s2 := Run(broadcast, before), Run(broadcast, before + mid);
    var h := History(s);
    HistoryOfRun(broadcast, before, mid, publish, after, c, e, s);
    AckFollowsCommand(broadcast, before, c);
    assert h[i] == History(Run(broadcast, before))[i] == UnsubCmd(c, topics);
    assert h[..j] == s.log[..j] && s.log[j] == h[j];
    forall t | t in e.topics ensures t !in Replay(s.log[..j], c).topics {
      UnsubscribedAt(h, c, t, i, j);
    }
    MatchesNothing(e.topics, Replay(s.log[..j], c).topics);
    LogMore(s.log[..j], s.log[j], c);
    assert s.log[..j + 1] == s.log[..j] + [s.log[j]];
    assert Expected(s.log[..j], c) + [] == Expected(s.log[..j], c);
    if j + 1 == |s.log| {
      assert s.log[..j + 1] == s.log;
      DeliveryConserved(broadcast, before + mid + [publish] + after, c);
    }
  }

  // ---- Send errors ----

  lemma StoppedStep(s: State, a: Action, c: ConnId)
    requires c in s.conns && s.conns[c].fwd.Stopped? && HelloFirst(s.conns[c])
    ensures var s' := Step(s, a);
            && c in s'.conns && s'.conns[c].fwd == s.conns[c].fwd && HelloFirst(s'.conns[c])
            && EventsOn(s'.conns[c].wire) == EventsOn(s.conns[c].wire)
            && (s.conns[c].wire == [] ==> s'.conns[c].wire == [])
  {
    HelloKept(s, a, c);
    if a.SendAck? && a.conn == c && Enabled(s, a) {
      EventsOnMore(s.conns[c].wire, Ack(s.conns[c].ackDue.value));
    }
  }

  /** A connection whose forwarder has stopped, or to which saying hello failed, gets no event any more. */
  lemma {:induction false} StoppedForGood(s: State, actions: seq<Action>, c: ConnId)
    requires c in s.conns && s.conns[c].fwd.Stopped? && HelloFirst(s.conns[c])
    ensures var s' := RunFrom(s, actions);
            && c in s'.conns && s'.conns[c].fwd == s.conns[c].fwd && HelloFirst(s'.conns[c])
            && EventsOn(s'.conns[c].wire) == EventsOn(s.conns[c].wire)
            && (s.conns[c].phase == Refused && s.conns[c].wire == [] ==> s'.conns[c].wire == [])
  {
    if actions != [] {
      var s1, a := RunFrom(s, actions[..|actions| - 1]), actions[|actions| - 1];
      StoppedForGood(s, actions[..|actions| - 1], c);
      StoppedStep(s1, a, c);
    }
  }

  /**
   * The first send error is the last thing a forwarder does: whatever happens later,
   * no event is sent to the connection, and none at all if it was the hello that failed.
   */
  lemma SendErrorSilences(broadcast: Topic, before: seq<Action>, a: Action, after: seq<Action>, c: ConnId)
    requires Enabled(Run(broadcast, before), a) && (a == Forward(c, false) || a == SayHello(c, false))
    ensures var s, s' := Run(broadcast, before), RunFrom(Step(Run(broadcast, before), a), after);
            && c in s'.conns && EventsOn(s'.conns[c].wire) == EventsOn(s.conns[c].wire)
            && (a.SayHello? ==> s'.conns[c].wire == [])
  {
    var s := Run(broadcast, before);
    RunKeeps(Init(broadcast), before);
    assert HelloFirst(s.conns[c]);
    HelloKept(s, a, c);
    StoppedForGood(Step(s, a), after, c);
  }
}
