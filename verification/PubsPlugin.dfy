// The pubs plugin's callbacks and the dispatcher as code on shared state. Each
// method is one uninterrupted stretch of the plugin's code; the hub keeps the run of
// the model it has gone through, so that what holds of runs holds of it.
module PubsPlugin {
  import opened Text
  import opened PubsModel
  import opened PubsDelivery
  import opened PubsChannels

  /** The second run continues the first without any client's message. */
  predicate Continues(before: seq<Action>, after: seq<Action>) {
    before <= after && forall i :: |before| <= i < |after| ==> !after[i].Text?
  }

  /** How many turns of its forwarder a channel is good for. */
  function Backlog(conn: Conn): nat {
    2 * |conn.queue| + if conn.fwd.Holding? then 1 else 0
  }

  /** What the forwarder does next. */
  function TurnOf(c: ConnId, conn: Conn, sent: bool): Action {
    if conn.fwd.Holding? then Forward(c, sent) else if conn.queue != [] then Receive(c) else SeeClosed(c)
  }

  /** Between the two states the forwarder of `c` took a turn: it made progress, and no event got lost or changed places. */
  ghost predicate TurnKeeps(s: State, s': State, c: ConnId) {
    && s'.cmds == s.cmds && s'.log == s.log && s'.disp == s.disp
    && c in s.conns && c in s'.conns && s'.conns == s.conns[c := s'.conns[c]]
    && Stream(s'.conns[c]) == Stream(s.conns[c]) && s'.conns[c].reg == s.conns[c].reg
    && (Backlog(s.conns[c]) > 0 ==> Backlog(s'.conns[c]) < Backlog(s.conns[c]))
    && (s'.conns[c].fwd == Ended <==> s.conns[c].reg.closed && Backlog(s.conns[c]) == 0)
  }

  lemma TurnStep(s: State, c: ConnId, sent: bool)
    requires Inv(s) && c in s.conns && (s.conns[c].fwd == Idle || s.conns[c].fwd.Holding?)
    ensures TurnKeeps(s, Step(s, TurnOf(c, s.conns[c], sent)), c)
  {
    var a := TurnOf(c, s.conns[c], sent);
    assert HelloFirst(s.conns[c]);
    if Enabled(s, a) {
      StreamKept(s, a, c);
    } else {
      assert s.conns == s.conns[c := s.conns[c]];
    }
  }

  class Hub {
    const broadcast: Topic
    var cmds: seq<Cmd>
    ghost var log: seq<Cmd>
    var conns: map<ConnId, Conn>
    var disp: Dispatcher
    ghost var trace: seq<Action>

    ghost function View(): State
      reads this
    {
      State(broadcast, cmds, log, conns, disp)
    }

    ghost predicate Valid()
      reads this
    {
      View() == Run(broadcast, trace)
    }

    constructor (broadcast: Topic)
      ensures Valid() && trace == [] && this.broadcast == broadcast
    {
      this.broadcast := broadcast;
      cmds, log, conns, disp := [], [], map[], Ready;
      trace := [];
    }

    ghost method Record(a: Action)
      modifies `trace
      ensures trace == old(trace) + [a] && Run(broadcast, trace) == Step(Run(broadcast, old(trace)), a)
    {
      RunMore(broadcast, trace, a);
      trace := trace + [a];
    }

    // ---- What holds of every hub ----

    lemma InvHolds()
      requires Valid()
      ensures Inv(View())
    {
      RunKeeps(Init(broadcast), trace);
    }

    /** At every hub, whatever methods were called on it, events are conserved. */
    lemma Conservation(c: ConnId)
      requires Valid() && c in conns
      ensures conns[c].reg == Replay(log, c) && |conns[c].queue| <= CAPACITY
      ensures Stream(conns[c]) + Pending(disp, c, conns[c].reg.topics) == Expected(log, c)
      ensures disp == Ready ==> Stream(conns[c]) == Expected(log, c)
    {
      InvHolds();
      assert Conserved(View(), c);
      assert Stream(conns[c]) + [] == Stream(conns[c]);
    }

    /** A hub whose clients keep the broadcast topic out of their unsubs never panics and closes no channel early. */
    lemma NeverPanics()
      requires Valid() && AllPolite(broadcast, trace)
      ensures !disp.Crashed?
      ensures forall c :: c in conns && conns[c].phase != Gone ==> !conns[c].reg.closed
    {
      NeverCrashes(broadcast, trace);
      forall c | c in conns && conns[c].phase != Gone ensures !conns[c].reg.closed {
        ChannelStaysOpen(broadcast, trace, c);
      }
    }

    // ---- Callbacks of connections ----

    /** onSubInit up to the hello: a new channel, subscribed to the broadcast topic. */
    method OnSubInit(c: ConnId, ref: string)
      requires Valid() && c !in conns
      modifies this
      ensures Valid() && trace == old(trace) + [Connect(c, ref)]
    {
      Record(Connect(c, ref));
      conns := conns[c := Conn(Opening, ref, Reg({}, false), [], NotStarted, [], None)];
      cmds := cmds + [Sub(c, [broadcast])];
    }

    /** Says hello and, if that went well, starts the forwarder. */
    method OnSubHello(c: ConnId, sent: bool) returns (ok: bool)
      requires Valid() && c in conns && conns[c].phase == Opening
      modifies this
      ensures Valid() && trace == old(trace) + [SayHello(c, sent)] && ok == sent
    {
      Record(SayHello(c, sent));
      if !sent {
        conns := conns[c := conns[c].(phase := Refused, fwd := Stopped([]))];
        return false;
      }
      conns := conns[c := conns[c].(wire := [Hello(conns[c].ref)])];
      conns := conns[c := conns[c].(phase := Up, fwd := Idle)];
      ok := true;
    }

    method OnSub(c: ConnId, topics: seq<Topic>) returns (err: Option<string>)
      modifies `cmds
      ensures topics == [] ==> err == Some("pubsub_without_topics") && cmds == old(cmds)
      ensures topics != [] ==> err == None && cmds == old(cmds) + [Sub(c, topics)]
    {
      if |topics| == 0 {
        return Some("pubsub_without_topics");
      }
      cmds := cmds + [Sub(c, topics)];
      err := None;
    }

    method OnUnsub(c: ConnId, topics: seq<Topic>) returns (err: Option<string>)
      modifies `cmds
      ensures topics == [] ==> err == Some("pubsub_without_topics") && cmds == old(cmds)
      ensures topics != [] ==> err == None && cmds == old(cmds) + [Unsub(c, topics)]
    {
      if |topics| == 0 {
        return Some("pubsub_without_topics");
      }
      cmds := cmds + [UnsubCmd(c, topics)];
      err := None;
    }

    method OnPub(c: ConnId, topics: seq<Topic>, data: string) returns (err: Option<string>)
      requires c in conns
      modifies `cmds
      ensures topics == [] ==> err == Some("pubsub_without_topics") && cmds == old(cmds)
      ensures topics != [] ==> err == None && cmds == old(cmds) + [Pub(Event(conns[c].ref, topics, data))]
    {
      if |topics| == 0 {
        return Some("pubsub_without_topics");
      }
      cmds := cmds + [Pub(Event(conns[c].ref, topics, data))];
      err := None;
    }

    /** OnText: acts on the message first, an ack is owed only when that succeeded. */
    method OnText(c: ConnId, msg: Msg) returns (err: Option<string>)
      requires Valid() && c in conns && conns[c].phase == Up && conns[c].ackDue.None?
      modifies this
      ensures Valid() && trace == old(trace) + [Text(c, msg)]
      ensures err.Some? <==> msg.kind != OTHER && msg.topics == []
      ensures msg.kind == OTHER || msg.topics == [] ==> cmds == old(cmds) && conns == old(conns)
      ensures msg.kind == SUB && msg.topics != [] ==> cmds == old(cmds) + [Sub(c, msg.topics)]
      ensures msg.kind == UNSUB && msg.topics != [] ==> cmds == old(cmds) + [Unsub(c, msg.topics)]
      ensures msg.kind == PUB && msg.topics != [] ==> cmds == old(cmds) + [Pub(Event(old(conns)[c].ref, msg.topics, msg.data))]
      ensures c in conns && conns[c] == old(conns)[c].(ackDue := conns[c].ackDue)
      ensures conns[c].ackDue == if msg.kind != OTHER && msg.topics != [] && msg.state != "" then Some(msg.state) else None
    {
      Record(Text(c, msg));
      ghost var before := conns;
      assert before[c := before[c]] == before;
      if msg.kind == SUB {
        err := OnSub(c, msg.topics);
      } else if msg.kind == UNSUB {
        err := OnUnsub(c, msg.topics);
      } else if msg.kind == PUB {
        err := OnPub(c, msg.topics, msg.data);
      } else {
        return None;
      }
      if err.Some? {
        return;
      }
      if msg.state != "" {
        conns := conns[c := conns[c].(ackDue := Some(msg.state))];
      }
    }

    method Acknowledge(c: ConnId, sent: bool)
      requires Valid() && c in conns && conns[c].ackDue.Some?
      modifies this
      ensures Valid() && trace == old(trace) + [SendAck(c, sent)]
      ensures c in conns && conns[c].ackDue.None?
      ensures conns[c].wire == old(conns)[c].wire + if sent then [Ack(old(conns)[c].ackDue.value)] else []
    {
      Record(SendAck(c, sent));
      if sent {
        conns := conns[c := conns[c].(wire := conns[c].wire + [Ack(conns[c].ackDue.value)])];
      }
      conns := conns[c := conns[c].(ackDue := None)];
    }

    method OnDisconnect(c: ConnId)
      requires Valid() && c in conns && conns[c].phase != Gone
      modifies this
      ensures Valid() && trace == old(trace) + [Disconnect(c)]
    {
      Record(Disconnect(c));
      conns := conns[c := conns[c].(phase := Gone)];
      cmds := cmds + [UnsubCmd(c, [])];
    }

    method HandleWebhookPublish(id: string, topic: Topic, data: string)
      requires Valid()
      modifies this
      ensures Valid() && trace == old(trace) + [Webhook(id, topic, data)]
    {
      Record(Webhook(id, topic, data));
      cmds := cmds + [Pub(Event(id, [topic], data))];
    }

    /** Sends what the forwarder holds; an error stops it. */
    method SendHeld(c: ConnId, sent: bool)
      requires Valid() && c in conns && conns[c].fwd.Holding?
      modifies this
      ensures Valid() && trace == old(trace) + [Forward(c, sent)]
    {
      Record(Forward(c, sent));
      var conn := conns[c];
      if sent {
        conns := conns[c := conn.(wire := conn.wire + [EventFrame(conn.fwd.event)], fwd := Idle)];
      } else {
        conns := conns[c := conn.(fwd := Stopped([conn.fwd.event]))];
      }
    }

    /** Receives from the channel, or learns that it was closed. */
    method ReceiveNext(c: ConnId)
      requires Valid() && c in conns && conns[c].fwd == Idle
      modifies this
      ensures Valid() && trace == old(trace) + [if old(conns)[c].queue != [] then Receive(c) else SeeClosed(c)]
    {
      var conn := conns[c];
      if |conn.queue| > 0 {
        Record(Receive(c));
        conns := conns[c := conn.(fwd := Holding(conn.queue[0]), queue := conn.queue[1..])];
      } else {
        Record(SeeClosed(c));
        if conn.reg.closed {
          conns := conns[c := conn.(fwd := Ended)];
        }
      }
    }

    /** One turn of the forwarder loop. No event is lost, repeated or overtaken by it. */
    method ForwarderTurn(c: ConnId, sent: bool)
      requires Valid() && c in conns && (conns[c].fwd == Idle || conns[c].fwd.Holding?)
      modifies this
      ensures Valid() && trace == old(trace) + [TurnOf(c, old(conns)[c], sent)] && TurnKeeps(old(View()), View(), c)
    {
      InvHolds();
      TurnStep(View(), c, sent);
      RunMore(broadcast, trace, TurnOf(c, conns[c], sent));
      if conns[c].fwd.Holding? {
        SendHeld(c, sent);
      } else {
        ReceiveNext(c);
      }
    }

    // ---- The dispatcher ----

    static method AddTopics(r: Reg, topics: seq<Topic>) returns (after: Reg)
      ensures after == r.(topics := r.topics + TopicSet(topics))
    {
      after := r;
      for i := 0 to |topics|
        invariant after == r.(topics := r.topics + TopicSet(topics[..i]))
      {
        after := after.(topics := after.topics + {topics[i]});
        assert topics[..i + 1] == topics[..i] + [topics[i]];
      }
      assert topics[..|topics|] == topics;
    }

    /** Removes topics one by one and closes the channel with the last; a second close panics. */
    static method RemoveTopics(r: Reg, topics: seq<Topic>) returns (after: Reg, panics: bool)
      ensures after == Drop(r, TopicSet(topics))
      ensures panics <==> r.closed && r.topics != {} && r.topics <= TopicSet(topics)
    {
      after, panics := r, false;
      for i := 0 to |topics|
        invariant after == Drop(r, TopicSet(topics[..i]))
        invariant panics <==> r.closed && r.topics != {} && r.topics <= TopicSet(topics[..i])
      {
        assert topics[..i + 1] == topics[..i] + [topics[i]];
        assert TopicSet(topics[..i + 1]) == TopicSet(topics[..i]) + {topics[i]};
        if topics[i] in after.topics {
          assert r.topics <= TopicSet(topics[..i + 1]) <==> after.topics - {topics[i]} == {};
          after := after.(topics := after.topics - {topics[i]});
          if after.topics == {} {
            panics := after.closed;
            after := after.(closed := true);
          }
        }
      }
      assert topics[..|topics|] == topics;
    }

    /** Removes whatever topics there are, in any order. */
    static method RemoveAll(r: Reg) returns (after: Reg, panics: bool)
      ensures after == Drop(r, r.topics)
      ensures panics <==> r.closed && r.topics != {}
    {
      after, panics := r, false;
      while after.topics != {}
        invariant after.topics != {} ==> after.topics <= r.topics && after.closed == r.closed && !panics
        invariant after.topics == {} ==> after.closed == (r.closed || r.topics != {}) && (panics <==> r.closed && r.topics != {})
        decreases |after.topics|
      {
        var t :| t in after.topics;
        after := after.(topics := after.topics - {t});
        if after.topics == {} {
          panics := after.closed;
          after := after.(closed := true);
        }
      }
    }

    /** Takes the next command and executes it; a publish is begun. */
    method ExecuteNext()
      requires Valid() && Enabled(View(), Execute)
      modifies this
      ensures Valid() && trace == old(trace) + [Execute] && cmds == old(cmds)[1..] && log == old(log) + [old(cmds)[0]]
      ensures forall c :: c in conns ==> conns[c].reg == Replay(log, c)
      ensures TopicsFollow(old(View()), View(), old(cmds)[0])
    {
      ExecuteEffect(View());
      Record(Execute);
      var cmd := cmds[0];
      cmds, log := cmds[1..], log + [cmd];
      match cmd {
        case Sub(c, topics) =>
          var reg := AddTopics(conns[c].reg, topics);
          conns := conns[c := conns[c].(reg := reg)];
        case Unsub(c, topics) =>
          var reg, panics := RemoveTopics(conns[c].reg, topics);
          conns := conns[c := conns[c].(reg := reg)];
          if panics {
            disp := Crashed(NOTHING, [], []);
          }
        case UnsubAll(c) =>
          var reg, panics := RemoveAll(conns[c].reg);
          conns := conns[c := conns[c].(reg := reg)];
          if panics {
            disp := Crashed(NOTHING, [], []);
          }
        case Pub(event) =>
          disp := Sending(event, event.topics, []);
      }
      InvHolds();
    }

    static method Channels(conns: map<ConnId, Conn>, topic: Topic) returns (order: seq<ConnId>)
      ensures multiset(order) == multiset(set c | c in conns && topic in conns[c].reg.topics)
    {
      order := [];
      var left := conns.Keys;
      while left != {}
        invariant left <= conns.Keys
        invariant multiset(order) == multiset(set c | c in conns && c !in left && topic in conns[c].reg.topics)
        decreases |left|
      {
        var c :| c in left;
        ghost var before := set d | d in conns && d !in left && topic in conns[d].reg.topics;
        left := left - {c};
        if topic in conns[c].reg.topics {
          order := order + [c];
        }
        assert (set d | d in conns && d !in left && topic in conns[d].reg.topics)
            == before + if topic in conns[c].reg.topics then {c} else {};
      }
      assert (set c | c in conns && c !in left && topic in conns[c].reg.topics) == set c | c in conns && topic in conns[c].reg.topics;
    }

    /** Goes on to the next topic of the publish: its channels, in any order. */
    method TakeTopic()
      requires Valid() && disp.Sending? && disp.chans == [] && disp.rest != []
      modifies this
      ensures Valid() && Continues(old(trace), trace) && cmds == old(cmds) && log == old(log) && conns == old(conns)
      ensures disp.Sending? && disp.rest == old(disp).rest[1..]
    {
      var order := Channels(conns, disp.rest[0]);
      assert Subscribers(View(), disp.rest[0]) == set c | c in conns && disp.rest[0] in conns[c].reg.topics;
      Record(NextTopic(order));
      disp := Sending(disp.event, disp.rest[1..], order);
    }

    /** The publish loop's next send, to the next channel of the current topic. */
    method SendNext()
      requires Valid() && Enabled(View(), Deliver)
      modifies this
      ensures Valid() && Continues(old(trace), trace) && cmds == old(cmds) && log == old(log)
      ensures disp == if old(conns)[old(disp).chans[0]].reg.closed
                      then Crashed(old(disp).event, old(disp).rest, old(disp).chans)
                      else Sending(old(disp).event, old(disp).rest, old(disp).chans[1..])
    {
      Record(Deliver);
      var c := disp.chans[0];
      var conn := conns[c];
      if conn.reg.closed {
        disp := Crashed(disp.event, disp.rest, disp.chans);
        return;
      }
      conns := conns[c := conn.(queue := conn.queue + [disp.event])];
      disp := Sending(disp.event, disp.rest, disp.chans[1..]);
    }

    method FinishPublish()
      requires Valid() && disp.Sending? && disp.chans == [] && disp.rest == []
      modifies this
      ensures Valid() && Continues(old(trace), trace) && cmds == old(cmds) && log == old(log) && disp == Ready
    {
      Record(Finish);
      disp := Ready;
    }

    /** The channel the publish loop is at. */
    lemma HeadKnown()
      requires Valid() && disp.Sending? && disp.chans != []
      ensures disp.chans[0] in conns
    {
      InvHolds();
      assert disp.chans[0] in disp.chans;
    }

    ghost function HeadBacklog(): nat
      reads this
    {
      if disp.Sending? && disp.chans != [] && disp.chans[0] in conns then Backlog(conns[disp.chans[0]]) else 0
    }

    lemma NoPanicAfter(before: seq<Action>)
      requires Valid() && Continues(before, trace)
      ensures AllPolite(broadcast, before) ==> !disp.Crashed?
    {
      if AllPolite(broadcast, before) {
        assert forall i :: 0 <= i < |before| ==> trace[i] == before[i];
        NeverPanics();
      }
    }

    /**
     * The publish loop. Before a full channel it waits for the forwarder there to
     * make room, and forever if that one has stopped. When it gets through, every
     * connection has got, sent or queued, exactly what the executed commands
     * published to it; it panics only if some client unsubscribed from broadcast.
     */
    method Publish() returns (done: bool)
      requires Valid() && disp.Sending?
      modifies this
      ensures Valid() && Continues(old(trace), trace) && cmds == old(cmds) && log == old(log)
      ensures done ==> disp == Ready && forall c :: c in conns ==> Stream(conns[c]) == Expected(log, c)
      ensures !done && !disp.Crashed? ==>
                && disp.Sending? && disp.chans != [] && disp.chans[0] in conns
                && var conn := conns[disp.chans[0]];
                && |conn.queue| == CAPACITY && (conn.fwd == NotStarted || conn.fwd.Stopped? || conn.fwd == Ended)
      ensures AllPolite(broadcast, old(trace)) ==> !disp.Crashed?
    {
      while disp.Sending?
        invariant Valid() && Continues(old(trace), trace) && cmds == old(cmds) && log == old(log)
        decreases (if disp.Sending? then |disp.rest| + 1 else 0), (if disp.Sending? then |disp.chans| else 0), HeadBacklog()
      {
        if disp.chans == [] {
          if disp.rest == [] {
            FinishPublish();
          } else {
            TakeTopic();
          }
        } else {
          HeadKnown();
          var c := disp.chans[0];
          if conns[c].reg.closed || |conns[c].queue| < CAPACITY {
            SendNext();
          } else if conns[c].fwd == Idle || conns[c].fwd.Holding? {
            var sent: bool := *;
            ForwarderTurn(c, sent);
          } else {
            Conservation(c);
            NoPanicAfter(old(trace));
            return false;
          }
        }
      }
      done := disp == Ready;
      forall c | c in conns ensures done ==> Stream(conns[c]) == Expected(log, c) {
        Conservation(c);
      }
      NoPanicAfter(old(trace));
    }
  }
}
