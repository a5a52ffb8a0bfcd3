// The pubs protocol as a state machine: connections issue commands, one
// dispatcher executes them in order, one forwarder per connection sends what
// its channel receives. The dispatcher follows the contract of cskr/pubsub.
module PubsModel {
  import opened Text

  type Topic = string
  type ConnId = nat

  const CAPACITY: nat := 256

  /** A published event: who published, the listed topics, and the data. */
  datatype Event = Event(ref: string, topics: seq<Topic>, data: string)

  datatype Cmd =
    | Sub(conn: ConnId, topics: seq<Topic>)
    | Unsub(conn: ConnId, topics: seq<Topic>)
    | UnsubAll(conn: ConnId)
    | Pub(event: Event)

  /** What the dispatcher knows of a channel. */
  datatype Reg = Reg(topics: set<Topic>, closed: bool)

  datatype Frame = Hello(ref: string) | Ack(state: string) | EventFrame(event: Event)

  datatype Phase = Opening | Up | Refused | Gone

  /** A forwarder that stopped on an error has lost what it held. */
  datatype Forwarder = NotStarted | Idle | Holding(event: Event) | Stopped(lost: seq<Event>) | Ended

  datatype Conn = Conn(
    phase: Phase,
    ref: string,
    reg: Reg,
    queue: seq<Event>,
    fwd: Forwarder,
    wire: seq<Frame>,
    ackDue: Option<string>)

  /** The dispatcher in the middle of a publish: topics still to do, channels still to do for the current topic. */
  datatype Dispatcher =
    | Ready
    | Sending(event: Event, rest: seq<Topic>, chans: seq<ConnId>)
    | Crashed(event: Event, rest: seq<Topic>, chans: seq<ConnId>)

  /** `cmds` are issued and not yet executed, `log` are the executed ones. */
  datatype State = State(
    broadcast: Topic,
    cmds: seq<Cmd>,
    log: seq<Cmd>,
    conns: map<ConnId, Conn>,
    disp: Dispatcher)

  datatype Kind = SUB | UNSUB | PUB | OTHER

  /** A client's text message. */
  datatype Msg = Msg(kind: Kind, topics: seq<Topic>, data: string, state: string)

  datatype Action =
    | Connect(conn: ConnId, ref: string)
    | SayHello(conn: ConnId, ok: bool)
    | Text(conn: ConnId, msg: Msg)
    | SendAck(conn: ConnId, ok: bool)
    | Webhook(ref: string, topic: Topic, data: string)
    | Disconnect(conn: ConnId)
    | Receive(conn: ConnId)
    | Forward(conn: ConnId, ok: bool)
    | SeeClosed(conn: ConnId)
    | Execute
    | NextTopic(order: seq<ConnId>)
    | Deliver
    | Finish

  // ---- The registry ----

  function TopicSet(ts: seq<Topic>): set<Topic> {
    set t | t in ts
  }

  /** Taking away topics closes the channel when none is left. */
  function Drop(r: Reg, gone: set<Topic>): Reg {
    Reg(r.topics - gone, r.closed || (r.topics != {} && r.topics <= gone))
  }

  function RegAfter(r: Reg, cmd: Cmd, c: ConnId): Reg {
    match cmd
    case Sub(c', ts) => if c' == c then r.(topics := r.topics + TopicSet(ts)) else r
    case Unsub(c', ts) => if c' == c then Drop(r, TopicSet(ts)) else r
    case UnsubAll(c') => if c' == c then Drop(r, r.topics) else r
    case Pub(_) => r
  }

  /** Closing a channel that is closed already panics, as does sending on it. */
  predicate ClosesTwice(r: Reg, cmd: Cmd) {
    match cmd
    case Unsub(_, ts) => r.closed && r.topics != {} && r.topics <= TopicSet(ts)
    case UnsubAll(_) => r.closed && r.topics != {}
    case _ => false
  }

  function Matches(ts: seq<Topic>, subscribed: set<Topic>): nat {
    if ts == [] then 0 else (if ts[0] in subscribed then 1 else 0) + Matches(ts[1..], subscribed)
  }

  ghost function Subscribers(s: State, t: Topic): set<ConnId> {
    set c | c in s.conns && t in s.conns[c].reg.topics
  }

  // ---- Steps ----

  /** The library's Unsub: without topics it means all of them. */
  function UnsubCmd(c: ConnId, topics: seq<Topic>): Cmd {
    if topics == [] then UnsubAll(c) else Unsub(c, topics)
  }

  /** The command an accepted message issues. */
  function CmdOf(c: ConnId, ref: string, m: Msg): Cmd {
    match m.kind
    case SUB => Sub(c, m.topics)
    case UNSUB => UnsubCmd(c, m.topics)
    case _ => Pub(Event(ref, m.topics, m.data))
  }

  /** Messages without topics and of unknown type issue nothing. */
  predicate Accepted(m: Msg) {
    m.kind != OTHER && m.topics != []
  }

  ghost predicate Enabled(s: State, a: Action) {
    match a
    case Connect(c, _) => c !in s.conns
    case SayHello(c, _) => c in s.conns && s.conns[c].phase == Opening
    case Text(c, m) => c in s.conns && s.conns[c].phase == Up && s.conns[c].ackDue.None? && Accepted(m)
    case SendAck(c, _) => c in s.conns && s.conns[c].ackDue.Some?
    case Webhook(_, _, _) => true
    case Disconnect(c) => c in s.conns && s.conns[c].phase != Gone
    case Receive(c) => c in s.conns && s.conns[c].fwd == Idle && s.conns[c].queue != []
    case Forward(c, _) => c in s.conns && s.conns[c].fwd.Holding?
    case SeeClosed(c) => c in s.conns && s.conns[c].fwd == Idle && s.conns[c].queue == [] && s.conns[c].reg.closed
    case Execute => s.disp == Ready && s.cmds != [] && (s.cmds[0].Pub? || s.cmds[0].conn in s.conns)
    case NextTopic(order) =>
      s.disp.Sending? && s.disp.chans == [] && s.disp.rest != []
      && multiset(order) == multiset(Subscribers(s, s.disp.rest[0]))
    case Deliver =>
      s.disp.Sending? && s.disp.chans != [] && s.disp.chans[0] in s.conns
      && (s.conns[s.disp.chans[0]].reg.closed || |s.conns[s.disp.chans[0]].queue| < CAPACITY)
    case Finish => s.disp.Sending? && s.disp.chans == [] && s.disp.rest == []
  }

  function Issue(s: State, cmd: Cmd): State {
    s.(cmds := s.cmds + [cmd])
  }

  function Update(s: State, c: ConnId, conn: Conn): State {
    s.(conns := s.conns[c := conn])
  }

  const NOTHING := Event("", [], "")

  function Executed(s: State): State
    requires s.cmds != [] && (s.cmds[0].Pub? || s.cmds[0].conn in s.conns)
  {
    var cmd := s.cmds[0];
    var s' := s.(cmds := s.cmds[1..], log := s.log + [cmd]);
    if cmd.Pub? then s'.(disp := Sending(cmd.event, cmd.event.topics, []))
    else
      var conn := s.conns[cmd.conn];
      var s'' := Update(s', cmd.conn, conn.(reg := RegAfter(conn.reg, cmd, cmd.conn)));
      if ClosesTwice(conn.reg, cmd) then s''.(disp := Crashed(NOTHING, [], [])) else s''
  }

  function Delivered(s: State): State
    requires s.disp.Sending? && s.disp.chans != [] && s.disp.chans[0] in s.conns
  {
    var Sending(e, rest, chans) := s.disp;
    var conn := s.conns[chans[0]];
    if conn.reg.closed then s.(disp := Crashed(e, rest, chans))
    else Update(s, chans[0], conn.(queue := conn.queue + [e])).(disp := Sending(e, rest, chans[1..]))
  }

  /** What is not enabled changes nothing, so every sequence of actions is a run. */
  ghost function Step(s: State, a: Action): State {
    if !Enabled(s, a) then s else
      match a
      case Connect(c, ref) =>
        Issue(Update(s, c, Conn(Opening, ref, Reg({}, false), [], NotStarted, [], None)), Sub(c, [s.broadcast]))
      case SayHello(c, ok) =>
        var conn := s.conns[c];
        Update(s, c, if ok then conn.(phase := Up, fwd := Idle, wire := [Hello(conn.ref)])
                     else conn.(phase := Refused, fwd := Stopped([])))
      case Text(c, m) =>
        var conn := s.conns[c];
        Issue(Update(s, c, if m.state == "" then conn else conn.(ackDue := Some(m.state))), CmdOf(c, conn.ref, m))
      case SendAck(c, ok) =>
        var conn := s.conns[c];
        Update(s, c, conn.(ackDue := None, wire := if ok then conn.wire + [Ack(conn.ackDue.value)] else conn.wire))
      case Webhook(ref, topic, data) => Issue(s, Pub(Event(ref, [topic], data)))
      case Disconnect(c) => Issue(Update(s, c, s.conns[c].(phase := Gone)), UnsubCmd(c, []))
      case Receive(c) =>
        var conn := s.conns[c];
        Update(s, c, conn.(fwd := Holding(conn.queue[0]), queue := conn.queue[1..]))
      case Forward(c, ok) =>
        var conn := s.conns[c];
        Update(s, c, if ok then conn.(fwd := Idle, wire := conn.wire + [EventFrame(conn.fwd.event)])
                     else conn.(fwd := Stopped([conn.fwd.event])))
      case SeeClosed(c) => Update(s, c, s.conns[c].(fwd := Ended))
      case Execute => Executed(s)
      case NextTopic(order) => s.(disp := Sending(s.disp.event, s.disp.rest[1..], order))
      case Deliver => Delivered(s)
      case Finish => s.(disp := Ready)
  }

  function Init(broadcast: Topic): State {
    State(broadcast, [], [], map[], Ready)
  }

  ghost function RunFrom(s: State, actions: seq<Action>): State
    decreases |actions|
  {
    if actions == [] then s else Step(RunFrom(s, actions[..|actions| - 1]), actions[|actions| - 1])
  }

  ghost function Run(broadcast: Topic, actions: seq<Action>): State {
    RunFrom(Init(broadcast), actions)
  }

  lemma RunMore(broadcast: Topic, actions: seq<Action>, a: Action)
    ensures Run(broadcast, actions + [a]) == Step(Run(broadcast, actions), a)
  {
    assert (actions + [a])[..|actions|] == actions;
  }

  lemma {:induction false} RunFromJoin(s: State, a: seq<Action>, b: seq<Action>)
    ensures RunFrom(s, a + b) == RunFrom(RunFrom(s, a), b)
  {
    if b == [] {
      assert a + b == a;
    } else {
      assert (a + b)[..|a + b| - 1] == a + b[..|b| - 1];
      RunFromJoin(s, a, b[..|b| - 1]);
    }
  }

  // ---- Reference semantics of a log ----

  /** The registry entry after the commands of a log. */
  function Replay(log: seq<Cmd>, c: ConnId): Reg
    decreases |log|
  {
    if log == [] then Reg({}, false) else RegAfter(Replay(log[..|log| - 1], c), log[|log| - 1], c)
  }

  function Copies(e: Event, n: nat): (es: seq<Event>)
    ensures |es| == n && forall i :: 0 <= i < n ==> es[i] == e
  {
    seq(n, _ => e)
  }

  /** The events a log publishes to a connection: each once per listed topic it is subscribed to at that point. */
  function Expected(log: seq<Cmd>, c: ConnId): seq<Event>
    decreases |log|
  {
    if log == [] then []
    else
      var init, cmd := log[..|log| - 1], log[|log| - 1];
      if cmd.Pub? then Expected(init, c) + Copies(cmd.event, Matches(cmd.event.topics, Replay(init, c).topics))
      else Expected(init, c)
  }

  /** All commands issued so far, in the order of issue. */
  function History(s: State): seq<Cmd> {
    s.log + s.cmds
  }
}
