// Shutdown of the server: a main loop, an HTTP listener goroutine and the
// goroutines of plugins share an error channel that buffers two errors.
module ServeShutdown {
  const CAPACITY: nat := 2

  datatype Cause = Error | Signal

  /** The goroutine around srv.Serve. */
  datatype Listener = Serving | Sending | Closing | Done

  /**
   * The main goroutine: in its first select, shutting down the HTTP server and
   * closing plugins, in a plugin's Close that does not return, in the wait loop, or
   * back from Serve.
   */
  datatype Main =
    | Selecting
    | Stopping(cause: Cause)
    | Hung(cause: Cause)
    | Waiting(cause: Cause)
    | Returned(cause: Cause, secondSignal: bool)

  /**
   * The plugin goroutines are alike, so they are counted: those still looking
   * for sockets, those about to send an error, and all that failed so far.
   */
  datatype State = State(
    looking: nat,
    failing: nat,
    failed: nat,
    buffered: nat,
    listener: Listener,
    exitClosed: bool,
    main: Main)

  datatype Action =
    | PluginSucceeds
    | PluginFails
    | PluginSends
    | ListenerReturns(err: bool)
    | ListenerSends
    | ListenerCloses
    | MainReceives
    | MainSignalled
    | MainStops
    | CloseHangs
    | MainSeesExit
    | MainSecondSignal

  function Init(plugins: nat): State {
    State(plugins, 0, 0, 0, Serving, false, Selecting)
  }

  /** A send is possible while the buffer has room, a receive while it holds something. */
  predicate Enabled(s: State, a: Action) {
    match a
    case PluginSucceeds => s.looking > 0
    case PluginFails => s.looking > 0
    case PluginSends => s.failing > 0 && s.buffered < CAPACITY
    case ListenerReturns(_) => s.listener == Serving
    case ListenerSends => s.listener == Sending && s.buffered < CAPACITY
    case ListenerCloses => s.listener == Closing
    case MainReceives => s.main == Selecting && s.buffered > 0
    case MainSignalled => s.main == Selecting
    case MainStops => s.main.Stopping?
    case CloseHangs => s.main.Stopping?
    case MainSeesExit => s.main.Waiting? && s.exitClosed
    case MainSecondSignal => s.main.Waiting?
  }

  function Step(s: State, a: Action): State {
    if !Enabled(s, a) then s else
      match a
      case PluginSucceeds => s.(looking := s.looking - 1)
      case PluginFails => s.(looking := s.looking - 1, failing := s.failing + 1, failed := s.failed + 1)
      case PluginSends => s.(failing := s.failing - 1, buffered := s.buffered + 1)
      case ListenerReturns(err) => s.(listener := if err then Sending else Closing)
      case ListenerSends => s.(listener := Closing, buffered := s.buffered + 1)
      case ListenerCloses => s.(listener := Done, exitClosed := true)
      case MainReceives => s.(main := Stopping(Error), buffered := s.buffered - 1)
      case MainSignalled => s.(main := Stopping(Signal))
      case MainStops => s.(main := Waiting(s.main.cause))
      case CloseHangs => s.(main := Hung(s.main.cause))
      case MainSeesExit => s.(main := Returned(s.main.cause, false))
      case MainSecondSignal => s.(main := Returned(s.main.cause, true))
  }

  function RunFrom(s: State, actions: seq<Action>): State
    decreases |actions|
  {
    if actions == [] then s else Step(RunFrom(s, actions[..|actions| - 1]), actions[|actions| - 1])
  }

  function Run(plugins: nat, actions: seq<Action>): State {
    RunFrom(Init(plugins), actions)
  }

  lemma RunMore(s: State, actions: seq<Action>, a: Action)
    ensures RunFrom(s, actions + [a]) == Step(RunFrom(s, actions), a)
  {
    assert (actions + [a])[..|actions|] == actions;
  }

  lemma {:induction false} RunJoin(s: State, a: seq<Action>, b: seq<Action>)
    ensures RunFrom(s, a + b) == RunFrom(RunFrom(s, a), b)
  {
    if b == [] {
      assert a + b == a;
    } else {
      assert (a + b)[..|a + b| - 1] == a + b[..|b| - 1];
      RunJoin(s, a, b[..|b| - 1]);
    }
  }

  // ---- Accounting ----

  function Received(m: Main): nat {
    if m.Selecting? || m.cause == Signal then 0 else 1
  }

  function ListenerPending(l: Listener): nat {
    if l == Serving || l == Sending then 1 else 0
  }

  /** Every error is still to come, about to be sent, buffered, or was received. */
  ghost predicate Accounts(s: State, plugins: nat) {
    && s.buffered <= 2
    && s.looking + s.failed <= plugins
    && s.failed <= s.buffered + Received(s.main) + s.failing
    && s.buffered + Received(s.main) + s.failing + ListenerPending(s.listener) <= s.failed + 1
    && (s.exitClosed <==> s.listener == Done)
  }

  lemma StepAccounts(s: State, a: Action, plugins: nat)
    requires Accounts(s, plugins)
    ensures Accounts(Step(s, a), plugins)
  {
  }

  lemma {:induction false} RunAccounts(plugins: nat, actions: seq<Action>)
    ensures Accounts(Run(plugins, actions), plugins)
  {
    if actions != [] {
      RunAccounts(plugins, actions[..|actions| - 1]);
      StepAccounts(Run(plugins, actions[..|actions| - 1]), actions[|actions| - 1], plugins);
    }
  }

  // ---- Blocking ----

  /** The server is shutting down for the given cause. */
  predicate ShuttingDown(s: State, cause: Cause) {
    (s.main.Stopping? || s.main.Hung? || s.main.Waiting?) && s.main.cause == cause
  }

  /** Somebody wants to send while the channel is full. */
  predicate SenderBlocked(s: State) {
    s.buffered == CAPACITY && (s.failing > 0 || s.listener == Sending)
  }

  /** What is needed for a sender to block once the cause is known. */
  function ErrorsToBlock(cause: Cause): nat {
    match cause
    case Error => 3
    case Signal => 2
  }

  /** Once the cause is known, no sender blocks unless enough plugin errors occurred. */
  lemma BlockingNeedsErrors(plugins: nat, actions: seq<Action>, cause: Cause)
    ensures var s := Run(plugins, actions);
            ShuttingDown(s, cause) && SenderBlocked(s) ==> s.failed >= ErrorsToBlock(cause)
  {
    RunAccounts(plugins, actions);
  }

  lemma Then(plugins: nat, actions: seq<Action>, s: State, a: Action) returns (s': State, more: seq<Action>)
    requires s == Run(plugins, actions)
    ensures more == actions + [a] && s' == Step(s, a) == Run(plugins, more)
  {
    more := actions + [a];
    RunMore(Init(plugins), actions, a);
    s' := Step(s, a);
  }

  /** A run in which the listener cannot send. */
  lemma BlockingRun(plugins: nat, cause: Cause) returns (actions: seq<Action>)
    requires plugins >= ErrorsToBlock(cause)
    ensures var s := Run(plugins, actions);
            ShuttingDown(s, cause) && s.buffered == CAPACITY && s.listener == Sending
  {
    var s := Init(plugins);
    actions := [];
    if cause == Error {
      s, actions := Then(plugins, actions, s, PluginFails);
      s, actions := Then(plugins, actions, s, PluginSends);
      s, actions := Then(plugins, actions, s, MainReceives);
    } else {
      s, actions := Then(plugins, actions, s, MainSignalled);
    }
    s, actions := Then(plugins, actions, s, PluginFails);
    s, actions := Then(plugins, actions, s, PluginSends);
    s, actions := Then(plugins, actions, s, PluginFails);
    s, actions := Then(plugins, actions, s, PluginSends);
    s, actions := Then(plugins, actions, s, ListenerReturns(true));
  }

  /**
   * The channel's capacity suffices on the error path if and only if at most two
   * plugin goroutines can fail, on the signal path if and only if at most one can.
   */
  lemma CapacitySuffices(plugins: nat, cause: Cause)
    ensures (forall actions :: ShuttingDown(Run(plugins, actions), cause) ==> !SenderBlocked(Run(plugins, actions)))
            <==> plugins < ErrorsToBlock(cause)
  {
    if plugins < ErrorsToBlock(cause) {
      forall actions | ShuttingDown(Run(plugins, actions), cause)
        ensures !SenderBlocked(Run(plugins, actions))
      {
        RunAccounts(plugins, actions);
      }
    } else {
      var actions := BlockingRun(plugins, cause);
    }
  }

  /** A listener that is blocked during shutdown stays blocked: Serve returns on a second signal or not at all. */
  lemma {:induction false} BlockedForGood(s: State, actions: seq<Action>)
    requires (s.main.Stopping? || s.main.Hung? || s.main.Waiting?) && s.buffered == CAPACITY && s.listener == Sending && !s.exitClosed
    ensures var s' := RunFrom(s, actions);
            && s'.buffered == CAPACITY && s'.listener == Sending && !s'.exitClosed && !s'.main.Selecting?
            && (s'.main.Returned? ==> s'.main.secondSignal)
  {
    if actions != [] {
      BlockedForGood(s, actions[..|actions| - 1]);
    }
  }

  // ---- Termination ----

  /** The steps of shutdown itself: the listener's and the main goroutine's, without a second signal. */
  predicate IsShutdownStep(a: Action) {
    a == ListenerReturns(true) || a.ListenerSends? || a.ListenerCloses? || a.MainStops? || a.MainSeesExit?
  }

  function Rank(s: State): nat {
    (match s.listener case Serving => 3 case Sending => 2 case Closing => 1 case Done => 0)
    + (match s.main case Selecting => 3 case Stopping(_) => 2 case Hung(_) => 2 case Waiting(_) => 1 case Returned(_, _) => 0)
  }

  /** Once a plugin's Close does not return Serve never does, whatever signals arrive. */
  lemma {:induction false} HungForGood(s: State, actions: seq<Action>)
    requires s.main.Hung?
    ensures RunFrom(s, actions).main == s.main
  {
    if actions != [] {
      HungForGood(s, actions[..|actions| - 1]);
    }
  }

  /**
   * With too few plugin errors to block, and while no plugin's Close hangs, shutdown
   * always has a next step of its own until Serve has returned, and every such step
   * brings it closer: Serve returns without a second signal, after exitCh was closed.
   */
  lemma ShutdownProgresses(plugins: nat, actions: seq<Action>, cause: Cause)
    requires ShuttingDown(Run(plugins, actions), cause) && Run(plugins, actions).failed < ErrorsToBlock(cause)
    requires !Run(plugins, actions).main.Hung?
    ensures var s := Run(plugins, actions);
            && (exists a :: IsShutdownStep(a) && Enabled(s, a))
            && (forall a :: IsShutdownStep(a) && Enabled(s, a) ==> Rank(Step(s, a)) < Rank(s))
            && (forall a :: Rank(Step(s, a)) <= Rank(s))
  {
    var s := Run(plugins, actions);
    RunAccounts(plugins, actions);
    if s.main.Stopping? {
      assert IsShutdownStep(MainStops) && Enabled(s, MainStops);
    } else {
      match s.listener
      case Serving => assert IsShutdownStep(ListenerReturns(true)) && Enabled(s, ListenerReturns(true));
      case Sending => assert IsShutdownStep(ListenerSends) && Enabled(s, ListenerSends);
      case Closing => assert IsShutdownStep(ListenerCloses) && Enabled(s, ListenerCloses);
      case Done => assert IsShutdownStep(MainSeesExit) && Enabled(s, MainSeesExit);
    }
  }

  /** Serve returns without a second signal only after exitCh was closed. */
  lemma {:induction false} ReturnMeansExit(plugins: nat, actions: seq<Action>)
    ensures var s := Run(plugins, actions);
            s.main.Returned? && !s.main.secondSignal ==> s.exitClosed && s.listener == Done
  {
    RunAccounts(plugins, actions);
    if actions != [] {
      ReturnMeansExit(plugins, actions[..|actions| - 1]);
      RunAccounts(plugins, actions[..|actions| - 1]);
    }
  }

  lemma RunOne(s: State, a: Action)
    ensures RunFrom(s, [a]) == Step(s, a)
  {
    assert [a][..0] == [];
  }

  lemma SignalWhileWaiting(s: State, cause: Cause) returns (more: seq<Action>)
    requires s.main == Waiting(cause)
    ensures RunFrom(s, more).main == Returned(cause, true) && |more| == 1
  {
    RunOne(s, MainSecondSignal);
    more := [MainSecondSignal];
  }

  /** A second signal makes Serve return from every shutdown that does not hang, blocked senders or not. */
  lemma SecondSignalReturns(s: State, cause: Cause) returns (more: seq<Action>)
    requires ShuttingDown(s, cause) && !s.main.Hung?
    ensures RunFrom(s, more).main == Returned(cause, true) && |more| <= 2
  {
    if s.main.Waiting? {
      more := SignalWhileWaiting(s, cause);
    } else {
      var s1 := Step(s, MainStops);
      RunOne(s, MainStops);
      var rest := SignalWhileWaiting(s1, cause);
      RunJoin(s, [MainStops], rest);
      more := [MainStops] + rest;
    }
  }

  /**
   * Where the goroutines go. An error of the listener is sent before exitCh is closed,
   * no error means closing it at once; sends wait for room in the channel.
   */
  lemma GoroutineSteps(s: State)
    ensures s.listener == Serving ==>
              Step(s, ListenerReturns(true)) == s.(listener := Sending) && Step(s, ListenerReturns(false)) == s.(listener := Closing)
    ensures s.listener == Sending ==>
              Step(s, ListenerSends) == if s.buffered < 2 then s.(listener := Closing, buffered := s.buffered + 1) else s
    ensures s.listener == Closing ==> Step(s, ListenerCloses) == s.(listener := Done, exitClosed := true)
    ensures s.main == Selecting && s.buffered > 0 ==> Step(s, MainReceives) == s.(main := Stopping(Error), buffered := s.buffered - 1)
    ensures s.main == Selecting ==> Step(s, MainSignalled) == s.(main := Stopping(Signal))
    ensures !s.main.Waiting? ==> Step(s, MainSecondSignal) == s && Step(s, MainSeesExit) == s
    ensures s.main.Stopping? ==> Step(s, CloseHangs) == s.(main := Hung(s.main.cause))
    ensures s.looking > 0 ==> Step(s, PluginSucceeds) == s.(looking := s.looking - 1)
    ensures s.failing > 0 ==>
              Step(s, PluginSends) == if s.buffered < 2 then s.(failing := s.failing - 1, buffered := s.buffered + 1) else s
  {
  }

  /** From a shutdown that cannot block and does not hang, a run of shutdown steps makes Serve return. */
  lemma {:induction false} ServeReturns(plugins: nat, actions: seq<Action>, cause: Cause) returns (more: seq<Action>)
    requires ShuttingDown(Run(plugins, actions), cause) && Run(plugins, actions).failed < ErrorsToBlock(cause)
    requires !Run(plugins, actions).main.Hung?
    ensures forall a :: a in more ==> IsShutdownStep(a)
    ensures Run(plugins, actions + more).main == Returned(cause, false)
    decreases Rank(Run(plugins, actions))
  {
    var s := Run(plugins, actions);
    ShutdownProgresses(plugins, actions, cause);
    var a :| IsShutdownStep(a) && Enabled(s, a);
    RunMore(Init(plugins), actions, a);
    if Step(s, a).main.Returned? {
      more := [a];
    } else {
      var rest := ServeReturns(plugins, actions + [a], cause);
      more := [a] + rest;
      assert actions + [a] + rest == actions + more;
    }
  }

  /**
   * A shutdown that cannot block can still end in Serve returning without a second
   * signal if and only if it does not stand in a plugin's Close that hangs.
   */
  lemma ReturnsUnlessHung(plugins: nat, actions: seq<Action>, cause: Cause)
    requires ShuttingDown(Run(plugins, actions), cause) && Run(plugins, actions).failed < ErrorsToBlock(cause)
    ensures (exists more :: RunFrom(Run(plugins, actions), more).main == Returned(cause, false))
            <==> !Run(plugins, actions).main.Hung?
  {
    var s := Run(plugins, actions);
    if s.main.Hung? {
      forall more ensures RunFrom(s, more).main == s.main {
        HungForGood(s, more);
      }
    } else {
      var more := ServeReturns(plugins, actions, cause);
      RunJoin(Init(plugins), actions, more);
    }
  }
}
