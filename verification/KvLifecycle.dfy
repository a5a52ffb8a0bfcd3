// The life of a store: its background initialization with retries, its
// closing, and callers that wait for it. The steps are what the code does
// between two points at which others can interfere: the retry goroutine and
// Close exclude each other by a lock, callers read the statements without it.
module KvLifecycle {
  import opened Text

  datatype StmtId = StmtGet | StmtGetCollection | StmtCreateOrUpdate | StmtDelete

  const ALL_STMTS: set<StmtId> := {StmtGet, StmtGetCollection, StmtCreateOrUpdate, StmtDelete}

  /** A prepared statement, known by the attempt that prepared it. */
  datatype Stmt = Stmt(id: StmtId, attempt: nat)

  /** Where the retry goroutine is. */
  datatype Retry =
    | Entering                // about to take the first lock of Initialize
    | Connecting              // between the first and the second lock
    | Migrating               // between the second and the third lock
    | Waiting                 // after a failed attempt
    | Ended

  /** Where a caller of Stmt is. `late` marks callers that began after Close had returned. */
  datatype Caller =
    | Blocked(id: StmtId, late: bool)
    | Released(id: StmtId, late: bool)
    | Failed(late: bool)
    | Got(stmt: Stmt, late: bool)

  /**
   * The fields of a KV, with `initialized` counting how often `initializing` was
   * closed, `closed` the statements closed so far, and `closing` while Close
   * holds the lock.
   */
  datatype Fields = Fields(
    quit: bool,
    initialized: nat,
    migrate: bool,
    db: Option<nat>,
    stmts: map<StmtId, Stmt>,
    closed: set<Stmt>,
    closing: bool)

  const NEW := Fields(false, 0, false, None, map[], {}, false)

  function Prepared(attempt: nat): map<StmtId, Stmt> {
    map id | id in ALL_STMTS :: Stmt(id, attempt)
  }

  /** The second locked step of Initialize. */
  function Published(f: Fields): Fields {
    if f.quit then f else f.(migrate := true)
  }

  /** The third locked step of Initialize: sets everything and closes `initializing`, unless it quits or fails. */
  function Finished(f: Fields, attempt: nat, prepared: bool): Fields {
    if f.quit || !prepared then f.(migrate := false)
    else f.(migrate := false, db := Some(attempt), stmts := Prepared(attempt), initialized := f.initialized + 1)
  }

  // ---- Interleavings ----

  datatype State = State(
    pluginQuit: bool,
    cancelled: bool,
    kv: Fields,
    attempts: nat,
    retry: Retry,
    callers: map<nat, Caller>)

  const INIT := State(false, false, NEW, 0, Entering, map[])

  datatype Action =
    | EnterInitialize
    | ConnectFails
    | PublishMigrate
    | MigrateFails
    | Finish(prepared: bool)
    | RetryNow
    | RetryStops
    | ClosePlugin
    | BeginClose
    | CloseOne(id: StmtId)
    | EndClose
    | CancelContext
    | CallStmt(caller: nat, id: StmtId)
    | SeeInitialized(caller: nat)
    | GiveUp(caller: nat)
    | ReadStmt(caller: nat)

  /** Close holds the lock from its beginning to its end, which keeps the locked steps of Initialize out. */
  predicate Enabled(s: State, a: Action) {
    match a
    case EnterInitialize => s.retry == Entering && !s.kv.closing
    case ConnectFails => s.retry == Connecting
    case PublishMigrate => s.retry == Connecting && !s.kv.closing
    case MigrateFails => s.retry == Migrating
    case Finish(_) => s.retry == Migrating && !s.kv.closing
    case RetryNow => s.retry == Waiting
    case RetryStops => s.retry == Waiting && (s.pluginQuit || s.cancelled)
    case ClosePlugin => !s.pluginQuit
    case BeginClose => s.pluginQuit && !s.kv.quit
    case CloseOne(id) => s.kv.closing && id in s.kv.stmts && s.kv.stmts[id] !in s.kv.closed
    case EndClose => s.kv.closing && s.kv.stmts.Values <= s.kv.closed
    case CancelContext => true
    case CallStmt(c, _) => c !in s.callers
    case SeeInitialized(c) => c in s.callers && s.callers[c].Blocked? && s.kv.initialized > 0
    case GiveUp(c) => c in s.callers && s.callers[c].Blocked?
    case ReadStmt(c) => c in s.callers && s.callers[c].Released?
  }

  function Step(s: State, a: Action): State {
    if !Enabled(s, a) then s else
      match a
      case EnterInitialize => if s.kv.quit then s.(retry := Ended) else s.(attempts := s.attempts + 1, retry := Connecting)
      case ConnectFails => s.(retry := Waiting)
      case PublishMigrate => s.(kv := Published(s.kv), retry := if s.kv.quit then Ended else Migrating)
      case MigrateFails => s.(retry := Waiting)
      case Finish(prepared) =>
        s.(kv := Finished(s.kv, s.attempts, prepared), retry := if s.kv.quit || prepared then Ended else Waiting)
      case RetryNow => s.(retry := Entering)
      case RetryStops => s.(retry := Ended)
      case ClosePlugin => s.(pluginQuit := true)
      case BeginClose => s.(kv := s.kv.(quit := true, closing := true))
      case CloseOne(id) => s.(kv := s.kv.(closed := s.kv.closed + {s.kv.stmts[id]}))
      case EndClose => s.(kv := s.kv.(db := None, stmts := map[], closing := false))
      case CancelContext => s.(cancelled := true)
      case CallStmt(c, id) => s.(callers := s.callers[c := Blocked(id, s.kv.quit && !s.kv.closing)])
      case SeeInitialized(c) => s.(callers := s.callers[c := Released(s.callers[c].id, s.callers[c].late)])
      case GiveUp(c) => s.(callers := s.callers[c := Failed(s.callers[c].late)])
      case ReadStmt(c) =>
        var caller := s.callers[c];
        s.(callers := s.callers[c := if caller.id in s.kv.stmts then Got(s.kv.stmts[caller.id], caller.late)
                                     else Failed(caller.late)])
  }

  function Run(s: State, actions: seq<Action>): State
    decreases |actions|
  {
    if actions == [] then s else Step(Run(s, actions[..|actions| - 1]), actions[|actions| - 1])
  }

  /** The action was taken, and not just attempted, somewhere in the run. */
  predicate Happened(actions: seq<Action>, a: Action)
    decreases |actions|
  {
    actions != []
    && var init, last := actions[..|actions| - 1], actions[|actions| - 1];
    Happened(init, a) || (last == a && Enabled(Run(INIT, init), a))
  }

  lemma RunMore(actions: seq<Action>, a: Action)
    ensures Run(INIT, actions + [a]) == Step(Run(INIT, actions), a)
    ensures forall b :: Happened(actions + [a], b) <==> Happened(actions, b) || (a == b && Enabled(Run(INIT, actions), b))
  {
    assert (actions + [a])[..|actions|] == actions;
  }

  // ---- Safety ----

  ghost predicate Inv(s: State) {
    && s.kv.initialized <= 1
    && (s.kv.initialized == 1 ==> s.retry == Ended)
    && (s.kv.initialized == 0 ==> s.kv.db == None && s.kv.stmts == map[])
    && (s.kv.initialized == 1 && (!s.kv.quit || s.kv.closing) ==> s.kv.db.Some? && s.kv.stmts == Prepared(s.kv.db.value))
    && (s.kv.quit && !s.kv.closing ==> s.kv.db == None && s.kv.stmts == map[])
    && (!s.kv.quit ==> s.kv.closed == {} && !s.kv.closing)
    && (s.kv.quit ==> s.pluginQuit)
    && (forall c :: c in s.callers && s.callers[c].late ==> s.kv.quit && !s.kv.closing && !s.callers[c].Got?)
    && (forall c :: c in s.callers && (s.callers[c].Released? || s.callers[c].Got?) ==> s.kv.initialized == 1)
  }

  lemma StepKeeps(s: State, a: Action)
    requires Inv(s)
    ensures Inv(Step(s, a))
  {
  }

  lemma {:induction false} RunKeeps(actions: seq<Action>)
    ensures Inv(Run(INIT, actions))
  {
    if actions != [] {
      RunKeeps(actions[..|actions| - 1]);
      StepKeeps(Run(INIT, actions[..|actions| - 1]), actions[|actions| - 1]);
    }
  }

  /** `initializing` is closed at most once; until Close begins, that is the same as having a database and all four statements. */
  lemma InitializedOnce(actions: seq<Action>)
    ensures var s := Run(INIT, actions);
            && s.kv.initialized <= 1
            && (!s.kv.quit ==> (s.kv.initialized == 1 <==> s.kv.db.Some?) && (s.kv.initialized == 1 <==> s.kv.stmts.Keys == ALL_STMTS))
  {
    RunKeeps(actions);
  }

  /** Nothing but the finishing step of an attempt closes `initializing`, and it sets database and statements with it. */
  lemma OnlyFinishInitializes(actions: seq<Action>, a: Action)
    ensures var s, s' := Run(INIT, actions), Step(Run(INIT, actions), a);
            s'.kv.initialized != s.kv.initialized ==>
              && a == Finish(true) && s.retry == Migrating && !s.kv.quit
              && s'.kv.db.Some? && s'.kv.stmts.Keys == ALL_STMTS && s'.retry == Ended
  {
    RunKeeps(actions);
  }

  /** Close has returned. */
  predicate IsClosed(s: State) {
    s.kv.quit && !s.kv.closing
  }

  lemma ClosedStep(s: State, a: Action)
    requires Inv(s) && s.kv.quit
    ensures Step(s, a).kv.quit && Step(s, a).kv.initialized == s.kv.initialized
    ensures IsClosed(s) ==> IsClosed(Step(s, a)) && Step(s, a).kv.closed == s.kv.closed
  {
  }

  /**
   * Once Close has begun the store can no longer become initialized; once it
   * has returned there is no database and no statement ever again.
   */
  lemma {:induction false} ClosedForGood(before: seq<Action>, after: seq<Action>)
    requires Run(INIT, before).kv.quit
    ensures var s, s' := Run(INIT, before), Run(Run(INIT, before), after);
            && Inv(s') && s'.kv.quit && s'.kv.initialized == s.kv.initialized
            && (IsClosed(s) ==> IsClosed(s') && s'.kv.db == None && s'.kv.stmts == map[] && s'.kv.closed == s.kv.closed)
  {
    RunKeeps(before);
    if after != [] {
      var mid := Run(Run(INIT, before), after[..|after| - 1]);
      ClosedForGood(before, after[..|after| - 1]);
      StepKeeps(mid, after[|after| - 1]);
      ClosedStep(mid, after[|after| - 1]);
    }
  }

  lemma EveryStmtListed(id: StmtId)
    ensures id in ALL_STMTS
  {
    match id {
      case StmtGet =>
      case StmtGetCollection =>
      case StmtCreateOrUpdate =>
      case StmtDelete =>
    }
  }

  lemma QuitStep(s: State, a: Action)
    requires Inv(s)
    ensures Step(s, a).kv.quit <==> s.kv.quit || (a == BeginClose && Enabled(s, a))
    ensures IsClosed(Step(s, a)) <==> IsClosed(s) || (a == EndClose && Enabled(s, a))
  {
  }

  /** How far Close has come. */
  lemma {:induction false} CloseStages(actions: seq<Action>)
    ensures Happened(actions, BeginClose) <==> Run(INIT, actions).kv.quit
    ensures Happened(actions, EndClose) <==> IsClosed(Run(INIT, actions))
  {
    if actions != [] {
      var init, a := actions[..|actions| - 1], actions[|actions| - 1];
      CloseStages(init);
      RunKeeps(init);
      QuitStep(Run(INIT, init), a);
    }
  }

  lemma LateStep(s: State, a: Action, c: nat)
    requires Inv(s) && IsClosed(s) && (c in s.callers ==> s.callers[c].late && !s.callers[c].Got?)
    ensures IsClosed(Step(s, a)) && (c in Step(s, a).callers ==> Step(s, a).callers[c].late && !Step(s, a).callers[c].Got?)
  {
  }

  /** A caller that begins after Close has returned never gets a statement. */
  lemma {:induction false} LateCallersFail(before: seq<Action>, after: seq<Action>, c: nat)
    requires Happened(before, EndClose) && c !in Run(INIT, before).callers
    ensures var s := Run(INIT, before + after);
            IsClosed(s) && (c in s.callers ==> s.callers[c].late && !s.callers[c].Got?)
  {
    CloseStages(before);
    if after == [] {
      assert before + after == before;
    } else {
      var init, a := before + after[..|after| - 1], after[|after| - 1];
      LateCallersFail(before, after[..|after| - 1], c);
      assert before + after == init + [a];
      RunKeeps(init);
      RunMore(init, a);
      LateStep(Run(INIT, init), a, c);
    }
  }

  /** The statement with this id has been closed and is still there to be found. */
  predicate IsStale(f: Fields, id: StmtId) {
    id in f.stmts && f.stmts[id] in f.closed
  }

  lemma StaleStep(s: State, a: Action, id: StmtId)
    requires Inv(s) && !IsClosed(Step(s, a))
    ensures IsStale(Step(s, a).kv, id) <==> IsStale(s.kv, id) || (a == CloseOne(id) && Enabled(s, a))
  {
  }

  /** Until Close returns, the fields tell which statements it has closed. */
  lemma {:induction false} StaleMeansClosed(actions: seq<Action>, id: StmtId)
    requires !IsClosed(Run(INIT, actions))
    ensures Happened(actions, CloseOne(id)) <==> IsStale(Run(INIT, actions).kv, id)
  {
    if actions != [] {
      var init, a := actions[..|actions| - 1], actions[|actions| - 1];
      RunKeeps(init);
      StaleMeansClosed(init, id);
      StaleStep(Run(INIT, init), a, id);
    }
  }

  ghost predicate NoneLeftOpen(s: State, actions: seq<Action>) {
    s.kv.initialized == 1 && IsClosed(s) ==> forall id :: id in ALL_STMTS ==> Happened(actions, CloseOne(id))
  }

  /** When Close has ended on an initialized store, it has closed each of the four statements. */
  lemma {:induction false} CloseLeavesNoneOpen(actions: seq<Action>)
    ensures NoneLeftOpen(Run(INIT, actions), actions)
  {
    if actions != [] {
      var init, a := actions[..|actions| - 1], actions[|actions| - 1];
      var s := Run(INIT, init);
      CloseLeavesNoneOpen(init);
      RunKeeps(init);
      QuitStep(s, a);
      if a == EndClose && Enabled(s, a) && s.kv.initialized == 1 {
        forall id | id in ALL_STMTS ensures Happened(init, CloseOne(id)) {
          StaleMeansClosed(init, id);
        }
      } else if s.kv.initialized != 1 {
        OnlyFinishInitializes(init, a);
      }
    }
  }

  lemma ReadGives(s: State, c: nat, id: StmtId)
    requires Inv(s) && c in s.callers && s.callers[c].Released? && s.callers[c].id == id && id in ALL_STMTS
    ensures var caller := Step(s, ReadStmt(c)).callers[c];
            if IsClosed(s) then caller.Failed? else caller.Got? && caller.stmt.id == id && (caller.stmt in s.kv.closed <==> IsStale(s.kv, id))
  {
  }

  /**
   * What a released caller is handed, exactly: nothing if and only if Close has
   * returned, and otherwise the statement it asked for, which is closed already if
   * and only if the read falls between the closing of that statement and the end
   * of Close.
   */
  lemma ReadDuringClose(actions: seq<Action>, c: nat)
    requires c in Run(INIT, actions).callers && Run(INIT, actions).callers[c].Released?
    ensures var s := Run(INIT, actions);
            var id, caller := s.callers[c].id, Step(s, ReadStmt(c)).callers[c];
            && (caller.Failed? <==> Happened(actions, EndClose))
            && (caller.Got? <==> !Happened(actions, EndClose))
            && (caller.Got? ==> caller.stmt.id == id)
            && (caller.Got? && caller.stmt in s.kv.closed <==> Happened(actions, CloseOne(id)) && !Happened(actions, EndClose))
  {
    var s := Run(INIT, actions);
    var id := s.callers[c].id;
    RunKeeps(actions);
    EveryStmtListed(id);
    ReadGives(s, c, id);
    CloseStages(actions);
    if !IsClosed(s) {
      StaleMeansClosed(actions, id);
    }
  }

  lemma After(actions: seq<Action>, s: State, a: Action) returns (s': State, more: seq<Action>)
    requires s == Run(INIT, actions)
    ensures more == actions + [a] && s' == Step(s, a) == Run(INIT, more)
  {
    RunMore(actions, a);
    s', more := Step(s, a), actions + [a];
  }

  /** A caller called and was released on an open store. */
  ghost predicate ReleasedEarly(s: State, c: nat, id: StmtId) {
    && !s.kv.quit && s.pluginQuit && s.kv.stmts == Prepared(1) && s.kv.closed == {}
    && c in s.callers && s.callers[c] == Released(id, false)
  }

  lemma ReleasedRun(c: nat, id: StmtId) returns (actions: seq<Action>)
    ensures ReleasedEarly(Run(INIT, actions), c, id)
  {
    var s := INIT;
    actions := [];
    s, actions := After(actions, s, EnterInitialize);
    s, actions := After(actions, s, PublishMigrate);
    assert s.kv == NEW.(migrate := true) && s.retry == Migrating && s.attempts == 1 && s.callers == map[];
    s, actions := After(actions, s, Finish(true));
    s, actions := After(actions, s, CallStmt(c, id));
    assert s.kv.initialized == 1 && s.callers[c] == Blocked(id, false);
    s, actions := After(actions, s, SeeInitialized(c));
    s, actions := After(actions, s, ClosePlugin);
  }

  /** A run in which a caller that called before Close is handed a closed statement. */
  lemma ClosedStatementHandedOut(c: nat, id: StmtId) returns (actions: seq<Action>)
    ensures var s := Run(INIT, actions);
            c in s.callers && s.callers[c].Got? && !s.callers[c].late && s.callers[c].stmt in s.kv.closed
  {
    actions := ReleasedRun(c, id);
    var s := Run(INIT, actions);
    EveryStmtListed(id);
    s, actions := After(actions, s, BeginClose);
    assert Enabled(s, CloseOne(id));
    s, actions := After(actions, s, CloseOne(id));
    assert IsStale(s.kv, id);
    s, actions := After(actions, s, ReadStmt(c));
  }

  // ---- The retry loop ----

  lemma FlagStep(s: State, a: Action)
    ensures Step(s, a).pluginQuit <==> s.pluginQuit || (a == ClosePlugin && Enabled(s, a))
    ensures Step(s, a).cancelled <==> s.cancelled || (a == CancelContext && Enabled(s, a))
  {
  }

  lemma {:induction false} Flags(actions: seq<Action>)
    ensures Happened(actions, ClosePlugin) <==> Run(INIT, actions).pluginQuit
    ensures Happened(actions, CancelContext) <==> Run(INIT, actions).cancelled
  {
    if actions != [] {
      Flags(actions[..|actions| - 1]);
      FlagStep(Run(INIT, actions[..|actions| - 1]), actions[|actions| - 1]);
    }
  }

  /** Some reason for the goroutine to end: success, or one of the channels it listens to is closed. */
  predicate MayEnd(s: State) {
    s.kv.initialized == 1 || s.kv.quit || s.pluginQuit || s.cancelled
  }

  lemma EndStep(s: State, a: Action)
    requires Inv(s) && (s.retry == Ended ==> MayEnd(s))
    ensures Step(s, a).retry == Ended ==> MayEnd(Step(s, a))
  {
  }

  lemma {:induction false} EndsWithReason(actions: seq<Action>)
    ensures Run(INIT, actions).retry == Ended ==> MayEnd(Run(INIT, actions))
  {
    if actions != [] {
      EndsWithReason(actions[..|actions| - 1]);
      RunKeeps(actions[..|actions| - 1]);
      EndStep(Run(INIT, actions[..|actions| - 1]), actions[|actions| - 1]);
    }
  }

  /** No failure ends the retry goroutine: it ends on success, on Close and on cancellation only. */
  lemma FailuresAreRetried(actions: seq<Action>)
    ensures Run(INIT, actions).retry == Ended ==>
              || Run(INIT, actions).kv.initialized == 1
              || Happened(actions, BeginClose) || Happened(actions, ClosePlugin) || Happened(actions, CancelContext)
  {
    EndsWithReason(actions);
    CloseStages(actions);
    Flags(actions);
  }

  /** How often an action was taken. */
  function Count(actions: seq<Action>, a: Action): nat
    decreases |actions|
  {
    if actions == [] then 0
    else
      var init, last := actions[..|actions| - 1], actions[|actions| - 1];
      Count(init, a) + if last == a && Enabled(Run(INIT, init), a) then 1 else 0
  }

  /** Every retry, after its wait, makes one more attempt and nothing else does. */
  lemma {:induction false} OneAttemptPerRetry(actions: seq<Action>)
    ensures var s := Run(INIT, actions);
            var begun := s.attempts + if s.retry == Entering then 1 else 0;
            begun <= 1 + Count(actions, RetryNow) && (s.retry != Ended ==> begun == 1 + Count(actions, RetryNow))
  {
    if actions != [] {
      OneAttemptPerRetry(actions[..|actions| - 1]);
    }
  }

  ghost predicate Undisturbed(s: State) {
    s.kv.initialized == 0 && !s.kv.quit && !s.kv.closing && !s.pluginQuit && !s.cancelled
  }

  /** The next step towards the end of an attempt, from wherever the goroutine is. */
  function Forwards(r: Retry): Action {
    match r
    case Waiting => RetryNow
    case Entering => EnterInitialize
    case Connecting => PublishMigrate
    case _ => Finish(true)
  }

  function StepsLeft(r: Retry): nat {
    match r
    case Waiting => 3
    case Entering => 2
    case Connecting => 1
    case _ => 0
  }

  lemma ForwardsLeads(s: State)
    requires Undisturbed(s) && s.retry != Ended
    ensures var s' := Step(s, Forwards(s.retry));
            if s.retry == Migrating then s'.kv.initialized == 1
            else Undisturbed(s') && s'.retry != Ended && StepsLeft(s'.retry) < StepsLeft(s.retry)
  {
  }

  /** As long as nobody closes or cancels, a store that is not initialized can still become so, whatever has failed. */
  lemma {:induction false} CanInitialize(actions: seq<Action>) returns (more: seq<Action>)
    requires var s := Run(INIT, actions); s.kv.initialized == 0 && !s.kv.quit && !s.pluginQuit && !s.cancelled
    ensures Run(INIT, actions + more).kv.initialized == 1
    decreases StepsLeft(Run(INIT, actions).retry)
  {
    var s := Run(INIT, actions);
    RunKeeps(actions);
    EndsWithReason(actions);
    ForwardsLeads(s);
    var a := Forwards(s.retry);
    RunMore(actions, a);
    if s.retry == Migrating {
      more := [a];
    } else {
      var rest := CanInitialize(actions + [a]);
      more := [a] + rest;
      assert actions + [a] + rest == actions + more;
    }
  }

  /** Failed steps lead to the wait, and the wait to the end when the plugin is closed or its context cancelled. */
  lemma AfterFailure(s: State)
    ensures s.retry == Connecting ==> Step(s, ConnectFails) == s.(retry := Waiting)
    ensures s.retry == Migrating ==> Step(s, MigrateFails) == s.(retry := Waiting)
    ensures s.retry == Migrating && !s.kv.closing && !s.kv.quit ==>
              Step(s, Finish(false)) == s.(retry := Waiting, kv := s.kv.(migrate := false))
    ensures s.retry == Migrating && !s.kv.closing && s.kv.quit ==>
              forall b :: Step(s, Finish(b)) == s.(retry := Ended, kv := s.kv.(migrate := false))
    ensures s.retry == Waiting ==> Step(s, RetryNow) == s.(retry := Entering)
    ensures s.retry == Waiting && (s.pluginQuit || s.cancelled) ==> Step(s, RetryStops).retry == Ended
  {
  }

  /** What comes from outside can come at any time. */
  lemma FromOutside(s: State, c: nat, id: StmtId)
    ensures c !in s.callers ==> Step(s, CallStmt(c, id)) == s.(callers := s.callers[c := Blocked(id, IsClosed(s))])
    ensures Step(s, CancelContext) == s.(cancelled := true)
    ensures Step(s, ClosePlugin) == s.(pluginQuit := true)
    ensures s.pluginQuit && !s.kv.quit ==> Step(s, BeginClose) == s.(kv := s.kv.(quit := true, closing := true))
  {
  }

  /** While Close holds the lock no attempt begins, publishes its migration or finishes. */
  lemma LockExcludes(s: State, a: Action)
    requires s.kv.closing && (a.EnterInitialize? || a.PublishMigrate? || a.Finish?)
    ensures Step(s, a) == s
  {
  }

  ghost predicate MigrationInv(s: State) {
    && (s.retry == Migrating ==> s.kv.migrate)
    && (s.kv.initialized == 1 || s.attempts == 0 ==> !s.kv.migrate)
    && (s.attempts == 0 ==> s.retry == Entering || s.retry == Ended)
  }

  lemma MigrationStep(s: State, a: Action)
    requires Inv(s) && MigrationInv(s)
    ensures MigrationInv(Step(s, a))
  {
  }

  lemma {:induction false} RunMigration(actions: seq<Action>)
    ensures MigrationInv(Run(INIT, actions))
  {
    if actions != [] {
      RunMigration(actions[..|actions| - 1]);
      RunKeeps(actions[..|actions| - 1]);
      MigrationStep(Run(INIT, actions[..|actions| - 1]), actions[|actions| - 1]);
    }
  }

  /** The migration is known to Close exactly from the second lock of an attempt on; a finished attempt clears it. */
  lemma MigrationKnown(actions: seq<Action>)
    ensures Run(INIT, actions).retry == Migrating ==> Run(INIT, actions).kv.migrate
    ensures Run(INIT, actions).kv.initialized == 1 || Run(INIT, actions).attempts == 0 ==> !Run(INIT, actions).kv.migrate
  {
    RunMigration(actions);
  }

  /** Who waits is released once the store is initialized, for the statement it asked for, and can give up at any time. */
  lemma WaitingCallers(actions: seq<Action>, c: nat)
    requires c in Run(INIT, actions).callers && Run(INIT, actions).callers[c].Blocked?
    ensures var s := Run(INIT, actions);
            && (s.kv.initialized == 1 ==> Step(s, SeeInitialized(c)).callers[c] == Released(s.callers[c].id, s.callers[c].late))
            && (s.kv.initialized == 0 ==> Step(s, SeeInitialized(c)) == s)
            && Step(s, GiveUp(c)).callers[c] == Failed(s.callers[c].late)
  {
    RunKeeps(actions);
  }

  // ---- Draining ----

  predicate IsRetryStep(a: Action) {
    a.EnterInitialize? || a.ConnectFails? || a.PublishMigrate? || a.MigrateFails? || a.Finish? || a.RetryNow? || a.RetryStops?
  }

  predicate IsCloseStep(a: Action) {
    a.CloseOne? || a.EndClose?
  }

  /** How many steps the retry goroutine can still take once both quit channels are closed. */
  function Rank(r: Retry): nat {
    match r
    case Connecting => 3
    case Migrating => 3
    case Waiting => 2
    case Entering => 1
    case Ended => 0
  }

  /** How many steps Close still has to take once it has begun. */
  function CloseRank(f: Fields): nat {
    if f.closing then |f.stmts.Values - f.closed| + 1 else 0
  }

  /** The effective retry steps and the calls of Initialize among them. */
  function Taken(s: State, actions: seq<Action>): nat
    decreases |actions|
  {
    if actions == [] then 0
    else
      var init, a := actions[..|actions| - 1], actions[|actions| - 1];
      Taken(s, init) + if IsRetryStep(a) && Enabled(Run(s, init), a) then 1 else 0
  }

  function Calls(s: State, actions: seq<Action>): nat
    decreases |actions|
  {
    if actions == [] then 0
    else
      var init, a := actions[..|actions| - 1], actions[|actions| - 1];
      Calls(s, init) + if a.EnterInitialize? && Enabled(Run(s, init), a) then 1 else 0
  }

  /** While Close holds the lock it has a next step, and each one brings it closer to its end. */
  lemma CloseProgresses(s: State)
    requires s.kv.closing
    ensures exists a :: IsCloseStep(a) && Enabled(s, a)
    ensures forall a :: IsCloseStep(a) && Enabled(s, a) ==> CloseRank(Step(s, a).kv) < CloseRank(s.kv)
  {
    if s.kv.stmts.Values <= s.kv.closed {
      assert IsCloseStep(EndClose) && Enabled(s, EndClose);
    } else {
      var stmt :| stmt in s.kv.stmts.Values && stmt !in s.kv.closed;
      var id :| id in s.kv.stmts && s.kv.stmts[id] == stmt;
      assert IsCloseStep(CloseOne(id)) && Enabled(s, CloseOne(id));
    }
    forall a | IsCloseStep(a) && Enabled(s, a) ensures CloseRank(Step(s, a).kv) < CloseRank(s.kv) {
      if a.CloseOne? {
        var stmt, open := s.kv.stmts[a.id], s.kv.stmts.Values - s.kv.closed;
        assert stmt in open && s.kv.stmts.Values - (s.kv.closed + {stmt}) == open - {stmt};
      }
    }
  }

  lemma RetryStepRank(s: State, a: Action)
    requires s.kv.quit && s.pluginQuit && IsRetryStep(a) && Enabled(s, a)
    ensures Rank(Step(s, a).retry) < Rank(s.retry) && CloseRank(Step(s, a).kv) == CloseRank(s.kv)
    ensures a.EnterInitialize? ==> Step(s, a).retry == Ended
  {
  }

  lemma OtherStepRank(s: State, a: Action)
    requires s.kv.quit && !IsRetryStep(a)
    ensures Step(s, a).retry == s.retry && CloseRank(Step(s, a).kv) <= CloseRank(s.kv)
  {
    if IsCloseStep(a) && Enabled(s, a) {
      CloseProgresses(s);
    }
  }

  lemma RetryProgresses(s: State)
    requires s.pluginQuit && !s.kv.closing && s.retry != Ended
    ensures exists a :: IsRetryStep(a) && Enabled(s, a)
  {
    match s.retry
    case Entering => assert Enabled(s, EnterInitialize) && IsRetryStep(EnterInitialize);
    case Connecting => assert Enabled(s, ConnectFails) && IsRetryStep(ConnectFails);
    case Migrating => assert Enabled(s, MigrateFails) && IsRetryStep(MigrateFails);
    case Waiting => assert Enabled(s, RetryStops) && IsRetryStep(RetryStops);
  }

  lemma RankStep(s: State, a: Action)
    requires s.kv.quit && s.pluginQuit
    ensures IsCloseStep(a) && Enabled(s, a) ==> CloseRank(Step(s, a).kv) < CloseRank(s.kv)
    ensures IsRetryStep(a) && Enabled(s, a) ==> Rank(Step(s, a).retry) < Rank(s.retry)
    ensures Rank(Step(s, a).retry) <= Rank(s.retry) && CloseRank(Step(s, a).kv) <= CloseRank(s.kv)
  {
    if !Enabled(s, a) {
    } else if IsRetryStep(a) {
      RetryStepRank(s, a);
    } else {
      OtherStepRank(s, a);
      if IsCloseStep(a) {
        CloseProgresses(s);
      }
    }
  }

  /**
   * With both quit channels closed neither the goroutine nor a Close it waits for
   * gets stuck, and every step of theirs brings them closer to their end, which
   * nothing else takes them away from.
   */
  lemma DrainStep(s: State)
    requires s.kv.quit && s.pluginQuit
    ensures s.kv.closing ==> exists a :: IsCloseStep(a) && Enabled(s, a)
    ensures !s.kv.closing && s.retry != Ended ==> exists a :: IsRetryStep(a) && Enabled(s, a)
    ensures forall a :: IsCloseStep(a) && Enabled(s, a) ==> CloseRank(Step(s, a).kv) < CloseRank(s.kv)
    ensures forall a :: IsRetryStep(a) && Enabled(s, a) ==> Rank(Step(s, a).retry) < Rank(s.retry)
    ensures forall a :: Rank(Step(s, a).retry) <= Rank(s.retry) && CloseRank(Step(s, a).kv) <= CloseRank(s.kv)
  {
    if s.kv.closing {
      CloseProgresses(s);
    } else if s.retry != Ended {
      RetryProgresses(s);
    }
    forall a
      ensures IsCloseStep(a) && Enabled(s, a) ==> CloseRank(Step(s, a).kv) < CloseRank(s.kv)
      ensures IsRetryStep(a) && Enabled(s, a) ==> Rank(Step(s, a).retry) < Rank(s.retry)
      ensures Rank(Step(s, a).retry) <= Rank(s.retry) && CloseRank(Step(s, a).kv) <= CloseRank(s.kv)
    {
      RankStep(s, a);
    }
  }

  lemma StaysQuit(s: State, a: Action)
    requires s.kv.quit && s.pluginQuit
    ensures Step(s, a).kv.quit && Step(s, a).pluginQuit
  {
  }

  /**
   * Whatever else happens, after both quit channels are closed the retry
   * goroutine takes at most three more steps, and at most one of them begins
   * another attempt; that one ends it at once.
   */
  lemma {:induction false} RetryDrains(s: State, actions: seq<Action>)
    requires s.kv.quit && s.pluginQuit
    ensures var s' := Run(s, actions);
            && s'.kv.quit && s'.pluginQuit
            && Taken(s, actions) + Rank(s'.retry) <= Rank(s.retry) <= 3
            && Calls(s, actions) + (if s'.retry == Ended then 0 else 1) <= 1
  {
    if actions != [] {
      var init, a := actions[..|actions| - 1], actions[|actions| - 1];
      RetryDrains(s, init);
      StaysQuit(Run(s, init), a);
      if !Enabled(Run(s, init), a) {
      } else if IsRetryStep(a) {
        RetryStepRank(Run(s, init), a);
      } else {
        OtherStepRank(Run(s, init), a);
      }
    }
  }

  // ---- The store as an object ----

  /** Actions that do not run code of the store. */
  predicate Elsewhere(a: Action) {
    || a.ConnectFails? || a.MigrateFails? || a.RetryNow? || a.RetryStops? || a.ClosePlugin? || a.CancelContext?
    || a.CallStmt? || a.SeeInitialized? || a.GiveUp?
  }

  /** Its methods are the uninterrupted stretches of code; `trace` is the run they are part of. */
  class KV {
    var quit: bool
    var initialized: nat
    var migrate: bool
    var db: Option<nat>
    var stmts: map<StmtId, Stmt>
    var closed: set<Stmt>
    var closing: bool
    ghost var trace: seq<Action>

    ghost function View(): Fields
      reads this
    {
      Fields(quit, initialized, migrate, db, stmts, closed, closing)
    }

    ghost function World(): State
      reads this
    {
      Run(INIT, trace)
    }

    ghost predicate Valid()
      reads this
    {
      World().kv == View()
    }

    constructor ()
      ensures Valid() && trace == []
    {
      quit, initialized, migrate, db, stmts, closed, closing := false, 0, false, None, map[], {}, false;
      trace := [];
    }

    ghost method Record(a: Action)
      modifies `trace
      ensures trace == old(trace) + [a] && World() == Step(old(World()), a)
    {
      RunMore(trace, a);
      trace := trace + [a];
    }

    /** Something happens that is not code of the store. */
    ghost method Meanwhile(a: Action)
      requires Valid() && Elsewhere(a)
      modifies `trace
      ensures Valid() && trace == old(trace) + [a]
    {
      Record(a);
    }

    method EnterInitialize() returns (go: bool)
      requires Valid() && Enabled(World(), Action.EnterInitialize)
      modifies `trace
      ensures Valid() && trace == old(trace) + [Action.EnterInitialize]
      ensures go <==> World().retry == Connecting
    {
      go := !quit;
      Record(Action.EnterInitialize);
    }

    method PublishMigrate() returns (go: bool)
      requires Valid() && Enabled(World(), Action.PublishMigrate)
      modifies this
      ensures Valid() && trace == old(trace) + [Action.PublishMigrate]
      ensures go <==> World().retry == Migrating
    {
      go := !quit;
      if go {
        migrate := true;
      }
      Record(Action.PublishMigrate);
    }

    /** Prepares the statements in any order and stops at the first one that fails. */
    static method PrepareStmts(attempt: nat, failing: set<StmtId>) returns (r: Option<map<StmtId, Stmt>>)
      ensures r == if ALL_STMTS !! failing then Some(Prepared(attempt)) else None
    {
      var prepared: map<StmtId, Stmt> := map[];
      var left := ALL_STMTS;
      while left != {}
        invariant left <= ALL_STMTS && forall id :: id in ALL_STMTS && id !in left ==> id !in failing
        invariant prepared.Keys == ALL_STMTS - left && forall id :: id in prepared ==> prepared[id] == Stmt(id, attempt)
        decreases |left|
      {
        var id :| id in left;
        if id in failing {
          assert id in ALL_STMTS * failing;
          return None;
        }
        prepared := prepared[id := Stmt(id, attempt)];
        left := left - {id};
      }
      assert ALL_STMTS * failing == {} && prepared == Prepared(attempt);
      r := Some(prepared);
    }

    /** The attempt is over when this succeeds; on an open store `initializing` is then closed for the first time. */
    method FinishInitialize(attempt: nat, failing: set<StmtId>) returns (ok: bool)
      requires Valid() && Enabled(World(), Finish(true)) && attempt == World().attempts
      modifies this
      ensures Valid() && trace == old(trace) + [Finish(ALL_STMTS !! failing)]
      ensures ok <==> World().retry == Ended
      ensures ok && !quit ==> initialized == 1 && db == Some(attempt) && stmts.Keys == ALL_STMTS
      ensures !ok || quit ==> initialized == 0 && db == None && stmts == map[]
    {
      RunKeeps(trace);
      Record(Finish(ALL_STMTS !! failing));
      migrate := false;
      if quit {
        return true;
      }
      var prepared := PrepareStmts(attempt, failing);
      if prepared.None? {
        return false;
      }
      db := Some(attempt);
      stmts := prepared.value;
      initialized := initialized + 1;
      ok := true;
    }

    /** Close up to and including the closing of quit. */
    method StartClosing()
      requires Valid() && Enabled(World(), BeginClose)
      modifies this
      ensures Valid() && trace == old(trace) + [BeginClose] && closing && stmts == old(stmts) && closed == old(closed)
    {
      closing := true;
      quit := true;
      Record(BeginClose);
    }

    method CloseStmt(id: StmtId)
      requires Valid() && Enabled(World(), CloseOne(id))
      modifies this
      ensures Valid() && trace == old(trace) + [CloseOne(id)] && closing
      ensures stmts == old(stmts) && closed == old(closed) + {stmts[id]}
    {
      Record(CloseOne(id));
      closed := closed + {stmts[id]};
    }

    /** The rest of Close: the database goes, and with it the statements. */
    method FinishClosing()
      requires Valid() && Enabled(World(), EndClose)
      modifies this
      ensures Valid() && trace == old(trace) + [EndClose] && IsClosed(World())
      ensures closed == old(closed) && db == None && stmts == map[]
    {
      RunKeeps(trace);
      Record(EndClose);
      db := None;
      stmts := map[];
      closing := false;
    }

    lemma StmtsDiffer(id: StmtId)
      requires Valid() && closing && id in stmts
      ensures forall other :: other in stmts && stmts[other] == stmts[id] ==> other == id
    {
      RunKeeps(trace);
    }

    /** The loop of Close: closes every statement, in any order. */
    method CloseStmts()
      requires Valid() && closing && closed == {}
      modifies this
      ensures Valid() && old(trace) <= trace && closing && stmts == old(stmts) && closed == stmts.Values
    {
      var left := stmts.Keys;
      while left != {}
        invariant Valid() && closing && stmts == old(stmts) && old(trace) <= trace
        invariant left <= stmts.Keys && closed == set id | id in stmts && id !in left :: stmts[id]
        decreases |left|
      {
        var id :| id in left;
        StmtsDiffer(id);
        CloseStmt(id);
        left := left - {id};
      }
    }

    /** Close when no reader comes in between: exactly the statements there were are closed, and nothing is left. */
    method Close()
      requires Valid() && Enabled(World(), BeginClose)
      modifies this
      ensures Valid() && old(trace) < trace && Happened(trace, EndClose)
      ensures closed == old(stmts).Values && db == None && stmts == map[]
    {
      RunKeeps(trace);
      StartClosing();
      CloseStmts();
      FinishClosing();
      CloseStages(trace);
    }

    /**
     * What Stmt does once it is past its wait, without the lock: it hands out the
     * statement asked for until Close has returned, be it closed already or not.
     */
    method Lookup(c: nat, id: StmtId) returns (r: Option<Stmt>)
      requires Valid() && c in World().callers && World().callers[c].Released? && World().callers[c].id == id
      modifies `trace
      ensures Valid() && trace == old(trace) + [ReadStmt(c)]
      ensures r.Some? <==> World().callers[c].Got?
      ensures r.None? <==> Happened(old(trace), EndClose)
      ensures r.Some? ==> r.value.id == id && (r.value in closed <==> Happened(old(trace), CloseOne(id)))
    {
      ReadDuringClose(trace, c);
      r := if id in stmts then Some(stmts[id]) else None;
      Record(ReadStmt(c));
    }
  }
}
