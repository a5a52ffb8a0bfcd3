// One-time keys for websocket connections: issued to an authenticated user,
// redeemed once, purged when they get too old.
module ConnectKeys {
  // Times and durations are in nanoseconds.
  const SECOND: int := 1_000_000_000
  const EXPIRATION: int := 30 * SECOND
  const CLEANUP_INTERVAL: int := 60 * SECOND

  datatype KeyRecord = KeyRecord(issuedAt: int, user: string)

  type Keys = map<string, KeyRecord>

  /** How a redeemed key is answered: 404, 403, or the upgrade of a user's connection. */
  datatype Answer = NotFound | Forbidden | Upgrade(user: string)

  predicate Expired(r: KeyRecord, deadline: int) { r.issuedAt < deadline }

  /** What a purge pass leaves when nothing comes in between. */
  function Surviving(keys: Keys, deadline: int): Keys {
    map k | k in keys && !Expired(keys[k], deadline) :: keys[k]
  }

  // ---- Interleavings ----

  /** A purge pass under way: its deadline and the keys collected for removal. */
  datatype Purge = NoPurge | Purging(deadline: int, collected: set<string>)

  /**
   * The key table together with what happened: the record of every key ever
   * issued, the answers to redemptions that found a key, and when keys were purged.
   */
  datatype State = State(
    now: int,
    keys: Keys,
    purge: Purge,
    issued: Keys,
    redeemed: seq<(string, Answer)>,
    purged: map<string, int>)

  datatype Action =
    | Tick(d: nat)
    | Issue(key: string, user: string)
    | RedeemKey(key: string)
    | StartPurge
    | Collect(key: string)
    | Remove(key: string)
    | EndPurge

  const INIT := State(0, map[], NoPurge, map[], [], map[])

  /** Keys are random: one that was issued before does not come up again. */
  predicate Enabled(s: State, a: Action) {
    match a
    case Tick(_) => true
    case Issue(key, user) => key !in s.issued && user != ""
    case RedeemKey(key) => key in s.keys
    case StartPurge => s.purge.NoPurge?
    case Collect(key) => s.purge.Purging? && key in s.keys && Expired(s.keys[key], s.purge.deadline)
    case Remove(key) => s.purge.Purging? && key in s.purge.collected
    case EndPurge => s.purge.Purging?
  }

  /** Steps of requests and of the purge pass come in any order; what is not enabled changes nothing. */
  function Step(s: State, a: Action): State {
    if !Enabled(s, a) then s else
      match a
      case Tick(d) => s.(now := s.now + d)
      case Issue(key, user) =>
        var r := KeyRecord(s.now, user);
        s.(keys := s.keys[key := r], issued := s.issued[key := r])
      case RedeemKey(key) =>
        var u := s.keys[key].user;
        s.(keys := s.keys - {key}, redeemed := s.redeemed + [(key, if u == "" then Forbidden else Upgrade(u))])
      case StartPurge => s.(purge := Purging(s.now - EXPIRATION, {}))
      case Collect(key) => s.(purge := s.purge.(collected := s.purge.collected + {key}))
      case Remove(key) =>
        s.(keys := s.keys - {key},
           purge := s.purge.(collected := s.purge.collected - {key}),
           purged := if key in s.keys then s.purged[key := s.now] else s.purged)
      case EndPurge => s.(purge := NoPurge)
  }

  function RunFrom(s: State, actions: seq<Action>): State
    decreases |actions|
  {
    if actions == [] then s else Step(RunFrom(s, actions[..|actions| - 1]), actions[|actions| - 1])
  }

  function Run(actions: seq<Action>): State {
    RunFrom(INIT, actions)
  }

  lemma RunOneMore(s: State, actions: seq<Action>, a: Action)
    ensures RunFrom(s, actions + [a]) == Step(RunFrom(s, actions), a)
  {
    assert (actions + [a])[..|actions|] == actions;
  }

  ghost predicate WasRedeemed(redeemed: seq<(string, Answer)>, k: string) {
    exists i :: 0 <= i < |redeemed| && redeemed[i].0 == k
  }

  ghost predicate TableInv(s: State) {
    && (forall k :: k in s.keys ==> k in s.issued && s.keys[k] == s.issued[k])
    && (forall k :: k in s.issued ==> s.issued[k].user != "" && s.issued[k].issuedAt <= s.now)
  }

  ghost predicate PurgeInv(s: State) {
    && (s.purge.Purging? ==>
          && s.purge.deadline <= s.now - EXPIRATION
          && forall k :: k in s.purge.collected ==> k in s.issued && Expired(s.issued[k], s.purge.deadline))
    && (forall k :: k in s.purged ==>
          && k in s.issued && k !in s.keys
          && s.issued[k].issuedAt + EXPIRATION < s.purged[k] <= s.now)
  }

  ghost predicate RedeemInv(s: State) {
    && (forall i :: 0 <= i < |s.redeemed| ==>
          var (k, answer) := s.redeemed[i];
          k in s.issued && k !in s.keys && k !in s.purged && answer == Upgrade(s.issued[k].user))
    && (forall i, j :: 0 <= i < j < |s.redeemed| ==> s.redeemed[i].0 != s.redeemed[j].0)
  }

  ghost predicate PartitionInv(s: State) {
    forall k :: k in s.issued ==> k in s.keys || k in s.purged || WasRedeemed(s.redeemed, k)
  }

  ghost predicate Inv(s: State) {
    TableInv(s) && PurgeInv(s) && RedeemInv(s) && PartitionInv(s)
  }

  lemma TableKept(s: State, a: Action)
    requires TableInv(s)
    ensures TableInv(Step(s, a))
  {
  }

  lemma PurgeKept(s: State, a: Action)
    requires TableInv(s) && PurgeInv(s)
    ensures PurgeInv(Step(s, a))
  {
  }

  lemma RedeemKept(s: State, a: Action)
    requires TableInv(s) && PurgeInv(s) && RedeemInv(s)
    ensures RedeemInv(Step(s, a))
  {
  }

  lemma PartitionKept(s: State, a: Action)
    requires PartitionInv(s)
    ensures PartitionInv(Step(s, a))
  {
    var s' := Step(s, a);
    if a.RedeemKey? && Enabled(s, a) {
      assert s'.redeemed[|s.redeemed|].0 == a.key;
      forall k | WasRedeemed(s.redeemed, k) ensures WasRedeemed(s'.redeemed, k) {
        var i :| 0 <= i < |s.redeemed| && s.redeemed[i].0 == k;
        assert s'.redeemed[i].0 == k;
      }
    }
  }

  lemma {:induction false} RunKeeps(actions: seq<Action>)
    ensures Inv(Run(actions))
  {
    if actions != [] {
      var s, a := Run(actions[..|actions| - 1]), actions[|actions| - 1];
      RunKeeps(actions[..|actions| - 1]);
      TableKept(s, a);
      PurgeKept(s, a);
      RedeemKept(s, a);
      PartitionKept(s, a);
    }
  }

  /** Each key is redeemed at most once, only after being issued, and always for its own, named user. */
  lemma RedeemedOnce(actions: seq<Action>)
    ensures var s := Run(actions);
            && (forall i, j :: 0 <= i < j < |s.redeemed| ==> s.redeemed[i].0 != s.redeemed[j].0)
            && (forall i :: 0 <= i < |s.redeemed| ==>
                  && s.redeemed[i].0 in s.issued
                  && s.issued[s.redeemed[i].0].user != ""
                  && s.redeemed[i].1 == Upgrade(s.issued[s.redeemed[i].0].user))
  {
    RunKeeps(actions);
  }

  /** The key can still be redeemed: it was issued, and neither redeemed nor purged since. */
  ghost predicate Redeemable(s: State, k: string) {
    k in s.issued && k !in s.purged && !WasRedeemed(s.redeemed, k)
  }

  lemma RedeemableIsWaiting(actions: seq<Action>, k: string)
    ensures Redeemable(Run(actions), k) <==> k in Run(actions).keys
  {
    RunKeeps(actions);
  }

  lemma GoneStep(s: State, a: Action, k: string)
    requires Inv(s) && k in s.issued && k !in s.keys
    ensures k in Step(s, a).issued && k !in Step(s, a).keys
  {
  }

  /** A key that was issued and cannot be redeemed any more never can again. */
  lemma {:induction false} GoneForGood(before: seq<Action>, after: seq<Action>, k: string)
    requires k in Run(before).issued && !Redeemable(Run(before), k)
    ensures k in Run(before + after).issued && !Redeemable(Run(before + after), k)
  {
    if after == [] {
      assert before + after == before;
    } else {
      var init, a := before + after[..|after| - 1], after[|after| - 1];
      GoneForGood(before, after[..|after| - 1], k);
      RedeemableIsWaiting(init, k);
      RunKeeps(init);
      GoneStep(Run(init), a, k);
      assert before + after == init + [a];
      RunOneMore(INIT, init, a);
      RedeemableIsWaiting(before + after, k);
    }
  }

  /** The purge takes away only keys that are older than the expiration time. */
  lemma PurgeSparesYoungKeys(actions: seq<Action>)
    ensures var s := Run(actions);
            forall k :: k in s.purged ==> k in s.issued && s.purged[k] - s.issued[k].issuedAt > 30 * SECOND
  {
    RunKeeps(actions);
  }

  /** Keys are conserved: every issued key is waiting, redeemed or purged, and only one of the three. */
  lemma KeysConserved(actions: seq<Action>, k: string)
    ensures var s := Run(actions);
            var redeemed := WasRedeemed(s.redeemed, k);
            && (k in s.issued <==> k in s.keys || k in s.purged || redeemed)
            && !(k in s.keys && k in s.purged) && !(k in s.keys && redeemed) && !(k in s.purged && redeemed)
  {
    RunKeeps(actions);
  }

  // ---- A pass that nobody disturbs ----

  /** Collects the given keys, which are all expired. */
  lemma {:induction false} CollectAll(s: State, ks: set<string>) returns (actions: seq<Action>)
    requires s.purge.Purging? && s.purge.collected == {}
    requires forall k :: k in ks ==> k in s.keys && Expired(s.keys[k], s.purge.deadline)
    ensures RunFrom(s, actions) == s.(purge := s.purge.(collected := ks))
  {
    if ks == {} {
      actions := [];
    } else {
      var k :| k in ks;
      var first := CollectAll(s, ks - {k});
      RunOneMore(s, first, Collect(k));
      assert ks - {k} + {k} == ks;
      actions := first + [Collect(k)];
    }
  }

  /** Removes the given ones of the collected keys. */
  lemma {:induction false} RemoveAll(s: State, ks: set<string>) returns (actions: seq<Action>)
    requires s.purge.Purging? && ks <= s.purge.collected
    ensures var s' := RunFrom(s, actions);
            s'.keys == s.keys - ks && s'.purge == s.purge.(collected := s.purge.collected - ks)
  {
    if ks == {} {
      actions := [];
    } else {
      var k :| k in ks;
      var first := RemoveAll(s, ks - {k});
      RunOneMore(s, first, Remove(k));
      assert s.keys - (ks - {k}) - {k} == s.keys - ks;
      assert s.purge.collected - (ks - {k}) - {k} == s.purge.collected - ks;
      actions := first + [Remove(k)];
    }
  }

  lemma {:induction false} RunJoin(s: State, a: seq<Action>, b: seq<Action>)
    ensures RunFrom(s, a + b) == RunFrom(RunFrom(s, a), b)
  {
    if b == [] {
      assert a + b == a;
    } else {
      assert (a + b)[..|a + b| - 1] == a + b[..|b| - 1];
      RunJoin(s, a, b[..|b| - 1]);
    }
  }

  /** Nothing in the table is expired for the pass under way. */
  ghost predicate NothingExpired(s: State) {
    s.purge.Purging? && forall k :: k in s.keys ==> !Expired(s.keys[k], s.purge.deadline)
  }

  /** The steps of a pass without interference amount to what purgeExpiredKeys leaves when it runs alone. */
  lemma UndisturbedPass(s: State) returns (pass: seq<Action>)
    requires s.purge.NoPurge?
    ensures RunFrom(s, pass).keys == Surviving(s.keys, s.now - EXPIRATION) && RunFrom(s, pass).purge.NoPurge?
    ensures pass != [] && pass[|pass| - 1] == EndPurge
    ensures var last := RunFrom(s, pass[..|pass| - 1]); NothingExpired(last) && last.purge.deadline == s.now - EXPIRATION
  {
    var expired := set k | k in s.keys && Expired(s.keys[k], s.now - EXPIRATION);
    var s1 := Step(s, StartPurge);
    RunOneMore(s, [], StartPurge);
    var collects := CollectAll(s1, expired);
    var s2 := RunFrom(s1, collects);
    var removes := RemoveAll(s2, expired);
    var s3 := RunFrom(s2, removes);
    RunJoin(s, [StartPurge], collects);
    RunJoin(s, [StartPurge] + collects, removes);
    assert [] + [StartPurge] == [StartPurge];
    RunOneMore(s, [StartPurge] + collects + removes, EndPurge);
    pass := [StartPurge] + collects + removes + [EndPurge];
    assert s3.keys == Surviving(s.keys, s.now - EXPIRATION);
    assert pass[..|pass| - 1] == [StartPurge] + collects + removes;
  }

  // ---- How old a key can get ----

  /** The latest deadline of a pass that has ended and done all its work; before the first one, that of a pass at the start. */
  ghost function Swept(actions: seq<Action>): int
    decreases |actions|
  {
    if actions == [] then -EXPIRATION
    else
      var init, s := actions[..|actions| - 1], Run(actions[..|actions| - 1]);
      if actions[|actions| - 1] == EndPurge && NothingExpired(s) && s.purge.deadline > Swept(init) then s.purge.deadline
      else Swept(init)
  }

  function Due(n: nat): int {
    n * CLEANUP_INTERVAL
  }

  /**
   * The ticker's passes are late by `d` at most: a pass is due at every multiple of
   * the interval, and when more than `d` has gone by since, one that started then or
   * later has ended.
   */
  ghost predicate Punctual(actions: seq<Action>, d: nat) {
    forall n: nat :: Run(actions).now > Due(n) + d ==> Swept(actions) + EXPIRATION >= Due(n)
  }

  lemma SweptByPass(actions: seq<Action>, pass: seq<Action>)
    requires pass != [] && pass[|pass| - 1] == EndPurge && NothingExpired(RunFrom(Run(actions), pass[..|pass| - 1]))
    ensures Swept(actions + pass) >= RunFrom(Run(actions), pass[..|pass| - 1]).purge.deadline
  {
    var init := pass[..|pass| - 1];
    RunJoin(INIT, actions, init);
    assert (actions + pass)[..|actions + pass| - 1] == actions + init;
  }

  lemma SweptStep(s: State, a: Action, swept: int)
    requires Inv(s) && swept <= s.now - EXPIRATION && forall k :: k in s.keys ==> s.keys[k].issuedAt >= swept
    ensures forall k :: k in Step(s, a).keys ==> Step(s, a).keys[k].issuedAt >= swept
    ensures swept <= Step(s, a).now - EXPIRATION
  {
  }

  /** No key in the table is older than the last pass that has done its work. */
  lemma {:induction false} SweptAway(actions: seq<Action>)
    ensures Swept(actions) <= Run(actions).now - EXPIRATION
    ensures forall k :: k in Run(actions).keys ==> Run(actions).keys[k].issuedAt >= Swept(actions)
  {
    if actions != [] {
      var init, a := actions[..|actions| - 1], actions[|actions| - 1];
      SweptAway(init);
      RunKeeps(init);
      SweptStep(Run(init), a, Swept(init));
    }
  }

  /** The time since the last pass that was due more than `d` ago. */
  lemma LastDue(now: int, d: nat) returns (n: nat)
    requires now > d
    ensures Due(n) + d < now <= Due(n + 1) + d
  {
    n := (now - d - 1) / CLEANUP_INTERVAL;
  }

  lemma {:induction false} NeverBeforeStart(actions: seq<Action>)
    ensures Run(actions).now >= 0 && forall k :: k in Run(actions).issued ==> Run(actions).issued[k].issuedAt >= 0
  {
    if actions != [] {
      NeverBeforeStart(actions[..|actions| - 1]);
    }
  }

  /**
   * Redeeming does not look at the age, yet with passes that are late by at most `d`
   * no key that can be redeemed is older than expiration, interval and `d` together:
   * 90 seconds, when they are on time.
   */
  lemma RedeemableAge(actions: seq<Action>, d: nat, k: string)
    requires Punctual(actions, d) && Redeemable(Run(actions), k)
    ensures Run(actions).now - Run(actions).issued[k].issuedAt <= 90 * SECOND + d
  {
    var s := Run(actions);
    RunKeeps(actions);
    RedeemableIsWaiting(actions, k);
    SweptAway(actions);
    if s.now > d {
      var n := LastDue(s.now, d);
    } else {
      NeverBeforeStart(actions);
    }
  }

  /** Every prefix of the run is punctual. */
  ghost predicate AlwaysPunctual(actions: seq<Action>, d: nat) {
    forall i :: 0 <= i <= |actions| ==> Punctual(actions[..i], d)
  }

  lemma PunctualMore(actions: seq<Action>, a: Action, d: nat)
    requires AlwaysPunctual(actions, d) && Punctual(actions + [a], d)
    ensures AlwaysPunctual(actions + [a], d)
  {
    var more := actions + [a];
    forall i | 0 <= i <= |more| ensures Punctual(more[..i], d) {
      if i <= |actions| {
        assert more[..i] == actions[..i];
      } else {
        assert more[..i] == more;
      }
    }
  }

  lemma FirstDue(n: nat)
    requires Due(n) < CLEANUP_INTERVAL
    ensures n == 0 && Due(n) == 0
  {
  }

  /** Up to the interval nothing is late. */
  lemma PunctualEarly(actions: seq<Action>, d: nat)
    requires Run(actions).now <= CLEANUP_INTERVAL && Swept(actions) >= -EXPIRATION
    ensures Punctual(actions, d)
  {
    var now := Run(actions).now;
    forall n: nat | now > Due(n) + d ensures Due(n) == 0 {
      FirstDue(n);
    }
  }

  /** A run goes on without the end of a pass. */
  lemma GoOn(actions: seq<Action>, s: State, swept: int, a: Action) returns (more: seq<Action>, s': State)
    requires s == Run(actions) && swept == Swept(actions) && a != EndPurge
    ensures more == actions + [a] && s' == Step(s, a) == Run(more) && Swept(more) == swept
  {
    more, s' := actions + [a], Step(s, a);
    RunOneMore(INIT, actions, a);
    assert more[..|actions|] == actions;
  }

  lemma EarlyStep(before: seq<Action>, s: State, swept: int, a: Action, d: nat) returns (actions: seq<Action>, s': State)
    requires s == Run(before) && swept == Swept(before) >= -EXPIRATION && AlwaysPunctual(before, d)
    requires a != EndPurge && Step(s, a).now <= CLEANUP_INTERVAL
    ensures actions == before + [a] && s' == Step(s, a) == Run(actions) && Swept(actions) == swept && AlwaysPunctual(actions, d)
  {
    actions, s' := GoOn(before, s, swept, a);
    PunctualEarly(actions, d);
    PunctualMore(before, a, d);
  }

  ghost function FirstPassAt(r: KeyRecord, key: string): State {
    State(CLEANUP_INTERVAL, map[key := r], Purging(CLEANUP_INTERVAL - EXPIRATION, {}), map[key := r], [], map[])
  }

  /** The first pass is about to end, and leaves a key that was given half an interval before it. */
  lemma FirstPass(key: string, user: string, d: nat) returns (actions: seq<Action>)
    requires user != ""
    ensures AlwaysPunctual(actions, d) && Swept(actions) == -EXPIRATION
    ensures Run(actions) == FirstPassAt(KeyRecord(CLEANUP_INTERVAL - EXPIRATION, user), key)
  {
    var s, swept, half := INIT, -EXPIRATION, CLEANUP_INTERVAL - EXPIRATION;
    actions := [];
    PunctualEarly([], d);
    actions, s := EarlyStep(actions, s, swept, Tick(half), d);
    assert s == INIT.(now := half);
    actions, s := EarlyStep(actions, s, swept, Issue(key, user), d);
    actions, s := EarlyStep(actions, s, swept, Tick(EXPIRATION), d);
    actions, s := EarlyStep(actions, s, swept, StartPurge, d);
  }

  lemma FirstPassEnds(before: seq<Action>, key: string, r: KeyRecord, d: nat) returns (actions: seq<Action>)
    requires AlwaysPunctual(before, d) && Swept(before) == -EXPIRATION
    requires Run(before) == FirstPassAt(r, key) && r.issuedAt == CLEANUP_INTERVAL - EXPIRATION
    ensures AlwaysPunctual(actions, d) && Swept(actions) == CLEANUP_INTERVAL - EXPIRATION
    ensures Run(actions) == FirstPassAt(r, key).(purge := NoPurge)
  {
    actions := before + [EndPurge];
    RunOneMore(INIT, before, EndPurge);
    assert actions[..|before|] == before;
    assert NothingExpired(Run(before));
    PunctualEarly(actions, d);
    PunctualMore(before, EndPurge, d);
  }

  /** The bound is sharp for every delay: a key given half an interval before a pass waits for the next one to be that late. */
  lemma AgeBoundIsSharp(key: string, user: string, d: nat) returns (actions: seq<Action>)
    requires user != ""
    ensures AlwaysPunctual(actions, d) && Redeemable(Run(actions), key)
    ensures Run(actions).now - Run(actions).issued[key].issuedAt == 90 * SECOND + d
  {
    var r := KeyRecord(CLEANUP_INTERVAL - EXPIRATION, user);
    var before := FirstPass(key, user, d);
    before := FirstPassEnds(before, key, r, d);
    var s := Run(before);
    var wait := Tick(CLEANUP_INTERVAL + d);
    actions, s := GoOn(before, s, Swept(before), wait);
    assert Punctual(actions, d);
    PunctualMore(before, wait, d);
    RunKeeps(actions);
    RedeemableIsWaiting(actions, key);
  }

  // ---- The table as an object ----

  /** `trace` is the run the table has gone through; no pass is under way between two calls. */
  class KeyTable {
    var keys: Keys
    ghost var trace: seq<Action>

    ghost function World(): State
      reads this
    {
      Run(trace)
    }

    ghost predicate Valid()
      reads this
    {
      World().keys == keys && World().purge.NoPurge?
    }

    constructor ()
      ensures Valid() && trace == []
    {
      keys, trace := map[], [];
    }

    ghost method Record(a: Action)
      modifies `trace
      ensures trace == old(trace) + [a] && World() == Step(old(World()), a)
    {
      RunOneMore(INIT, trace, a);
      trace := trace + [a];
    }

    ghost method LetTimePass(d: nat)
      requires Valid()
      modifies `trace
      ensures Valid() && trace == old(trace) + [Tick(d)] && World().now == old(World()).now + d
    {
      Record(Tick(d));
    }

    /** handleWebsocketConnect, with a random key. What it returns can be redeemed, and by its own user only. */
    method Connect(key: string, user: string, now: int) returns (ok: bool)
      requires Valid() && now == World().now && key !in World().issued
      modifies this
      ensures Valid() && trace == old(trace) + [Issue(key, user)]
      ensures ok <==> user != ""
      ensures ok <==> Redeemable(World(), key)
      ensures ok ==> World().issued[key] == KeyRecord(now, user)
      ensures forall k :: k != key ==> (Redeemable(World(), k) <==> Redeemable(old(World()), k))
    {
      RunKeeps(trace);
      Record(Issue(key, user));
      if user == "" {
        return false;
      }
      keys := keys[key := KeyRecord(now, user)];
      ok := true;
      RunKeeps(trace);
    }

    /**
     * handleWebsocketConnection up to the upgrade. It succeeds exactly for keys that
     * were issued and neither redeemed nor purged since, for the user they were
     * issued to, and then never again; the 403 answer never occurs. With passes late
     * by at most `d` the key is 90 seconds and `d` old at most.
     */
    method Redeem(key: string) returns (answer: Answer)
      requires Valid()
      modifies this
      ensures Valid() && trace == old(trace) + [RedeemKey(key)]
      ensures answer == if Redeemable(old(World()), key) then Upgrade(World().issued[key].user) else NotFound
      ensures answer.Upgrade? ==> forall after :: !Redeemable(Run(trace + after), key)
      ensures answer.Upgrade? ==> forall d: nat :: Punctual(old(trace), d) ==>
                World().now - World().issued[key].issuedAt <= 90 * SECOND + d
    {
      forall d: nat | Punctual(trace, d) && Redeemable(World(), key)
        ensures World().now - World().issued[key].issuedAt <= 90 * SECOND + d
      {
        RedeemableAge(trace, d, key);
      }
      RunKeeps(trace);
      RedeemableIsWaiting(trace, key);
      Record(RedeemKey(key));
      if key !in keys {
        return NotFound;
      }
      var record := keys[key];
      keys := keys - {key};
      answer := if record.user == "" then Forbidden else Upgrade(record.user);
      RedeemableIsWaiting(trace, key);
      forall after ensures !Redeemable(Run(trace + after), key) {
        GoneForGood(trace, after, key);
      }
    }

    /** The first loop of purgeExpiredKeys, over a snapshot of the table. */
    static method CollectExpired(keys: Keys, deadline: int) returns (expired: seq<string>)
      ensures forall k :: k in expired <==> k in keys && Expired(keys[k], deadline)
    {
      expired := [];
      var left := keys.Keys;
      while left != {}
        invariant left <= keys.Keys
        invariant forall k :: k in expired <==> k in keys && k !in left && Expired(keys[k], deadline)
        decreases |left|
      {
        var k :| k in left;
        if Expired(keys[k], deadline) {
          expired := expired + [k];
        }
        left := left - {k};
      }
    }

    /** The second loop: removes the collected keys one by one. */
    method RemoveKeys(expired: seq<string>)
      modifies `keys
      ensures keys == map k | k in old(keys) && k !in expired :: old(keys)[k]
    {
      for i := 0 to |expired|
        invariant keys == map k | k in old(keys) && k !in expired[..i] :: old(keys)[k]
      {
        keys := keys - {expired[i]};
        assert expired[..i + 1] == expired[..i] + [expired[i]];
      }
      assert expired[..|expired|] == expired;
    }

    /** purgeExpiredKeys, undisturbed: a pass of the model that does all its work. */
    method PurgeExpiredKeys(now: int)
      requires Valid() && now == World().now
      modifies this
      ensures Valid() && old(trace) <= trace
      ensures keys == Surviving(old(keys), now - EXPIRATION) && Swept(trace) >= now - EXPIRATION
      ensures forall k :: k in keys <==> k in old(keys) && old(keys)[k].issuedAt >= now - 30 * SECOND
      ensures forall k :: k in keys ==> keys[k] == old(keys)[k]
    {
      var deadline := now - EXPIRATION;
      ghost var pass := UndisturbedPass(World());
      RunJoin(INIT, trace, pass);
      SweptByPass(trace, pass);
      var expired := CollectExpired(keys, deadline);
      RemoveKeys(expired);
      trace := trace + pass;
    }

    /** No key has been redeemed twice at any table. */
    lemma AtMostOnce()
      requires Valid()
      ensures forall i, j :: 0 <= i < j < |World().redeemed| ==> World().redeemed[i].0 != World().redeemed[j].0
      ensures forall k :: k in keys <==> Redeemable(World(), k)
    {
      RedeemedOnce(trace);
      forall k ensures k in keys <==> Redeemable(World(), k) {
        RedeemableIsWaiting(trace, k);
      }
    }
  }
}
