// What holds of the kv table after every run of PUT, batch PUT and DELETE.
module KvRuns {
  import opened Text
  import opened Base64
  import opened KvTable

  // ---- The collection column is a derived index ----

  /** `c` is the text before the first slash of `key`, or empty when there is no slash. */
  predicate BeforeFirstSlash(c: string, key: string) {
    if '/' in key then '/' !in c && c + "/" <= key else c == ""
  }

  ghost predicate Indexed(m: Contents) {
    forall s :: s in m ==> m[s].collection.Some? && BeforeFirstSlash(m[s].collection.value, s.key)
  }

  lemma BeforeFirstSlashUnique(c: string, key: string)
    requires '/' in key
    ensures BeforeFirstSlash(c, key) <==> c == FirstPart(key)
  {
    var parts := SplitSlash(key);
    assert key[..|parts[0]| + 1] == parts[0] + "/";
    if BeforeFirstSlash(c, key) {
      assert key == c + "/" + key[|c| + 1..];
      SplitSlashUnique(c, key[|c| + 1..]);
    }
  }

  lemma PutCollectionRight(key: string)
    ensures BeforeFirstSlash(PutCollection(key), key)
  {
    if '/' in key {
      BeforeFirstSlashUnique(FirstPart(key), key);
    }
  }

  /** The three ways of computing a collection agree: a batch key has its prefix's first part. */
  lemma BatchCollectionAgrees(prefix: string, key: string)
    ensures PutCollection(BatchKey(prefix, key)) == FirstPart(prefix)
  {
    var k := BatchKey(prefix, key);
    assert k[|prefix|] == '/';
    if '/' in prefix {
      PrefixKeepsFirstPart(prefix, k);
    } else {
      assert FirstPart(prefix) == prefix;
      SplitSlashUnique(prefix, key);
    }
  }

  lemma {:induction false} PutItemsIndexed(m: Contents, u: User, realm: string, prefix: string, items: seq<Item>)
    requires Indexed(m)
    ensures Indexed(PutItems(m, u, realm, prefix, items))
  {
    if items != [] {
      var it := items[|items| - 1];
      PutItemsIndexed(m, u, realm, prefix, items[..|items| - 1]);
      var k := BatchKey(prefix, it.key);
      BatchCollectionAgrees(prefix, it.key);
      PutCollectionRight(k);
    }
  }

  /** The index is right after every run, however the rows were written. */
  lemma {:induction false} IndexAlwaysDerived(ops: seq<Op>)
    ensures Indexed(Run(ops))
  {
    if ops != [] {
      var op := ops[|ops| - 1];
      IndexAlwaysDerived(ops[..|ops| - 1]);
      match op
      case Put(u, realm, key, _, _) => PutCollectionRight(key);
      case Batch(u, realm, prefix, items) => PutItemsIndexed(Run(ops[..|ops| - 1]), u, realm, prefix, items);
      case Delete(u, realm, key) =>
    }
  }

  // ---- Recursive GET ----

  /** The caller's rows. */
  ghost function Own(m: Contents, u: User, realm: string): set<Slot> {
    set s | s in m && s.owner == u.owner && s.realm == realm && m[s].client == u.client
  }

  ghost function WithPrefix(m: Contents, u: User, realm: string, prefix: string): set<Slot> {
    set s | s in Own(m, u, realm) && prefix <= s.key
  }

  ghost function InCollection(m: Contents, u: User, realm: string, c: string): set<Slot> {
    set s | s in Own(m, u, realm) && BeforeFirstSlash(c, s.key)
  }

  /** The rows a recursive GET asks the table for. */
  ghost function Candidates(m: Contents, u: User, realm: string, key: string): set<Slot> {
    Matching(m, ByCollection(FirstPart(key)), u, realm)
  }

  /** What the handler keeps of the rows it got. */
  ghost function Kept(got: set<Slot>, key: string): set<Slot> {
    set s | s in got && ('/' in key ==> key <= s.key)
  }

  /** What a scan of the caller's keys finds. */
  ghost function Scan(m: Contents, u: User, realm: string, key: string): set<Slot> {
    if '/' in key then WithPrefix(m, u, realm, key) else InCollection(m, u, realm, key)
  }

  /** Asking the index and filtering is scanning the keys. */
  lemma IndexAgreesWithScan(ops: seq<Op>, u: User, realm: string, key: string)
    ensures Kept(Candidates(Run(ops), u, realm, key), key) == Scan(Run(ops), u, realm, key)
  {
    var m := Run(ops);
    IndexAlwaysDerived(ops);
    forall s | s in Own(m, u, realm)
      ensures s in Kept(Candidates(m, u, realm, key), key) <==> s in Scan(m, u, realm, key)
    {
      var c := m[s].collection.value;
      if '/' in s.key {
        BeforeFirstSlashUnique(c, s.key);
        BeforeFirstSlashUnique(key, s.key);
      }
      if '/' in key && key <= s.key {
        PrefixKeepsFirstPart(key, s.key);
      }
    }
  }

  lemma {:induction false} SubsetSize(a: set<Slot>, b: set<Slot>)
    requires a <= b
    ensures |a| <= |b|
  {
    if x :| x in a {
      SubsetSize(a - {x}, b - {x});
    }
  }

  lemma FullSubset(all: set<Slot>, got: set<Slot>)
    requires got <= all && |got| == |all|
    ensures got == all
  {
    if x :| x in all && x !in got {
      assert got <= all - {x};
      SubsetSize(got, all - {x});
    }
  }

  /** Up to the limit a recursive GET is exact, beyond it nothing wrong is added. */
  lemma RecursiveGet(ops: seq<Op>, u: User, realm: string, key: string, got: set<Slot>)
    requires Limited(Candidates(Run(ops), u, realm, key), got)
    ensures Kept(got, key) <= Scan(Run(ops), u, realm, key)
    ensures |Candidates(Run(ops), u, realm, key)| <= 500 ==> Kept(got, key) == Scan(Run(ops), u, realm, key)
  {
    IndexAgreesWithScan(ops, u, realm, key);
    if |Candidates(Run(ops), u, realm, key)| <= LIMIT {
      FullSubset(Candidates(Run(ops), u, realm, key), got);
    }
  }

  /** Some choice of `n` elements leaves out a given one. */
  lemma {:induction false} ChooseWithout(all: set<Slot>, n: nat, avoid: Slot) returns (got: set<Slot>)
    requires avoid in all && n < |all|
    ensures got <= all && |got| == n && avoid !in got
  {
    if n == 0 {
      got := {};
    } else {
      var rest := ChooseWithout(all, n - 1, avoid);
      var left := all - rest - {avoid};
      assert all == rest + left + {avoid};
      var x :| x in left;
      got := rest + {x};
    }
  }

  /**
   * A recursive GET is exact whichever rows LIMIT lets through if and only if
   * the collection fits the limit or there is nothing to find.
   */
  lemma ExactUnderLimit(ops: seq<Op>, u: User, realm: string, key: string)
    ensures (forall got :: Limited(Candidates(Run(ops), u, realm, key), got)
                           ==> Kept(got, key) == Scan(Run(ops), u, realm, key))
            <==> |Candidates(Run(ops), u, realm, key)| <= 500 || Scan(Run(ops), u, realm, key) == {}
  {
    var all, want := Candidates(Run(ops), u, realm, key), Scan(Run(ops), u, realm, key);
    forall got | Limited(all, got)
      ensures Kept(got, key) <= want
      ensures |all| <= LIMIT ==> Kept(got, key) == want
    {
      RecursiveGet(ops, u, realm, key, got);
    }
    IndexAgreesWithScan(ops, u, realm, key);
    if |all| > LIMIT && want != {} {
      var s :| s in want;
      assert s in Kept(all, key);
      var got := ChooseWithout(all, LIMIT, s);
      assert Limited(all, got) && s !in Kept(got, key);
    }
  }

  // ---- The documented prefix promise ----

  /** Prefix matching as documented: every key of the caller that starts with the given key is listed, no other. */
  ghost predicate ListsPrefix(ops: seq<Op>, u: User, realm: string, key: string) {
    |Candidates(Run(ops), u, realm, key)| <= LIMIT
    ==> Kept(Candidates(Run(ops), u, realm, key), key) == WithPrefix(Run(ops), u, realm, key)
  }

  /** One PUT that a slash-free recursive GET misses although its key has the asked prefix. */
  lemma PrefixMissed(u: User, realm: string, key: string) returns (ops: seq<Op>)
    requires '/' !in key
    ensures !ListsPrefix(ops, u, realm, key)
  {
    var k := if key == "" then "a/b" else key;
    var put := Put(u, realm, k, [], "");
    ops := [put];
    var s := Slot(k, u.owner, realm);
    assert Run(ops) == Apply(Run(ops[..0]), put);
    assert ops[..0] == [];
    var m := Run(ops);
    assert m == map[s := Cell(u.client, Some(PutCollection(k)), [], "", "")];
    if key == "" {
      assert k == "a" + "/" + "b";
      SplitSlashUnique("a", "b");
    }
    assert FirstPart(key) == key;
    assert s in WithPrefix(m, u, realm, key);
    assert Candidates(m, u, realm, key) == {};
  }

  /** A recursive GET keeps the prefix promise on every table if and only if the key holds a slash. */
  lemma PrefixPromise(u: User, realm: string, key: string)
    ensures (forall ops :: ListsPrefix(ops, u, realm, key)) <==> '/' in key
  {
    if '/' in key {
      forall ops ensures ListsPrefix(ops, u, realm, key) {
        IndexAgreesWithScan(ops, u, realm, key);
      }
    } else {
      var ops := PrefixMissed(u, realm, key);
    }
  }

  // ---- Exact GET ----

  /** A non-recursive GET finds one record at most, so neither LIMIT nor the array form applies to it. */
  lemma ExactGetIsSingle(m: Contents, u: User, realm: string, key: string, got: set<Slot>)
    requires Limited(Matching(m, ByKey(key), u, realm), got)
    ensures got == Matching(m, ByKey(key), u, realm)
    ensures got <= {Slot(key, u.owner, realm)} && |got| <= 1
  {
    var all := Matching(m, ByKey(key), u, realm);
    SubsetSize(all, {Slot(key, u.owner, realm)});
    FullSubset(all, got);
  }

  // ---- Runs ----

  lemma SingleOp(m: Contents, op: Op)
    ensures ApplyAll(m, [op]) == Apply(m, op)
  {
    assert [op][..0] == [];
  }

  lemma {:induction false} ApplyAllJoin(m: Contents, a: seq<Op>, b: seq<Op>)
    ensures ApplyAll(m, a + b) == ApplyAll(ApplyAll(m, a), b)
  {
    if b == [] {
      assert a + b == a;
    } else {
      assert (a + b)[..|a + b| - 1] == a + b[..|b| - 1];
      ApplyAllJoin(m, a, b[..|b| - 1]);
    }
  }

  /** The slots an operation writes or may remove. */
  ghost predicate Touches(op: Op, s: Slot) {
    && op.user.owner == s.owner && op.realm == s.realm
    && match op
       case Put(_, _, key, _, _) => key == s.key
       case Batch(_, _, prefix, items) => exists i :: 0 <= i < |items| && BatchKey(prefix, items[i].key) == s.key
       case Delete(_, _, key) => key == s.key
  }

  /** Slots that no record of a batch names stay as they were. */
  lemma {:induction false} BatchTouchesItsKeysOnly(m: Contents, u: User, realm: string, prefix: string, items: seq<Item>, s: Slot)
    requires forall i :: 0 <= i < |items| ==> Slot(BatchKey(prefix, items[i].key), u.owner, realm) != s
    ensures var after := PutItems(m, u, realm, prefix, items);
            (s in after <==> s in m) && (s in m ==> after[s] == m[s])
  {
    var n := |items| - 1;
    if items != [] {
      assert forall j :: 0 <= j < n ==> items[..n][j] == items[j];
      BatchTouchesItsKeysOnly(m, u, realm, prefix, items[..n], s);
    }
  }

  /** A PUT is read back, by a GET of the same client, after any operations on other slots. */
  lemma {:induction false} PutIsReadBack(m: Contents, u: User, realm: string, key: string, value: seq<Byte>, contentType: string, later: seq<Op>)
    requires forall op :: op in later ==> !Touches(op, Slot(key, u.owner, realm))
    ensures var after := ApplyAll(Apply(m, Put(u, realm, key, value, contentType)), later);
            var s := Slot(key, u.owner, realm);
            && Matching(after, ByKey(key), u, realm) == {s}
            && after[s] == Cell(u.client, Some(PutCollection(key)), value, contentType, "")
  {
    var s := Slot(key, u.owner, realm);
    if later != [] {
      var n := |later| - 1;
      var op := later[n];
      PutIsReadBack(m, u, realm, key, value, contentType, later[..n]);
      assert !Touches(op, s);
      var mid := ApplyAll(Apply(m, Put(u, realm, key, value, contentType)), later[..n]);
      if op.Batch? {
        BatchTouchesItsKeysOnly(mid, op.user, op.realm, op.prefix, op.items, s);
      }
    }
    var after := ApplyAll(Apply(m, Put(u, realm, key, value, contentType)), later);
    assert s in after && Selects(ByKey(key), u, realm, s, after[s]);
  }

  /** Operations change nothing at the slots they do not touch. */
  lemma UntouchedStays(m: Contents, op: Op, s: Slot)
    requires !Touches(op, s)
    ensures (s in Apply(m, op) <==> s in m) && (s in m ==> Apply(m, op)[s] == m[s])
  {
    if op.Batch? {
      BatchTouchesItsKeysOnly(m, op.user, op.realm, op.prefix, op.items, s);
    }
  }

  lemma {:induction false} UntouchedByAll(m: Contents, ops: seq<Op>, s: Slot)
    requires forall op :: op in ops ==> !Touches(op, s)
    ensures (s in ApplyAll(m, ops) <==> s in m) && (s in m ==> ApplyAll(m, ops)[s] == m[s])
  {
    if ops != [] {
      var n := |ops| - 1;
      UntouchedByAll(m, ops[..n], s);
      assert ops[n] in ops;
      UntouchedStays(ApplyAll(m, ops[..n]), ops[n], s);
    }
  }

  // ---- Deleting ----

  /** A query by key selects the row in that slot if it is the client's, and nothing else. */
  lemma KeyMatches(m: Contents, u: User, realm: string, key: string)
    ensures var s := Slot(key, u.owner, realm);
            Matching(m, ByKey(key), u, realm) == if s in m && m[s].client == u.client then {s} else {}
  {
  }

  /** A query by collection selects all rows of the client with that collection; rows without collection are never selected. */
  lemma CollectionMatches(m: Contents, u: User, realm: string, name: string, s: Slot)
    requires s in m
    ensures s in Matching(m, ByCollection(name), u, realm)
            <==> m[s].collection.Some? && m[s].collection.value == name
                 && s.owner == u.owner && s.realm == realm && m[s].client == u.client
  {
  }

  /** A DELETE takes away the client's record with that key and leaves every other as it was. */
  lemma DeleteExactly(m: Contents, u: User, realm: string, key: string, s: Slot)
    ensures var after := Apply(m, Delete(u, realm, key));
            && (s in after <==> s in m && !(s == Slot(key, u.owner, realm) && m[s].client == u.client))
            && (s in after ==> after[s] == m[s])
  {
    KeyMatches(m, u, realm, key);
  }

  /** A deleted key is found neither by GET nor by another DELETE of that client, until somebody touches it again. */
  lemma DeletedIsGone(m: Contents, u: User, realm: string, key: string, later: seq<Op>)
    requires forall op :: op in later ==> !Touches(op, Slot(key, u.owner, realm))
    ensures Matching(ApplyAll(Apply(m, Delete(u, realm, key)), later), ByKey(key), u, realm) == {}
  {
    var s, after := Slot(key, u.owner, realm), Apply(m, Delete(u, realm, key));
    DeleteExactly(m, u, realm, key, s);
    UntouchedByAll(after, later, s);
    KeyMatches(ApplyAll(after, later), u, realm, key);
  }

  // ---- Batch ----

  function AsPuts(u: User, realm: string, prefix: string, items: seq<Item>): (ops: seq<Op>)
    ensures |ops| == |items|
  {
    seq(|items|, i requires 0 <= i < |items| =>
      Put(u, realm, BatchKey(prefix, items[i].key), items[i].value, items[i].contentType))
  }

  /** Storing one more item of a batch is a single PUT at its key. */
  lemma ItemIsPut(m: Contents, u: User, realm: string, prefix: string, it: Item)
    ensures PutItem(m, u, realm, BatchKey(prefix, it.key), FirstPart(prefix), it.value, it.contentType)
            == Apply(m, Put(u, realm, BatchKey(prefix, it.key), it.value, it.contentType))
  {
    BatchCollectionAgrees(prefix, it.key);
  }

  lemma AsPutsMore(u: User, realm: string, prefix: string, items: seq<Item>)
    requires items != []
    ensures var n, it, puts := |items| - 1, items[|items| - 1], AsPuts(u, realm, prefix, items);
            && puts[..n] == AsPuts(u, realm, prefix, items[..n])
            && puts[n] == Put(u, realm, BatchKey(prefix, it.key), it.value, it.contentType)
  {
  }

  /** A batch at a prefix is the sequence of single PUTs below it, derived collection included. */
  lemma {:induction false} BatchIsPuts(m: Contents, u: User, realm: string, prefix: string, items: seq<Item>)
    ensures Apply(m, Batch(u, realm, prefix, items)) == ApplyAll(m, AsPuts(u, realm, prefix, items))
  {
    if items != [] {
      var init, it := items[..|items| - 1], items[|items| - 1];
      BatchIsPuts(m, u, realm, prefix, init);
      AsPutsMore(u, realm, prefix, items);
      ItemIsPut(PutItems(m, u, realm, prefix, init), u, realm, prefix, it);
    }
  }

  lemma BatchKeyInjective(prefix: string, a: string, b: string)
    requires BatchKey(prefix, a) == BatchKey(prefix, b)
    ensures a == b
  {
    assert BatchKey(prefix, a)[|prefix| + 1..] == a;
    assert BatchKey(prefix, b)[|prefix| + 1..] == b;
  }

  /** Of several records under one key the last one wins. */
  lemma {:induction false} LastDuplicateWins(m: Contents, u: User, realm: string, prefix: string, items: seq<Item>, i: nat)
    requires i < |items| && forall j :: i < j < |items| ==> items[j].key != items[i].key
    ensures var s := Slot(BatchKey(prefix, items[i].key), u.owner, realm);
            var after := PutItems(m, u, realm, prefix, items);
            s in after && after[s] == Cell(u.client, Some(FirstPart(prefix)), items[i].value, items[i].contentType, "")
  {
    var n := |items| - 1;
    if i < n {
      assert forall j :: 0 <= j < n ==> items[..n][j] == items[j];
      LastDuplicateWins(m, u, realm, prefix, items[..n], i);
      if BatchKey(prefix, items[i].key) == BatchKey(prefix, items[n].key) {
        BatchKeyInjective(prefix, items[i].key, items[n].key);
        assert false;
      }
    }
  }

  // ---- Owners and clients ----

  ghost function Restrict(m: Contents, owner: string): Contents {
    map s | s in m && s.owner == owner :: m[s]
  }

  function OpsOf(ops: seq<Op>, owner: string): seq<Op>
    decreases |ops|
  {
    if ops == [] then []
    else
      var init := OpsOf(ops[..|ops| - 1], owner);
      if ops[|ops| - 1].user.owner == owner then init + [ops[|ops| - 1]] else init
  }

  lemma {:induction false} PutItemsRestrict(m: Contents, u: User, realm: string, prefix: string, items: seq<Item>, owner: string)
    ensures Restrict(PutItems(m, u, realm, prefix, items), owner)
            == if u.owner == owner then PutItems(Restrict(m, owner), u, realm, prefix, items) else Restrict(m, owner)
  {
    if items != [] {
      PutItemsRestrict(m, u, realm, prefix, items[..|items| - 1], owner);
    }
  }

  lemma ApplyRestrict(m: Contents, op: Op, owner: string)
    ensures Restrict(Apply(m, op), owner)
            == if op.user.owner == owner then Apply(Restrict(m, owner), op) else Restrict(m, owner)
  {
    if op.Batch? {
      PutItemsRestrict(m, op.user, op.realm, op.prefix, op.items, owner);
    }
  }

  /** An owner's rows are what the run would have left had nobody else taken part in it. */
  lemma {:induction false} OwnerIndependence(ops: seq<Op>, owner: string)
    ensures Restrict(Run(ops), owner) == Run(OpsOf(ops, owner))
  {
    if ops != [] {
      var init := ops[..|ops| - 1];
      OwnerIndependence(init, owner);
      ApplyRestrict(Run(init), ops[|ops| - 1], owner);
      if ops[|ops| - 1].user.owner == owner {
        assert OpsOf(ops, owner)[..|OpsOf(ops, owner)| - 1] == OpsOf(init, owner);
      }
    }
  }

  /** So every SELECT of a user returns what it would return without the other owners. */
  lemma SelectIndependence(ops: seq<Op>, q: Query, u: User, realm: string)
    ensures Matching(Run(ops), q, u, realm) == Matching(Run(OpsOf(ops, u.owner)), q, u, realm)
    ensures forall s :: s in Matching(Run(ops), q, u, realm) ==> Run(ops)[s] == Run(OpsOf(ops, u.owner))[s]
  {
    OwnerIndependence(ops, u.owner);
    assert Matching(Run(ops), q, u, realm) == Matching(Restrict(Run(ops), u.owner), q, u, realm);
  }

  /**
   * Between two clients of one owner a PUT moves the key: after any operations
   * on other slots the other client neither finds nor deletes it.
   */
  lemma ClientTakesOver(m: Contents, u: User, other: User, realm: string, key: string, value: seq<Byte>, contentType: string, later: seq<Op>)
    requires other.owner == u.owner && other.client != u.client
    requires forall op :: op in later ==> !Touches(op, Slot(key, u.owner, realm))
    ensures var after := ApplyAll(Apply(m, Put(u, realm, key, value, contentType)), later);
            && Matching(after, ByKey(key), other, realm) == {}
            && Apply(after, Delete(other, realm, key)) == after
  {
    PutIsReadBack(m, u, realm, key, value, contentType, later);
  }
}
