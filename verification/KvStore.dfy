// The store: the kv table with its statements, and the operations on it.
module KvStore {
  import opened Text
  import opened KvRecord
  import opened KvTable

  /**
   * How a database call can go wrong: refused before it takes effect, or
   * executed with its result not available afterwards.
   */
  datatype Fault = NoFault | Refused | Unreported

  /**
   * What goes wrong during a batch: which records fail, whose affected rows are
   * unknown, and the transaction calls. A commit may take effect and fail all the same.
   */
  datatype BatchFaults = BatchFaults(begin: bool, prepare: bool, exec: set<nat>, uncounted: set<nat>, commit: Fault)

  function SlotOf(r: Record, realm: string): Slot {
    Slot(r.key, r.ownerId, realm)
  }

  function CellOf(r: Record): Cell {
    Cell(r.clientId, r.collection, r.value, r.contentType, r.requiredScopes)
  }

  ghost function Upsert(m: Contents, realm: string, r: Record): Contents {
    m[SlotOf(r, realm) := CellOf(r)]
  }

  ghost function UpsertAll(m: Contents, realm: string, records: seq<Record>): Contents
    decreases |records|
  {
    if records == [] then m
    else Upsert(UpsertAll(m, realm, records[..|records| - 1]), realm, records[|records| - 1])
  }

  /** What a SELECT returns of a row: key, value, content type and scopes. */
  function ToRecord(r: Row): Record {
    Record(None, r.slot.key, r.cell.value, r.cell.contentType, "", "", r.cell.scopes)
  }

  ghost function Slots(rows: seq<Row>): set<Slot> {
    set r | r in rows :: r.slot
  }

  /** The slots of the rows a WHERE clause selects. */
  ghost function Selected(rows: seq<Row>, q: Query, u: User, realm: string): set<Slot> {
    set r | r in rows && Selects(q, u, realm, r.slot, r.cell) :: r.slot
  }

  lemma SelectedStep(rows: seq<Row>, i: nat, q: Query, u: User, realm: string)
    requires Unique(rows) && i < |rows|
    ensures rows[i].slot !in Selected(rows[..i], q, u, realm)
    ensures Selected(rows[..i + 1], q, u, realm)
            == Selected(rows[..i], q, u, realm) + if Selects(q, u, realm, rows[i].slot, rows[i].cell) then {rows[i].slot} else {}
  {
    assert rows[..i + 1] == rows[..i] + [rows[i]];
  }

  lemma {:induction false} SlotsSize(rows: seq<Row>)
    requires Unique(rows)
    ensures |Slots(rows)| == |rows|
  {
    if rows != [] {
      var init, last := rows[..|rows| - 1], rows[|rows| - 1];
      SlotsSize(init);
      assert rows == init + [last];
      assert Slots(rows) == Slots(init) + {last.slot};
    }
  }

  /** `kept` is the rows the query does not select. */
  ghost predicate Rejects(kept: seq<Row>, rows: seq<Row>, q: Query, u: User, realm: string) {
    Unique(kept) && forall r :: r in kept <==> r in rows && !Selects(q, u, realm, r.slot, r.cell)
  }

  lemma RejectsMore(kept: seq<Row>, rows: seq<Row>, i: nat, q: Query, u: User, realm: string)
    requires Unique(rows) && i < |rows| && Rejects(kept, rows[..i], q, u, realm)
    ensures Rejects(if Selects(q, u, realm, rows[i].slot, rows[i].cell) then kept else kept + [rows[i]],
                    rows[..i + 1], q, u, realm)
  {
    assert rows[..i + 1] == rows[..i] + [rows[i]];
    forall j | 0 <= j < |kept| ensures kept[j].slot != rows[i].slot {
      assert kept[j] in rows[..i];
    }
  }

  /** `out` is taken from the first rows and selected by the query. */
  ghost predicate Picks(out: seq<Row>, rows: seq<Row>, q: Query, u: User, realm: string) {
    Unique(out) && forall r :: r in out ==> r in rows && Selects(q, u, realm, r.slot, r.cell)
  }

  lemma PicksMore(out: seq<Row>, rows: seq<Row>, i: nat, q: Query, u: User, realm: string)
    requires Unique(rows) && i < |rows| && Picks(out, rows[..i], q, u, realm)
    requires Selects(q, u, realm, rows[i].slot, rows[i].cell)
    ensures Picks(out + [rows[i]], rows[..i + 1], q, u, realm)
  {
    assert rows[..i + 1] == rows[..i] + [rows[i]];
    forall j | 0 <= j < |out| ensures out[j].slot != rows[i].slot {
      assert out[j] in rows[..i];
    }
  }

  lemma PicksSame(out: seq<Row>, rows: seq<Row>, i: nat, q: Query, u: User, realm: string)
    requires i < |rows| && Picks(out, rows[..i], q, u, realm)
    ensures Picks(out, rows[..i + 1], q, u, realm)
  {
    assert rows[..i + 1] == rows[..i] + [rows[i]];
  }

  lemma SelectedAll(rows: seq<Row>, q: Query, u: User, realm: string)
    requires Unique(rows)
    ensures Selected(rows, q, u, realm) == Matching(ContentsOf(rows), q, u, realm)
  {
    var m := ContentsOf(rows);
    forall s | s in Matching(m, q, u, realm) ensures s in Selected(rows, q, u, realm) {
      assert Row(s, m[s]) in rows;
    }
  }

  lemma PicksLimited(out: seq<Row>, rows: seq<Row>, q: Query, u: User, realm: string)
    requires Unique(rows) && Picks(out, rows, q, u, realm)
    requires |out| == Min(LIMIT, |Selected(rows, q, u, realm)|)
    ensures Limited(Matching(ContentsOf(rows), q, u, realm), Slots(out)) && |Slots(out)| == |out|
    ensures forall r :: r in out ==> r.slot in ContentsOf(rows) && ContentsOf(rows)[r.slot] == r.cell
  {
    SlotsSize(out);
    SelectedAll(rows, q, u, realm);
    assert Slots(out) <= Selected(rows, q, u, realm);
  }

  /** Every statement of the batch is executed. */
  ghost predicate BatchExecutes(n: nat, faults: BatchFaults) {
    !faults.begin && !faults.prepare && forall i :: 0 <= i < n ==> i !in faults.exec
  }

  /** At least one record's affected rows were counted. */
  ghost predicate BatchCounted(n: nat, faults: BatchFaults) {
    exists i :: 0 <= i < n && i !in faults.uncounted
  }

  ghost predicate BatchStores(n: nat, faults: BatchFaults) {
    BatchExecutes(n, faults) && BatchCounted(n, faults) && faults.commit != Refused
  }

  ghost predicate BatchVanishes(n: nat, faults: BatchFaults) {
    BatchExecutes(n, faults) && !BatchCounted(n, faults)
  }

  /** The batch is reported as done. */
  ghost predicate BatchSucceeds(n: nat, faults: BatchFaults) {
    (BatchStores(n, faults) && faults.commit == NoFault) || BatchVanishes(n, faults)
  }

  /** When affected rows are always reported, only the empty batch takes the silent rollback. */
  lemma SilentRollbackOnlyWhenEmpty(n: nat, faults: BatchFaults)
    requires faults.uncounted == {}
    ensures BatchVanishes(n, faults) <==> BatchExecutes(n, faults) && n == 0
  {
    if n != 0 {
      assert 0 !in faults.uncounted;
    }
  }

  class Store {
    var rows: seq<Row>

    ghost predicate Valid()
      reads this
    {
      Unique(rows)
    }

    ghost function Contents(): Contents
      reads this
      requires Valid()
    {
      ContentsOf(rows)
    }

    constructor ()
      ensures Valid() && Contents() == map[]
    {
      rows := [];
    }

    /** A table with the right rows has the right contents. */
    static lemma SameContents(rows: seq<Row>, m: Contents)
      requires Unique(rows)
      requires forall r :: r in rows <==> r.slot in m && m[r.slot] == r.cell
      ensures ContentsOf(rows) == m
    {
      assert forall s :: s in m ==> Row(s, m[s]) in rows;
    }

    static method Without(rows: seq<Row>, slot: Slot) returns (after: seq<Row>)
      requires Unique(rows)
      ensures Unique(after)
      ensures forall r :: r in after <==> r in rows && r.slot != slot
    {
      after := [];
      for i := 0 to |rows|
        invariant Unique(after)
        invariant forall r :: r in after <==> r in rows[..i] && r.slot != slot
      {
        if rows[i].slot != slot {
          assert forall j :: 0 <= j < |after| ==> after[j] in rows[..i];
          after := after + [rows[i]];
        }
      }
    }

    /** REPLACE INTO: the row holding the same unique key goes, the new one comes. */
    static method Replace(rows: seq<Row>, row: Row) returns (after: seq<Row>)
      requires Unique(rows)
      ensures Unique(after)
      ensures ContentsOf(after) == ContentsOf(rows)[row.slot := row.cell]
    {
      after := Without(rows, row.slot);
      after := after + [row];
      assert forall r :: r in after <==> r == row || (r in rows && r.slot != row.slot);
      SameContents(after, ContentsOf(rows)[row.slot := row.cell]);
    }

    static method Reject(rows: seq<Row>, q: Query, u: User, realm: string) returns (kept: seq<Row>, rejected: nat)
      requires Unique(rows)
      ensures Rejects(kept, rows, q, u, realm) && rejected == |Selected(rows, q, u, realm)|
    {
      kept, rejected := [], 0;
      for i := 0 to |rows|
        invariant Rejects(kept, rows[..i], q, u, realm) && rejected == |Selected(rows[..i], q, u, realm)|
      {
        SelectedStep(rows, i, q, u, realm);
        RejectsMore(kept, rows, i, q, u, realm);
        if Selects(q, u, realm, rows[i].slot, rows[i].cell) {
          rejected := rejected + 1;
        } else {
          kept := kept + [rows[i]];
        }
      }
      assert rows[..|rows|] == rows;
    }

    /** DELETE by key, owner, client and realm. */
    method DeleteWhere(key: string, u: User, realm: string) returns (affected: nat)
      requires Valid()
      modifies this
      ensures Valid() && Contents() == Removed(old(Contents()), u, realm, key)
      ensures affected == |Matching(old(Contents()), ByKey(key), u, realm)|
    {
      var q := ByKey(key);
      var kept;
      kept, affected := Reject(rows, q, u, realm);
      SelectedAll(rows, q, u, realm);
      SameContents(kept, Removed(Contents(), u, realm, key));
      rows := kept;
    }

    static method SelectFrom(rows: seq<Row>, q: Query, u: User, realm: string) returns (out: seq<Row>)
      requires Unique(rows)
      ensures Picks(out, rows, q, u, realm) && |out| == Min(LIMIT, |Selected(rows, q, u, realm)|)
    {
      out := [];
      for i := 0 to |rows|
        invariant Picks(out, rows[..i], q, u, realm) && |out| == Min(LIMIT, |Selected(rows[..i], q, u, realm)|)
      {
        SelectedStep(rows, i, q, u, realm);
        if Selects(q, u, realm, rows[i].slot, rows[i].cell) && |out| < LIMIT {
          PicksMore(out, rows, i, q, u, realm);
          out := out + [rows[i]];
        } else {
          PicksSame(out, rows, i, q, u, realm);
        }
      }
      assert rows[..|rows|] == rows;
    }

    /** SELECT with LIMIT 500. The contract leaves open which of the matching rows come and in what order. */
    method SelectWhere(q: Query, u: User, realm: string) returns (out: seq<Row>)
      requires Valid()
      ensures Unique(out) && forall r :: r in out ==> r.slot in Contents() && Contents()[r.slot] == r.cell
      ensures Limited(Matching(Contents(), q, u, realm), Slots(out)) && |Slots(out)| == |out|
    {
      out := SelectFrom(rows, q, u, realm);
      PicksLimited(out, rows, q, u, realm);
    }

    // ---- Operations ----

    /** KV.Get. */
    method Get(realm: string, record: Record, fault: Fault) returns (result: Option<seq<Record>>, ghost got: seq<Row>)
      requires Valid()
      ensures result.None? <==> fault != NoFault
      ensures var u := User(record.ownerId, record.clientId);
              var q := if record.collection.None? then ByKey(record.key) else ByCollection(record.collection.value);
              result.Some? ==>
                && Unique(got) && Limited(Matching(Contents(), q, u, realm), Slots(got)) && |Slots(got)| == |got|
                && (forall r :: r in got ==> r.slot in Contents() && Contents()[r.slot] == r.cell)
                && |result.value| == |got|
                && forall i :: 0 <= i < |got| ==> result.value[i] == ToRecord(got[i])
    {
      got := [];
      if fault != NoFault {
        return None, got;
      }
      var q := if record.collection.None? then ByKey(record.key) else ByCollection(record.collection.value);
      var rows := SelectWhere(q, User(record.ownerId, record.clientId), realm);
      got := rows;
      var records: seq<Record> := [];
      for i := 0 to |rows|
        invariant |records| == i && forall j :: 0 <= j < i ==> records[j] == ToRecord(rows[j])
      {
        records := records + [ToRecord(rows[i])];
      }
      result := Some(records);
    }

    /** KV.CreateOrUpdate. An error does not always mean that nothing was stored. */
    method CreateOrUpdate(realm: string, record: Record, fault: Fault) returns (ok: bool)
      requires Valid()
      modifies this
      ensures Valid() && (ok <==> fault == NoFault)
      ensures Contents() == if fault == Refused then old(Contents()) else Upsert(old(Contents()), realm, record)
    {
      if fault == Refused {
        return false;
      }
      rows := Replace(rows, Row(SlotOf(record, realm), CellOf(record)));
      ok := fault == NoFault;
    }

    /** KV.Delete. */
    method Delete(realm: string, record: Record, fault: Fault) returns (found: bool, ok: bool)
      requires Valid()
      modifies this
      ensures Valid() && (ok <==> fault == NoFault)
      ensures var u := User(record.ownerId, record.clientId);
              && Contents() == (if fault == Refused then old(Contents()) else Removed(old(Contents()), u, realm, record.key))
              && (found <==> ok && Matching(old(Contents()), ByKey(record.key), u, realm) != {})
    {
      if fault == Refused {
        return false, false;
      }
      var affected := DeleteWhere(record.key, User(record.ownerId, record.clientId), realm);
      if fault == Unreported {
        return false, false;
      }
      found, ok := affected > 0, true;
    }

    /**
     * KV.BatchCreateOrUpdate, called on an initialized store. All or nothing:
     * either every record is stored in order or the table stays as it was. It
     * reports success without storing exactly when no affected row was counted, and
     * an error in spite of storing exactly when the commit went unreported.
     */
    method BatchCreateOrUpdate(realm: string, records: seq<Record>, faults: BatchFaults) returns (ok: bool)
      requires Valid()
      modifies this
      ensures Valid()
      ensures Contents() == if BatchStores(|records|, faults) then UpsertAll(old(Contents()), realm, records) else old(Contents())
      ensures ok <==> BatchSucceeds(|records|, faults)
      ensures faults.begin || faults.prepare || (exists i :: 0 <= i < |records| && i in faults.exec) ==>
                !ok && Contents() == old(Contents())
      ensures !faults.begin && !faults.prepare && faults.exec == {} && (forall i :: 0 <= i < |records| ==> i in faults.uncounted) ==>
                ok && Contents() == old(Contents())
      ensures !faults.begin && !faults.prepare && faults.exec == {} && (exists i :: 0 <= i < |records| && i !in faults.uncounted) ==>
                && (ok <==> faults.commit == NoFault)
                && Contents() == if faults.commit == Refused then old(Contents()) else UpsertAll(old(Contents()), realm, records)
    {
      if faults.begin || faults.prepare {
        return false;
      }
      var tx := rows;
      var affected: nat := 0;
      for i := 0 to |records|
        invariant rows == old(rows) && Unique(tx)
        invariant ContentsOf(tx) == UpsertAll(old(Contents()), realm, records[..i])
        invariant forall j :: 0 <= j < i ==> j !in faults.exec
        invariant affected == 0 <==> forall j :: 0 <= j < i ==> j in faults.uncounted
      {
        if i in faults.exec {
          return false;
        }
        tx := Replace(tx, Row(SlotOf(records[i], realm), CellOf(records[i])));
        assert records[..i + 1][..i] == records[..i];
        if i !in faults.uncounted {
          affected := affected + 1;
        }
      }
      assert records[..|records|] == records;
      if affected == 0 {
        return true;
      }
      if faults.commit == Refused {
        return false;
      }
      rows := tx;
      ok := faults.commit == NoFault;
    }
  }
}
