// Requests to the kvs plugin and what they mean: what is left of a body once
// the form was parsed, the operation a request amounts to, and its answer.
module KvRequests {
  import opened Text
  import opened Base64
  import opened KvRecord
  import opened KvTable
  import opened KvRuns
  import opened KvStore

  const VALUE_SIZE_LIMIT: nat := 16384

  /** How much of a batch body its handler reads. */
  const BATCH_SIZE_LIMIT: nat := VALUE_SIZE_LIMIT * 500

  /** How much of a form body net/http's ParseForm accepts. */
  const FORM_SIZE_LIMIT: nat := 10 * 1024 * 1024

  const FORM_TYPE := "application/x-www-form-urlencoded"

  /** What is written to the client. A panicking handler writes nothing. */
  datatype Response =
    | Status(code: nat)
    | Entry(doc: RecordJSON)
    | Document(contentType: string, bytes: seq<Byte>)
    | Listing(chunks: seq<Chunk>)
    | Panicked

  /** The pieces an array response is written in. */
  datatype Chunk = Open | Comma | Close | Doc(doc: RecordJSON)

  /** The bytes that arrive, and whether reading fails after them. */
  datatype Body = Body(bytes: seq<Byte>, broken: bool)

  datatype Verb = GET | PUT | DELETE | OTHER

  /**
   * A request as sent; the flags are those of its URL. The faults are those of the
   * database calls it leads to.
   */
  datatype Request = Request(
    verb: Verb,
    user: Option<User>,
    key: string,
    recurse: bool,
    raw: bool,
    batch: bool,
    contentType: string,
    body: Body,
    fault: Fault,
    batchFaults: BatchFaults)

  /**
   * What the plugin takes from Go's libraries: which texts are JSON, the media type
   * of a Content-Type header, the first value that a form gives to `batch`, and the
   * array of records at the start of a text, nil pointers included, where the text
   * either ends or reading fails after it.
   */
  datatype Library = Library(
    validJSON: seq<Byte> -> bool,
    mediaType: string -> string,
    formBatch: seq<Byte> -> Option<string>,
    batchJSON: (seq<Byte>, bool) -> Option<seq<Option<RecordJSON>>>)

  // ---- ParseForm ----

  /** ParseForm reads the body of PUT requests of this media type itself. */
  predicate IsFormPut(req: Request, lib: Library) {
    req.verb == PUT && lib.mediaType(if req.contentType == "" then "application/octet-stream" else req.contentType) == FORM_TYPE
  }

  /** What ParseForm leaves of the body for the handlers: of a form nothing, or what exceeds its limit and one byte. */
  function BodyLeft(req: Request, lib: Library): (left: Body)
    ensures left.broken == req.body.broken && |left.bytes| <= |req.body.bytes|
  {
    if IsFormPut(req, lib) then Body(req.body.bytes[Min(|req.body.bytes|, FORM_SIZE_LIMIT + 1)..], req.body.broken) else req.body
  }

  /** What the body says about batch, if it is a form that ParseForm accepts. */
  function FormBatch(req: Request, lib: Library): Option<string> {
    if IsFormPut(req, lib) && !req.body.broken && 0 < |req.body.bytes| <= FORM_SIZE_LIMIT then lib.formBatch(req.body.bytes)
    else None
  }

  /** Values of the body come before those of the URL. */
  predicate IsBatch(req: Request, lib: Library) {
    var form := FormBatch(req, lib);
    if form.Some? then form.value == "1" else req.batch
  }

  /**
   * The records the handler of a batch decodes. Reading fails at the size limit, so
   * the array has to be complete before it; no bytes are no JSON.
   */
  function DecodedBatch(body: Body, lib: Library): Option<seq<Option<RecordJSON>>> {
    var seen := body.bytes[..Min(|body.bytes|, BATCH_SIZE_LIMIT)];
    if seen == [] then None else lib.batchJSON(seen, !body.broken && |body.bytes| <= BATCH_SIZE_LIMIT)
  }

  function BatchBody(req: Request, lib: Library): Option<seq<Option<RecordJSON>>> {
    DecodedBatch(BodyLeft(req, lib), lib)
  }

  /**
   * Which PUTs are batches: forms that say batch=1 or, if they say nothing about it or
   * are too long to be parsed, have it in the URL; and other requests that have it there.
   */
  lemma BatchFlag(req: Request, lib: Library, contentType: string)
    requires req.verb == PUT
    requires contentType == if req.contentType == "" then "application/octet-stream" else req.contentType
    ensures lib.mediaType(contentType) != "application/x-www-form-urlencoded" ==> (IsBatch(req, lib) <==> req.batch)
    ensures req.body.broken || |req.body.bytes| == 0 || |req.body.bytes| > 10 * 1024 * 1024 ==> (IsBatch(req, lib) <==> req.batch)
    ensures lib.mediaType(contentType) == "application/x-www-form-urlencoded"
            && !req.body.broken && 0 < |req.body.bytes| <= 10 * 1024 * 1024 ==>
              (IsBatch(req, lib) <==> match lib.formBatch(req.body.bytes) case Some(v) => v == "1" case None => req.batch)
  {
  }

  /** Handlers read what was sent, of a form only what follows its first 10 MiB and one byte. */
  lemma WhatIsLeft(req: Request, lib: Library) returns (taken: seq<Byte>)
    ensures req.body == Body(taken + BodyLeft(req, lib).bytes, BodyLeft(req, lib).broken)
    ensures !IsFormPut(req, lib) ==> taken == []
    ensures IsFormPut(req, lib) ==> |taken| == 10 * 1024 * 1024 + 1 || (|taken| <= 10 * 1024 * 1024 && BodyLeft(req, lib).bytes == [])
  {
    taken := req.body.bytes[..|req.body.bytes| - |BodyLeft(req, lib).bytes|];
    assert taken + BodyLeft(req, lib).bytes == req.body.bytes;
  }

  /** What the handler of a batch decodes of a body within its limit and of a longer one. */
  lemma WhatIsDecoded(body: Body, lib: Library)
    requires body.bytes != []
    ensures |body.bytes| <= 8_192_000 ==> DecodedBatch(body, lib) == lib.batchJSON(body.bytes, !body.broken)
    ensures |body.bytes| > 8_192_000 ==> DecodedBatch(body, lib) == lib.batchJSON(body.bytes[..8_192_000], false)
    ensures DecodedBatch(Body([], body.broken), lib) == None
  {
    if |body.bytes| <= 8_192_000 {
      assert body.bytes[..|body.bytes|] == body.bytes;
    }
  }

  // ---- Array responses ----

  function Joined(docs: seq<RecordJSON>): seq<Chunk> {
    if docs == [] then []
    else if |docs| == 1 then [Doc(docs[0])]
    else Joined(docs[..|docs| - 1]) + [Comma, Doc(docs[|docs| - 1])]
  }

  function Rendered(docs: seq<RecordJSON>): seq<Chunk> {
    [Open] + Joined(docs) + [Close]
  }

  lemma JoinedMore(docs: seq<RecordJSON>, d: RecordJSON)
    ensures [Open] + Joined(docs + [d])
            == if docs == [] then [Open, Doc(d)] else [Open] + Joined(docs) + [Comma] + [Doc(d)]
  {
    assert (docs + [d])[..|docs|] == docs;
  }

  lemma {:induction false} JoinedShape(docs: seq<RecordJSON>)
    requires docs != []
    ensures |Joined(docs)| == 2 * |docs| - 1
    ensures forall i :: 0 <= i < |docs| ==> Joined(docs)[2 * i] == Doc(docs[i])
    ensures forall i :: 0 < i < |docs| ==> Joined(docs)[2 * i - 1] == Comma
  {
    if |docs| > 1 {
      JoinedShape(docs[..|docs| - 1]);
    }
  }

  /** An array response is bracketed, has the documents in order and one comma between neighbours. */
  lemma RenderedShape(docs: seq<RecordJSON>)
    ensures Rendered(docs)[0] == Open && Rendered(docs)[|Rendered(docs)| - 1] == Close
    ensures |Rendered(docs)| == if docs == [] then 2 else 2 * |docs| + 1
    ensures forall i :: 0 <= i < |docs| ==> Rendered(docs)[2 * i + 1] == Doc(docs[i])
    ensures forall i :: 0 < i < |docs| ==> Rendered(docs)[2 * i] == Comma
  {
    if docs != [] {
      JoinedShape(docs);
      forall i | 0 < i < |docs| ensures Rendered(docs)[2 * i] == Comma {
        assert Rendered(docs)[2 * i] == Joined(docs)[2 * i - 1];
      }
    }
  }

  // ---- Recursive GET ----

  predicate Encodable(c: Cell, validJSON: seq<Byte> -> bool) {
    IsJSONType(c.contentType) ==> validJSON(c.value)
  }

  function Listed(rows: seq<Row>, key: string, validJSON: seq<Byte> -> bool): seq<RecordJSON> {
    if rows == [] then []
    else
      var init, r := Listed(rows[..|rows| - 1], key, validJSON), rows[|rows| - 1];
      if ('/' in key ==> key <= r.slot.key) && Encodable(r.cell, validJSON) then init + [Envelope(ToRecord(r))] else init
  }

  lemma ListedMore(rows: seq<Row>, i: nat, key: string, validJSON: seq<Byte> -> bool)
    requires i < |rows|
    ensures var before := Listed(rows[..i], key, validJSON);
            Listed(rows[..i + 1], key, validJSON)
            == if ('/' in key ==> key <= rows[i].slot.key) && Encodable(rows[i].cell, validJSON)
               then before + [Envelope(ToRecord(rows[i]))] else before
  {
    assert rows[..i + 1][..i] == rows[..i];
  }

  /** The envelopes of the given slots that can be encoded. */
  ghost function Envelopes(m: Contents, slots: set<Slot>, validJSON: seq<Byte> -> bool): set<RecordJSON> {
    set s | s in slots && s in m && Encodable(m[s], validJSON) :: Envelope(ToRecord(Row(s, m[s])))
  }

  /** What recursive GETs list: for each encodable row of theirs a document that holds it. */
  lemma DocumentsHold(m: Contents, slots: set<Slot>, validJSON: seq<Byte> -> bool)
    ensures forall d :: d in Envelopes(m, slots, validJSON) ==>
              exists s :: s in slots && s in m && Represents(d, s.key, m[s].value, m[s].contentType)
    ensures forall s :: s in slots && s in m && ("application/json" <= m[s].contentType ==> validJSON(m[s].value)) ==>
              exists d :: d in Envelopes(m, slots, validJSON) && Represents(d, s.key, m[s].value, m[s].contentType)
  {
    forall s | s in slots && s in m
      ensures Represents(Envelope(ToRecord(Row(s, m[s]))), s.key, m[s].value, m[s].contentType)
    {
      EnvelopeRepresents(ToRecord(Row(s, m[s])));
    }
  }

  ghost predicate Distinct(docs: seq<RecordJSON>) {
    forall i, j :: 0 <= i < j < |docs| ==> docs[i] != docs[j]
  }

  /** Every document of the listing is the envelope of a kept row and every kept row that can be encoded is listed. */
  lemma {:induction false} ListedIsKept(m: Contents, rows: seq<Row>, key: string, validJSON: seq<Byte> -> bool)
    requires Unique(rows) && forall r :: r in rows ==> r.slot in m && m[r.slot] == r.cell
    ensures (set d | d in Listed(rows, key, validJSON)) == Envelopes(m, Kept(Slots(rows), key), validJSON)
  {
    if rows != [] {
      var n := |rows| - 1;
      var init, r := rows[..n], rows[n];
      ListedIsKept(m, init, key, validJSON);
      assert rows == init + [r];
      assert Slots(rows) == Slots(init) + {r.slot};
      assert r == Row(r.slot, m[r.slot]);
      var kept := if '/' in key ==> key <= r.slot.key then {r.slot} else {};
      assert Kept(Slots(rows), key) == Kept(Slots(init), key) + kept;
      assert Envelopes(m, Kept(Slots(rows), key), validJSON)
          == Envelopes(m, Kept(Slots(init), key), validJSON) + Envelopes(m, kept, validJSON);
    }
  }

  lemma {:induction false} ListedDistinct(rows: seq<Row>, key: string, validJSON: seq<Byte> -> bool)
    requires forall i, j :: 0 <= i < j < |rows| ==> rows[i].slot.key != rows[j].slot.key
    ensures Distinct(Listed(rows, key, validJSON))
    ensures forall d :: d in Listed(rows, key, validJSON) ==> d.key.Some? && exists r :: r in rows && d.key.value == r.slot.key
  {
    if rows != [] {
      var n := |rows| - 1;
      ListedDistinct(rows[..n], key, validJSON);
      var init := Listed(rows[..n], key, validJSON);
      forall i | 0 <= i < |init| ensures init[i].key != Some(rows[n].slot.key) {
        assert init[i] in init;
      }
    }
  }

  /** End to end: after any run, a recursive GET under the limit lists exactly the encodable rows a key scan finds. */
  lemma ListingAfterRun(ops: seq<Op>, u: User, realm: string, key: string, got: seq<Row>, validJSON: seq<Byte> -> bool)
    requires Unique(got) && forall r :: r in got ==> r.slot in Run(ops) && Run(ops)[r.slot] == r.cell
    requires Limited(Candidates(Run(ops), u, realm, key), Slots(got))
    requires |Candidates(Run(ops), u, realm, key)| <= LIMIT
    ensures (set d | d in Listed(got, key, validJSON)) == Envelopes(Run(ops), Scan(Run(ops), u, realm, key), validJSON)
  {
    RecursiveGet(ops, u, realm, key, Slots(got));
    ListedIsKept(Run(ops), got, key, validJSON);
  }

  /** Rows of one owner and realm have different keys. */
  lemma OwnKeysDiffer(m: Contents, q: Query, u: User, realm: string, rows: seq<Row>)
    requires Unique(rows) && Slots(rows) <= Matching(m, q, u, realm)
    ensures forall i, j :: 0 <= i < j < |rows| ==> rows[i].slot.key != rows[j].slot.key
  {
    forall i, j | 0 <= i < j < |rows| ensures rows[i].slot.key != rows[j].slot.key {
      assert rows[i].slot in Slots(rows) && rows[j].slot in Slots(rows);
    }
  }

  // ---- Batch bodies ----

  /** What becomes of a batch body: the first record without key or with malformed value decides. */
  datatype Prepared = Ready(items: seq<Item>) | Malformed | MissingKey

  /** Dereferencing the key of this element panics: it is a nil pointer, or its key is. */
  predicate Keyless(ir: Option<RecordJSON>) {
    ir.None? || ir.value.key.None?
  }

  /** The record can be stored. */
  predicate Storable(ir: Option<RecordJSON>) {
    !Keyless(ir) && StoredValue(ir.value).Some?
  }

  function ItemOf(ir: Option<RecordJSON>): Item
    requires Storable(ir)
  {
    Item(ir.value.key.value, StoredValue(ir.value).value, ir.value.contentType)
  }

  function Prepare(irs: seq<Option<RecordJSON>>): Prepared {
    if irs == [] then Ready([])
    else
      var init, ir := Prepare(irs[..|irs| - 1]), irs[|irs| - 1];
      if !init.Ready? then init
      else if Keyless(ir) then MissingKey
      else if !Storable(ir) then Malformed
      else Ready(init.items + [ItemOf(ir)])
  }

  lemma PrepareMore(irs: seq<Option<RecordJSON>>, ir: Option<RecordJSON>)
    ensures Prepare(irs + [ir]).Ready? <==> Prepare(irs).Ready? && Storable(ir)
    ensures Prepare(irs + [ir]).Ready? ==> Prepare(irs + [ir]) == Ready(Prepare(irs).items + [ItemOf(ir)])
  {
    assert (irs + [ir])[..|irs|] == irs;
  }

  /** A batch goes through exactly when each of its records would, and then record by record. */
  lemma {:induction false} PreparedExactly(irs: seq<Option<RecordJSON>>)
    ensures Prepare(irs).Ready? <==> forall i :: 0 <= i < |irs| ==> Storable(irs[i])
    ensures Prepare(irs).Ready? ==>
              && |Prepare(irs).items| == |irs|
              && forall i :: 0 <= i < |irs| ==> Storable(irs[i]) && Prepare(irs).items[i] == ItemOf(irs[i])
  {
    if irs != [] {
      var init, last := irs[..|irs| - 1], irs[|irs| - 1];
      PreparedExactly(init);
      PrepareMore(init, last);
      assert irs == init + [last];
    }
  }

  lemma {:induction false} PrepareStops(irs: seq<Option<RecordJSON>>, n: nat)
    requires n <= |irs| && !Prepare(irs[..n]).Ready?
    ensures Prepare(irs) == Prepare(irs[..n])
  {
    if n < |irs| {
      var init := irs[..|irs| - 1];
      assert init[..n] == irs[..n];
      PrepareStops(init, n);
    } else {
      assert irs[..n] == irs;
    }
  }

  /** One element further. */
  lemma PrepareNext(irs: seq<Option<RecordJSON>>, i: nat, items: seq<Item>)
    requires i < |irs| && Prepare(irs[..i]) == Ready(items)
    ensures Keyless(irs[i]) ==> Prepare(irs) == MissingKey
    ensures !Keyless(irs[i]) && !Storable(irs[i]) ==> Prepare(irs) == Malformed
    ensures Storable(irs[i]) ==> Prepare(irs[..i + 1]) == Ready(items + [ItemOf(irs[i])])
  {
    assert irs[..i + 1][..i] == irs[..i];
    if !Storable(irs[i]) {
      PrepareStops(irs, i + 1);
    }
  }

  /** Element `i` is the first that cannot be stored. */
  predicate FirstBad(irs: seq<Option<RecordJSON>>, i: nat) {
    i < |irs| && !Storable(irs[i]) && forall j :: 0 <= j < i ==> Storable(irs[j])
  }

  lemma FirstBadDecides(irs: seq<Option<RecordJSON>>, i: nat)
    requires FirstBad(irs, i)
    ensures Prepare(irs) == if Keyless(irs[i]) then MissingKey else Malformed
  {
    var head := irs[..i];
    assert irs[..i + 1][..i] == head;
    PreparedExactly(head);
    PrepareStops(irs, i + 1);
  }

  lemma {:induction false} SomeFirstBad(irs: seq<Option<RecordJSON>>) returns (i: nat)
    requires !Prepare(irs).Ready?
    ensures FirstBad(irs, i)
  {
    var n := |irs| - 1;
    if Prepare(irs[..n]).Ready? {
      PreparedExactly(irs[..n]);
      assert forall j :: 0 <= j < n ==> irs[j] == irs[..n][j];
      i := n;
    } else {
      i := SomeFirstBad(irs[..n]);
    }
  }

  /**
   * The handler panics exactly on bodies with an element that has no key and is
   * preceded by nothing but records that can be stored; and it calls a body
   * malformed exactly if such an element has a key, but no decodable value.
   */
  lemma PanicsExactly(irs: seq<Option<RecordJSON>>)
    ensures Prepare(irs).MissingKey?
            <==> exists i :: 0 <= i < |irs| && Keyless(irs[i]) && forall j :: 0 <= j < i ==> Storable(irs[j])
    ensures Prepare(irs).Malformed?
            <==> exists i :: 0 <= i < |irs| && !Keyless(irs[i]) && !Storable(irs[i]) && forall j :: 0 <= j < i ==> Storable(irs[j])
  {
    forall i | 0 <= i < |irs| && FirstBad(irs, i)
      ensures Prepare(irs) == if Keyless(irs[i]) then MissingKey else Malformed
    {
      FirstBadDecides(irs, i);
    }
    if !Prepare(irs).Ready? {
      var i := SomeFirstBad(irs);
      assert FirstBad(irs, i);
    }
  }

  function RecordOf(u: User, prefix: string, it: Item): Record {
    Record(Some(FirstPart(prefix)), BatchKey(prefix, it.key), it.value, it.contentType, u.owner, u.client, "")
  }

  lemma {:induction false} UpsertAllIsPutItems(m: Contents, u: User, realm: string, prefix: string, items: seq<Item>, records: seq<Record>)
    requires |records| == |items| && forall i :: 0 <= i < |items| ==> records[i] == RecordOf(u, prefix, items[i])
    ensures UpsertAll(m, realm, records) == PutItems(m, u, realm, prefix, items)
  {
    if items != [] {
      var n := |items| - 1;
      UpsertAllIsPutItems(m, u, realm, prefix, items[..n], records[..n]);
    }
  }

  // ---- What a request does and how it is answered ----

  predicate IsRecursiveGet(req: Request) {
    req.user.Some? && req.verb == GET && req.recurse && req.fault == NoFault
  }

  predicate Readable(body: Body) {
    !body.broken && |body.bytes| <= VALUE_SIZE_LIMIT
  }

  /** The items of a batch body that can be stored, if it has any and all of them can. */
  function BatchItems(body: Option<seq<Option<RecordJSON>>>): Option<seq<Item>> {
    if body.None? || body.value == [] || !Prepare(body.value).Ready? then None else Some(Prepare(body.value).items)
  }

  /** At most one operation, and one of the caller. */
  ghost function Effect(req: Request, lib: Library): (ops: seq<Op>)
    ensures |ops| <= 1 && forall op :: op in ops ==> req.user == Some(op.user) && op.realm == "user"
  {
    if req.user.None? then []
    else
      var u := req.user.value;
      match req.verb
      case PUT =>
        if IsBatch(req, lib) then
          var items := BatchItems(BatchBody(req, lib));
          if items.Some? && BatchStores(|items.value|, req.batchFaults) then [Batch(u, "user", req.key, items.value)] else []
        else if Readable(BodyLeft(req, lib)) && req.fault != Refused then
          [Put(u, "user", req.key, BodyLeft(req, lib).bytes, req.contentType)]
        else []
      case DELETE => if req.fault != Refused then [Delete(u, "user", req.key)] else []
      case _ => []
  }

  lemma EffectAlone(m: Contents, req: Request, lib: Library)
    ensures ApplyAll(m, Effect(req, lib)) == if Effect(req, lib) == [] then m else Apply(m, Effect(req, lib)[0])
  {
    if Effect(req, lib) != [] {
      assert Effect(req, lib) == [Effect(req, lib)[0]];
      SingleOp(m, Effect(req, lib)[0]);
    }
  }

  ghost function Effects(requests: seq<Request>, lib: Library): seq<Op> {
    if requests == [] then []
    else Effects(requests[..|requests| - 1], lib) + Effect(requests[|requests| - 1], lib)
  }

  lemma EffectsMore(m: Contents, requests: seq<Request>, i: nat, lib: Library)
    requires i < |requests|
    ensures ApplyAll(m, Effects(requests[..i + 1], lib))
            == ApplyAll(ApplyAll(m, Effects(requests[..i], lib)), Effect(requests[i], lib))
  {
    assert requests[..i + 1][..i] == requests[..i];
    ApplyAllJoin(m, Effects(requests[..i], lib), Effect(requests[i], lib));
  }

  function StatusOf(ok: bool): Response {
    Status(if ok then 200 else 500)
  }

  ghost function AnswerBatch(body: Option<seq<Option<RecordJSON>>>, faults: BatchFaults): Response {
    if body.None? then Status(400)
    else
      match Prepare(body.value)
      case Malformed => Status(400)
      case MissingKey => Panicked
      case Ready(items) => StatusOf(items == [] || BatchSucceeds(|items|, faults))
  }

  function GotOne(s: Slot, c: Cell, raw: bool, validJSON: seq<Byte> -> bool): Response {
    if raw then Document(if c.contentType != "" then c.contentType else "application/octet-stream", c.value)
    else if Encodable(c, validJSON) then Entry(Envelope(ToRecord(Row(s, c))))
    else Status(500)
  }

  /** The answer to a request that is not a recursive GET, from the table as it was. */
  ghost function Answer(m: Contents, req: Request, lib: Library): Response
    requires !IsRecursiveGet(req)
  {
    if req.user.None? then Status(403)
    else
      var u := req.user.value;
      match req.verb
      case GET =>
        var s := Slot(req.key, u.owner, "user");
        if req.fault != NoFault then Status(500)
        else if s in Matching(m, ByKey(req.key), u, "user") then GotOne(s, m[s], req.raw, lib.validJSON)
        else Status(404)
      case PUT =>
        if IsBatch(req, lib) then AnswerBatch(BatchBody(req, lib), req.batchFaults)
        else if !Readable(BodyLeft(req, lib)) then Status(400)
        else StatusOf(req.fault == NoFault)
      case DELETE =>
        if req.fault != NoFault then Status(500)
        else Status(if Matching(m, ByKey(req.key), u, "user") != {} then 200 else 404)
      case OTHER => Status(501)
  }

  /** A response to a recursive GET of `key` is the listing of rows a key scan finds, and of all of them under the limit. */
  ghost predicate ListsScan(resp: Response, m: Contents, u: User, key: string, validJSON: seq<Byte> -> bool) {
    exists docs: seq<RecordJSON> ::
      && resp == Listing(Rendered(docs)) && Distinct(docs)
      && (set d | d in docs) <= Envelopes(m, Scan(m, u, "user", key), validJSON)
      && (|Candidates(m, u, "user", key)| <= LIMIT ==> (set d | d in docs) == Envelopes(m, Scan(m, u, "user", key), validJSON))
  }

  lemma ListingListsScan(ops: seq<Op>, u: User, key: string, got: set<Slot>, docs: seq<RecordJSON>, validJSON: seq<Byte> -> bool)
    requires Limited(Candidates(Run(ops), u, "user", key), got)
    requires Distinct(docs) && (set d | d in docs) == Envelopes(Run(ops), Kept(got, key), validJSON)
    ensures ListsScan(Listing(Rendered(docs)), Run(ops), u, key, validJSON)
  {
    RecursiveGet(ops, u, "user", key, got);
  }

  /** The response to a request at a table with these contents. */
  ghost predicate Answered(m: Contents, req: Request, resp: Response, lib: Library) {
    if IsRecursiveGet(req) then ListsScan(resp, m, req.user.value, req.key, lib.validJSON) else resp == Answer(m, req, lib)
  }

  /** Request `i` has been answered by the table as it was then; of recursive GETs this is said if the table was empty at first. */
  ghost predicate AnsweredAt(m: Contents, requests: seq<Request>, i: nat, resp: Response, lib: Library)
    requires i < |requests|
  {
    !IsRecursiveGet(requests[i]) || m == map[] ==> Answered(ApplyAll(m, Effects(requests[..i], lib)), requests[i], resp, lib)
  }

  ghost predicate AllAnswered(m: Contents, requests: seq<Request>, responses: seq<Response>, lib: Library)
    requires |responses| <= |requests|
    decreases |responses|
  {
    responses == []
    || var n := |responses| - 1;
       AllAnswered(m, requests, responses[..n], lib) && AnsweredAt(m, requests, n, responses[n], lib)
  }

  lemma AnsweredMore(m: Contents, requests: seq<Request>, responses: seq<Response>, resp: Response, lib: Library)
    requires |responses| < |requests| && AllAnswered(m, requests, responses, lib)
    requires AnsweredAt(m, requests, |responses|, resp, lib)
    ensures AllAnswered(m, requests, responses + [resp], lib)
  {
    assert (responses + [resp])[..|responses|] == responses;
  }

  lemma {:induction false} EachAnswered(m: Contents, requests: seq<Request>, responses: seq<Response>, i: nat, lib: Library)
    requires i < |responses| <= |requests| && AllAnswered(m, requests, responses, lib)
    ensures AnsweredAt(m, requests, i, responses[i], lib)
  {
    if i < |responses| - 1 {
      EachAnswered(m, requests, responses[..|responses| - 1], i, lib);
    }
  }

  // ---- The limit of a batch ----

  /** A body whose array is not complete within the limit is answered 400, however it goes on, and nothing is stored. */
  lemma IncompleteBatchRefused(m: Contents, req: Request, lib: Library)
    requires req.user.Some? && req.verb == PUT && IsBatch(req, lib) && |BodyLeft(req, lib).bytes| > 8_192_000
    requires lib.batchJSON(BodyLeft(req, lib).bytes[..8_192_000], false).None?
    ensures Answer(m, req, lib) == Status(400) && ApplyAll(m, Effect(req, lib)) == m
  {
    EffectAlone(m, req, lib);
  }

  /** Of a batch body that exceeds the limit, what lies beyond it matters neither for the answer nor for the table. */
  lemma BeyondLimitIgnored(m: Contents, req: Request, other: Request, lib: Library)
    requires req.verb == PUT && req.batch && !IsFormPut(req, lib) && other == req.(body := other.body)
    requires |req.body.bytes| > 8_192_000 && |other.body.bytes| > 8_192_000
    requires other.body.bytes[..8_192_000] == req.body.bytes[..8_192_000]
    ensures Answer(m, other, lib) == Answer(m, req, lib) && Effect(other, lib) == Effect(req, lib)
  {
    assert BatchBody(other, lib) == BatchBody(req, lib);
  }

  // ---- Panics ----

  /** A request makes its handler panic exactly if it is a batch whose first unstorable element has no key; nothing is stored then. */
  lemma RequestPanicsExactly(m: Contents, req: Request, lib: Library)
    requires !IsRecursiveGet(req)
    ensures Answer(m, req, lib) == Panicked
            <==> && req.user.Some? && req.verb == PUT && IsBatch(req, lib) && BatchBody(req, lib).Some?
                 && var irs := BatchBody(req, lib).value;
                 exists i :: 0 <= i < |irs| && Keyless(irs[i]) && forall j :: 0 <= j < i ==> Storable(irs[j])
    ensures Answer(m, req, lib) == Panicked ==> ApplyAll(m, Effect(req, lib)) == m
  {
    if BatchBody(req, lib).Some? {
      PanicsExactly(BatchBody(req, lib).value);
    }
    EffectAlone(m, req, lib);
  }

  /** Bodies that panic, and one that would, were its first record not malformed. */
  lemma PanickingBodies()
    ensures Prepare([None]).MissingKey?
    ensures Prepare([Some(RecordJSON(None, [], ""))]).MissingKey?
    ensures Prepare([Some(RecordJSON(Some("k"), [0], "")), None]).Malformed?
  {
    var malformed := Some(RecordJSON(Some("k"), [0], ""));
    assert Decode([0]).None?;
    assert FirstBad([None], 0) && FirstBad([Some(RecordJSON(None, [], ""))], 0) && FirstBad([malformed, None], 0);
    FirstBadDecides([None], 0);
    FirstBadDecides([Some(RecordJSON(None, [], ""))], 0);
    FirstBadDecides([malformed, None], 0);
  }

  // ---- Reading back a PUT ----

  /** After the PUT, the raw GET of the same client returns the body as it was sent. */
  ghost predicate ReadsBack(m: Contents, put: Request, lib: Library)
  {
    Answer(ApplyAll(m, Effect(put, lib)), put.(verb := GET, recurse := false, raw := true), lib)
    == Document(if put.contentType != "" then put.contentType else "application/octet-stream", put.body.bytes)
  }

  /** What a PUT that stores `value` means for the next raw GET. */
  lemma PutAnswers(m: Contents, put: Request, value: seq<Byte>, lib: Library)
    requires put.user.Some?
    requires Effect(put, lib) == [Put(put.user.value, "user", put.key, value, put.contentType)] && put.fault == NoFault
    ensures var s := Slot(put.key, put.user.value.owner, "user");
            var after := ApplyAll(m, Effect(put, lib));
            && s in after && after[s].value == value
            && Answer(after, put.(verb := GET, recurse := false, raw := true), lib)
               == Document(if put.contentType != "" then put.contentType else "application/octet-stream", value)
  {
    var u := put.user.value;
    SingleOp(m, Put(u, "user", put.key, value, put.contentType));
    assert ApplyAll(Apply(m, Put(u, "user", put.key, value, put.contentType)), [])
        == Apply(m, Put(u, "user", put.key, value, put.contentType));
    PutIsReadBack(m, u, "user", put.key, value, put.contentType, []);
  }

  /** A form body within ParseForm's limit is lost: the PUT succeeds and stores the empty value. */
  lemma FormPutStoresNothing(m: Contents, put: Request, lib: Library)
    requires put.user.Some? && put.fault == NoFault && !IsBatch(put, lib)
    requires IsFormPut(put, lib) && !put.body.broken && 0 < |put.body.bytes| <= 10 * 1024 * 1024
    ensures Answer(m, put, lib) == Status(200) && !ReadsBack(m, put, lib)
    ensures var s := Slot(put.key, put.user.value.owner, "user");
            var after := ApplyAll(m, Effect(put, lib));
            s in after && after[s].value == []
  {
    assert BodyLeft(put, lib) == Body([], false);
    PutAnswers(m, put, [], lib);
  }

  /** A batch never stores anything under its own prefix. */
  lemma BatchLeavesPrefix(put: Request, lib: Library)
    requires put.user.Some? && put.verb == PUT && IsBatch(put, lib)
    ensures Slot(put.key, put.user.value.owner, "user") !in ApplyAll(map[], Effect(put, lib))
  {
    var u := put.user.value;
    if Effect(put, lib) != [] {
      var items := BatchItems(BatchBody(put, lib)).value;
      assert Effect(put, lib) == [Batch(u, "user", put.key, items)];
      SingleOp(map[], Batch(u, "user", put.key, items));
      forall i | 0 <= i < |items| ensures BatchKey(put.key, items[i].key) != put.key {
        assert |BatchKey(put.key, items[i].key)| > |put.key|;
      }
      BatchTouchesItsKeysOnly(map[], u, "user", put.key, items, Slot(put.key, u.owner, "user"));
    }
  }

  lemma NothingToReadBack(put: Request, lib: Library)
    requires put.verb == PUT && put.user.Some? && put.fault == NoFault && (IsBatch(put, lib) || !Readable(BodyLeft(put, lib)))
    ensures !ReadsBack(map[], put, lib)
  {
    if IsBatch(put, lib) {
      BatchLeavesPrefix(put, lib);
    } else {
      assert Effect(put, lib) == [];
    }
  }

  /**
   * A PUT without database failure is read back as it was sent, whatever the table
   * held before, if and only if it can be read within the size limit and is not a
   * form, or an empty one.
   */
  lemma PutReadBackExactly(put: Request, lib: Library)
    requires put.verb == PUT && put.user.Some? && put.fault == NoFault && !put.batch
    ensures (forall m :: ReadsBack(m, put, lib))
            <==> !put.body.broken && |put.body.bytes| <= 16384 && (!IsFormPut(put, lib) || put.body.bytes == [])
  {
    var left := BodyLeft(put, lib).bytes;
    if !IsBatch(put, lib) && Readable(BodyLeft(put, lib)) {
      forall m ensures ReadsBack(m, put, lib) <==> left == put.body.bytes {
        PutAnswers(m, put, left, lib);
      }
      assert ReadsBack(map[], put, lib) <==> left == put.body.bytes;
    } else {
      NothingToReadBack(put, lib);
      assert !ReadsBack(map[], put, lib);
    }
  }

  // ---- What was stored is what is got ----

  /** None of the requests writes or deletes in the slot. */
  ghost predicate LeaveAlone(requests: seq<Request>, s: Slot, lib: Library) {
    forall op :: op in Effects(requests, lib) ==> !Touches(op, s)
  }

  /** GETs, requests of other owners and single writes of other keys leave a slot alone. */
  lemma OthersLeaveAlone(req: Request, s: Slot, lib: Library)
    requires req.user.Some?
    requires req.verb == GET || req.user.value.owner != s.owner || s.realm != "user"
             || (req.key != s.key && !(req.verb == PUT && IsBatch(req, lib)))
    ensures LeaveAlone([req], s, lib)
  {
    assert [req][..0] == [];
    assert Effects([req], lib) == [] + Effect(req, lib);
  }

  /** A GET of one key, of the same user as the given request. */
  predicate IsGetOf(get: Request, other: Request, key: string) {
    get.verb == GET && get.user == other.user && get.key == key && !get.recurse && get.fault == NoFault
  }

  /** How a GET is answered from the cell of its key. */
  ghost predicate Gives(resp: Response, key: string, value: seq<Byte>, contentType: string, raw: bool, validJSON: seq<Byte> -> bool) {
    if raw then resp == Document(if contentType == "" then "application/octet-stream" else contentType, value)
    else if "application/json" <= contentType && !validJSON(value) then resp == Status(500)
    else resp.Entry? && Represents(resp.doc, key, value, contentType)
  }

  lemma CellGiven(m: Contents, get: Request, other: Request, key: string, c: Cell, lib: Library)
    requires other.user.Some? && IsGetOf(get, other, key)
    requires var s := Slot(key, other.user.value.owner, "user"); s in m && m[s] == c && c.client == other.user.value.client
    ensures Gives(Answer(m, get, lib), key, c.value, c.contentType, get.raw, lib.validJSON)
  {
    var s := Slot(key, other.user.value.owner, "user");
    KeyMatches(m, other.user.value, "user", key);
    EnvelopeRepresents(ToRecord(Row(s, c)));
  }

  /**
   * A PUT and then a GET of the same key: after any requests that leave the key alone
   * the answer holds the body as it was sent, a JSON body as it is, and its content type.
   */
  lemma PutThenGet(m: Contents, put: Request, later: seq<Request>, get: Request, lib: Library)
    requires put.verb == PUT && put.user.Some? && put.fault == NoFault && !put.batch && !IsFormPut(put, lib)
    requires !put.body.broken && |put.body.bytes| <= 16384
    requires LeaveAlone(later, Slot(put.key, put.user.value.owner, "user"), lib) && IsGetOf(get, put, put.key)
    ensures Answer(m, put, lib) == Status(200)
    ensures var after := ApplyAll(ApplyAll(m, Effect(put, lib)), Effects(later, lib));
            Gives(Answer(after, get, lib), put.key, put.body.bytes, put.contentType, get.raw, lib.validJSON)
  {
    var u, s := put.user.value, Slot(put.key, put.user.value.owner, "user");
    var after := ApplyAll(m, Effect(put, lib));
    PutAnswers(m, put, put.body.bytes, lib);
    EffectAlone(m, put, lib);
    UntouchedByAll(after, Effects(later, lib), s);
    CellGiven(ApplyAll(after, Effects(later, lib)), get, put, put.key, after[s], lib);
  }

  /** What a batch stores of an entry: a JSON value as sent, else the decoded bytes and then zeros to fill the buffer. */
  ghost predicate StoredAs(ir: RecordJSON, v: seq<Byte>) {
    if "application/json" <= ir.contentType then v == ir.value
    else
      var decoded := Decode(TrimQuotes(ir.value));
      && decoded.Some? && |decoded.value| <= |v| == |ir.value| / 4 * 3
      && v[..|decoded.value|] == decoded.value
      && forall k :: |decoded.value| <= k < |v| ==> v[k] == 0
  }

  lemma StoredValueExactly(ir: RecordJSON)
    ensures StoredValue(ir).Some? <==> "application/json" <= ir.contentType || Decode(TrimQuotes(ir.value)).Some?
    ensures StoredValue(ir).Some? ==> StoredAs(ir, StoredValue(ir).value)
  {
    if !IsJSONType(ir.contentType) {
      DecodeFits(TrimQuotes(ir.value));
    }
  }

  /** The element is a record with a key and a value that can be stored. */
  predicate Acceptable(ir: Option<RecordJSON>) {
    ir.Some? && ir.value.key.Some? && ("application/json" <= ir.value.contentType || Decode(TrimQuotes(ir.value.value)).Some?)
  }

  /** Element `i` is the last one with that key. */
  predicate LastWith(irs: seq<Option<RecordJSON>>, i: nat, key: string) {
    && i < |irs| && irs[i].Some? && irs[i].value.key == Some(key)
    && forall j :: i < j < |irs| ==> irs[j].None? || irs[j].value.key != Some(key)
  }

  const NO_FAULTS := BatchFaults(false, false, {}, {}, NoFault)

  lemma AcceptableIsStored(m: Contents, put: Request, irs: seq<Option<RecordJSON>>, i: nat, key: string, lib: Library) returns (cell: Cell)
    requires put.verb == PUT && put.user.Some? && IsBatch(put, lib) && put.batchFaults == NO_FAULTS
    requires BatchBody(put, lib) == Some(irs) && (forall j :: 0 <= j < |irs| ==> Acceptable(irs[j]))
    requires LastWith(irs, i, key)
    ensures Answer(m, put, lib) == Status(200)
    ensures var after := ApplyAll(m, Effect(put, lib));
            var s := Slot(put.key + "/" + key, put.user.value.owner, "user");
            && s in after && after[s] == cell && cell.client == put.user.value.client
            && StoredAs(irs[i].value, cell.value) && cell.contentType == irs[i].value.contentType
  {
    var u := put.user.value;
    forall j | 0 <= j < |irs| ensures Storable(irs[j]) {
      assert Acceptable(irs[j]);
      StoredValueExactly(irs[j].value);
    }
    PreparedExactly(irs);
    var items := Prepare(irs).items;
    assert 0 !in NO_FAULTS.uncounted;
    assert Effect(put, lib) == [Batch(u, "user", put.key, items)];
    EffectAlone(m, put, lib);
    assert forall j :: i < j < |items| ==> items[j].key != items[i].key;
    LastDuplicateWins(m, u, "user", put.key, items, i);
    StoredValueExactly(irs[i].value);
    cell := Cell(u.client, Some(FirstPart(put.key)), items[i].value, items[i].contentType, "");
  }

  /**
   * A batch PUT and then a GET of one of its keys, which is the path, a slash and the
   * key of the entry: after any requests that leave it alone the answer holds what the
   * last entry with that key sent.
   */
  lemma BatchThenGet(
      m: Contents, put: Request, irs: seq<Option<RecordJSON>>, i: nat, key: string, later: seq<Request>, get: Request, lib: Library)
    returns (value: seq<Byte>)
    requires put.verb == PUT && put.user.Some? && IsBatch(put, lib) && put.batchFaults == NO_FAULTS
    requires BatchBody(put, lib) == Some(irs) && (forall j :: 0 <= j < |irs| ==> Acceptable(irs[j]))
    requires LastWith(irs, i, key)
    requires LeaveAlone(later, Slot(put.key + "/" + key, put.user.value.owner, "user"), lib)
    requires IsGetOf(get, put, put.key + "/" + key)
    ensures Answer(m, put, lib) == Status(200) && StoredAs(irs[i].value, value)
    ensures var after := ApplyAll(ApplyAll(m, Effect(put, lib)), Effects(later, lib));
            Gives(Answer(after, get, lib), get.key, value, irs[i].value.contentType, get.raw, lib.validJSON)
  {
    var path := put.key + "/" + key;
    var cell := AcceptableIsStored(m, put, irs, i, key, lib);
    var after := ApplyAll(m, Effect(put, lib));
    UntouchedByAll(after, Effects(later, lib), Slot(path, put.user.value.owner, "user"));
    CellGiven(ApplyAll(after, Effects(later, lib)), get, put, path, cell, lib);
    value := cell.value;
  }

  /**
   * After a DELETE that was not refused, a GET and another DELETE of the key by the same
   * user are answered 404, until some request touches the key again.
   */
  lemma DeleteThenNotFound(m: Contents, del: Request, later: seq<Request>, again: Request, lib: Library)
    requires del.verb == DELETE && del.user.Some? && del.fault != Refused
    requires LeaveAlone(later, Slot(del.key, del.user.value.owner, "user"), lib)
    requires IsGetOf(again, del, del.key) || again == del.(fault := NoFault)
    ensures Answer(ApplyAll(ApplyAll(m, Effect(del, lib)), Effects(later, lib)), again, lib) == Status(404)
  {
    EffectAlone(m, del, lib);
    DeletedIsGone(m, del.user.value, "user", del.key, Effects(later, lib));
  }
}
