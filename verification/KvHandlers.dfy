// The HTTP handlers of the kvs plugin.
module KvHandlers {
  import opened Text
  import opened Base64
  import opened KvRecord
  import opened KvTable
  import opened KvRuns
  import opened KvStore
  import opened KvRequests

  class Plugin {
    const store: Store
    const lib: Library

    ghost predicate Valid()
      reads store
    {
      store.Valid()
    }

    ghost function Contents(): Contents
      reads store
      requires Valid()
    {
      store.Contents()
    }

    constructor (lib: Library)
      ensures Valid() && fresh(store) && Contents() == map[] && this.lib == lib
    {
      this.lib := lib;
      store := new Store();
    }

    method RespondOne(u: User, realm: string, key: string, raw: bool, result: seq<Record>, ghost got: seq<Row>)
      returns (resp: Response)
      requires Valid()
      requires |result| == |got| && forall i :: 0 <= i < |got| ==> result[i] == ToRecord(got[i])
      requires Limited(Matching(Contents(), ByKey(key), u, realm), Slots(got)) && |Slots(got)| == |got|
      requires forall r :: r in got ==> r.slot in Contents() && Contents()[r.slot] == r.cell
      ensures var s := Slot(key, u.owner, realm);
              if Matching(Contents(), ByKey(key), u, realm) == {} then resp == Status(404)
              else s in Contents() && resp == GotOne(s, Contents()[s], raw, lib.validJSON)
    {
      ExactGetIsSingle(Contents(), u, realm, key, Slots(got));
      if |result| == 0 {
        return Status(404);
      }
      assert got[0].slot in Slots(got);
      var r := result[0];
      if raw {
        return Document(if r.contentType != "" then r.contentType else "application/octet-stream", r.value);
      }
      var d := EncodeToJSON(r, lib.validJSON);
      resp := if d.None? then Status(500) else Entry(d.value);
    }

    method RespondArray(key: string, filter: bool, result: seq<Record>, ghost got: seq<Row>) returns (resp: Response)
      requires filter <==> '/' in key
      requires |result| == |got| && forall i :: 0 <= i < |got| ==> result[i] == ToRecord(got[i])
      ensures resp == Listing(Rendered(Listed(got, key, lib.validJSON)))
    {
      var chunks := [Open];
      var first := true;
      for i := 0 to |result|
        invariant first <==> Listed(got[..i], key, lib.validJSON) == []
        invariant chunks == [Open] + Joined(Listed(got[..i], key, lib.validJSON))
      {
        ListedMore(got, i, key, lib.validJSON);
        if filter && !(key <= result[i].key) {
          continue;
        }
        var d := EncodeToJSON(result[i], lib.validJSON);
        if d.None? {
          continue;
        }
        JoinedMore(Listed(got[..i], key, lib.validJSON), d.value);
        if first {
          first := false;
        } else {
          chunks := chunks + [Comma];
        }
        chunks := chunks + [Doc(d.value)];
      }
      assert got[..|got|] == got;
      resp := Listing(chunks + [Close]);
    }

    method HandleGet(u: User, realm: string, key: string, recurse: bool, raw: bool, fault: Fault)
      returns (resp: Response, ghost got: seq<Row>)
      requires Valid()
      ensures fault != NoFault ==> resp == Status(500)
      ensures fault == NoFault && !recurse ==>
                var s := Slot(key, u.owner, realm);
                if Matching(Contents(), ByKey(key), u, realm) == {} then resp == Status(404)
                else
                  && s in Contents()
                  && resp == GotOne(s, Contents()[s], raw, lib.validJSON)
      ensures fault == NoFault && recurse ==>
                && Limited(Candidates(Contents(), u, realm, key), Slots(got))
                && resp == Listing(Rendered(Listed(got, key, lib.validJSON)))
                && Distinct(Listed(got, key, lib.validJSON))
                && (set d | d in Listed(got, key, lib.validJSON)) == Envelopes(Contents(), Kept(Slots(got), key), lib.validJSON)
    {
      var parts := SplitSlash(key);
      var collection := if recurse then Some(parts[0]) else None;
      var record := Record(collection, key, [], "", u.owner, u.client, "");
      var result;
      result, got := store.Get(realm, record, fault);
      if result.None? {
        return Status(500), got;
      }
      if !recurse {
        resp := RespondOne(u, realm, key, raw, result.value, got);
        return;
      }
      OwnKeysDiffer(Contents(), ByCollection(parts[0]), u, realm, got);
      ListedDistinct(got, key, lib.validJSON);
      ListedIsKept(Contents(), got, key, lib.validJSON);
      resp := RespondArray(key, |parts| > 1, result.value, got);
    }

    method HandleCreateOrUpdate(u: User, realm: string, key: string, body: Body, contentType: string, fault: Fault)
      returns (resp: Response)
      requires Valid()
      modifies store
      ensures Valid()
      ensures resp == Status(if !Readable(body) then 400 else if fault == NoFault then 200 else 500)
      ensures Contents() == if Readable(body) && fault != Refused
                            then Apply(old(Contents()), Put(u, realm, key, body.bytes, contentType))
                            else old(Contents())
    {
      if body.broken || |body.bytes| > VALUE_SIZE_LIMIT {
        return Status(400);
      }
      var collection := "";
      var parts := SplitSlash(key);
      if |parts| > 1 {
        collection := parts[0];
      }
      var record := Record(Some(collection), key, body.bytes, contentType, u.owner, u.client, "");
      var ok := store.CreateOrUpdate(realm, record, fault);
      resp := Status(if ok then 200 else 500);
    }

    method DecodeBuffered(text: seq<Byte>, size: nat) returns (value: Option<seq<Byte>>)
      requires DecodedLen(|text|) <= size
      ensures value == Buffered(text, size)
    {
      var buffer := new Byte[size](_ => 0);
      ghost var zeros := buffer[..];
      var n, ok := DecodeInto(buffer, text);
      if !ok {
        return None;
      }
      assert buffer[n..] == zeros[n..] == Zeros(size - n);
      assert buffer[..] == buffer[..n] + buffer[n..];
      value := Some(buffer[..]);
    }

    /** Decodes one base64 value into a buffer sized from its untrimmed text. */
    method DecodeValue(ir: RecordJSON) returns (value: Option<seq<Byte>>)
      requires !IsJSONType(ir.contentType)
      ensures value == StoredValue(ir)
    {
      value := DecodeBuffered(TrimQuotes(ir.value), DecodedLen(|ir.value|));
    }

    /** One record of a batch body, unless its value cannot be decoded. */
    method BatchRecord(u: User, collection: string, prefix: string, ir: RecordJSON) returns (record: Option<Record>)
      requires ir.key.Some? && collection == FirstPart(prefix)
      ensures record == if Storable(Some(ir)) then Some(RecordOf(u, prefix, ItemOf(Some(ir)))) else None
    {
      var value := Some(ir.value);
      if !IsJSONType(ir.contentType) {
        value := DecodeValue(ir);
      }
      if value.None? {
        return None;
      }
      record := Some(Record(Some(collection), prefix + "/" + ir.key.value, value.value, ir.contentType, u.owner, u.client, ""));
    }

    /** The records of a batch body, up to the first one that cannot be stored. */
    method BatchRecords(u: User, prefix: string, irs: seq<Option<RecordJSON>>) returns (prepared: Prepared, records: array<Record>)
      ensures fresh(records) && prepared == Prepare(irs)
      ensures prepared.Ready? ==>
                && records.Length == |prepared.items|
                && forall i :: 0 <= i < records.Length ==> records[i] == RecordOf(u, prefix, prepared.items[i])
    {
      var parts := SplitSlash(prefix);
      var collection := parts[0];
      var blank := Record(None, "", [], "", "", "", "");
      records := new Record[|irs|](_ => blank);
      var items: seq<Item> := [];
      for i := 0 to |irs|
        invariant fresh(records) && records.Length == |irs| && |items| == i
        invariant Prepare(irs[..i]) == Ready(items)
        invariant forall j :: 0 <= j < i ==> records[j] == RecordOf(u, prefix, items[j])
      {
        PrepareNext(irs, i, items);
        if irs[i].None? || irs[i].value.key.None? {
          return MissingKey, records;
        }
        var record := BatchRecord(u, collection, prefix, irs[i].value);
        if record.None? {
          return Malformed, records;
        }
        records[i] := record.value;
        items := items + [ItemOf(irs[i])];
      }
      assert irs[..|irs|] == irs;
      prepared := Ready(items);
    }

    method HandleBatchCreateOrUpdate(u: User, realm: string, key: string, body: Body, faults: BatchFaults) returns (resp: Response)
      requires Valid()
      modifies store
      ensures Valid()
      ensures var irs := DecodedBatch(body, lib);
              && (irs.None? || Prepare(irs.value).Malformed? ==> resp == Status(400))
              && (irs.Some? && Prepare(irs.value).MissingKey? ==> resp == Panicked)
              && (irs == Some([]) ==> resp == Status(200))
              && (irs.None? || irs.value == [] || !Prepare(irs.value).Ready? ==> Contents() == old(Contents()))
      ensures var irs := DecodedBatch(body, lib);
              irs.Some? && irs.value != [] && Prepare(irs.value).Ready? ==>
                var items := Prepare(irs.value).items;
                && Contents() == (if BatchStores(|items|, faults)
                                  then Apply(old(Contents()), Batch(u, realm, key, items)) else old(Contents()))
                && resp == Status(if BatchSucceeds(|items|, faults) then 200 else 500)
    {
      var irs := DecodedBatch(body, lib);
      if irs.None? {
        return Status(400);
      }
      if |irs.value| == 0 {
        return Status(200);
      }
      var prepared, records := BatchRecords(u, key, irs.value);
      if prepared.MissingKey? {
        return Panicked;
      }
      if prepared.Malformed? {
        return Status(400);
      }
      UpsertAllIsPutItems(Contents(), u, realm, key, prepared.items, records[..]);
      var ok := store.BatchCreateOrUpdate(realm, records[..], faults);
      resp := Status(if ok then 200 else 500);
    }

    method HandleDelete(u: User, realm: string, key: string, fault: Fault) returns (resp: Response)
      requires Valid()
      modifies store
      ensures Valid()
      ensures Contents() == if fault == Refused then old(Contents()) else Apply(old(Contents()), Delete(u, realm, key))
      ensures resp == Status(if fault != NoFault then 500
                             else if Matching(old(Contents()), ByKey(key), u, realm) != {} then 200 else 404)
    {
      var record := Record(None, key, [], "", u.owner, u.client, "");
      var found, ok := store.Delete(realm, record, fault);
      if !ok {
        return Status(500);
      }
      resp := Status(if found then 200 else 404);
    }

    /** The PUT case of handleUserKV: what is left of the body decides together with the batch flag. */
    method HandlePut(u: User, req: Request) returns (resp: Response)
      requires Valid() && req.verb == PUT && req.user == Some(u)
      modifies store
      ensures Valid() && Contents() == ApplyAll(old(Contents()), Effect(req, lib))
      ensures resp == Answer(old(Contents()), req, lib)
    {
      EffectAlone(Contents(), req, lib);
      if IsBatch(req, lib) {
        resp := HandleBatchCreateOrUpdate(u, "user", req.key, BodyLeft(req, lib), req.batchFaults);
      } else {
        resp := HandleCreateOrUpdate(u, "user", req.key, BodyLeft(req, lib), req.contentType, req.fault);
      }
    }

    /** A request changes the table as its effect says and is answered accordingly. */
    method HandleUserKV(req: Request) returns (resp: Response, ghost got: seq<Row>)
      requires Valid()
      modifies store
      ensures Valid() && Contents() == ApplyAll(old(Contents()), Effect(req, lib))
      ensures !IsRecursiveGet(req) ==> resp == Answer(old(Contents()), req, lib)
      ensures req.user.None? ==> resp == Status(403) && Contents() == old(Contents())
      ensures req.user.Some? && req.verb == OTHER ==> resp == Status(501) && Contents() == old(Contents())
      ensures req.user.Some? && req.verb == GET ==> Contents() == old(Contents())
      ensures IsRecursiveGet(req) ==>
                && Limited(Candidates(Contents(), req.user.value, "user", req.key), Slots(got))
                && resp == Listing(Rendered(Listed(got, req.key, lib.validJSON)))
                && Distinct(Listed(got, req.key, lib.validJSON))
                && (set d | d in Listed(got, req.key, lib.validJSON))
                   == Envelopes(Contents(), Kept(Slots(got), req.key), lib.validJSON)
    {
      got := [];
      if req.user.None? {
        return Status(403), got;
      }
      var u := req.user.value;
      EffectAlone(Contents(), req, lib);
      match req.verb
      case GET =>
        resp, got := HandleGet(u, "user", req.key, req.recurse, req.raw, req.fault);
      case PUT =>
        resp := HandlePut(u, req);
      case DELETE =>
        resp := HandleDelete(u, "user", req.key, req.fault);
      case OTHER =>
        resp := Status(501);
    }

    /** The same on a table that is the outcome of a run, where recursive GETs are answered as a key scan would be. */
    method ServeOne(req: Request, ghost ops: seq<Op>) returns (resp: Response)
      requires Valid()
      modifies store
      ensures Valid() && Contents() == ApplyAll(old(Contents()), Effect(req, lib))
      ensures !IsRecursiveGet(req) || old(Contents()) == Run(ops) ==> Answered(old(Contents()), req, resp, lib)
    {
      ghost var got, m := [], Contents();
      resp, got := HandleUserKV(req);
      if IsRecursiveGet(req) && m == Run(ops) {
        ListingListsScan(ops, req.user.value, req.key, Slots(got), Listed(got, req.key, lib.validJSON), lib.validJSON);
      }
    }

    /**
     * Any sequence of requests is the run of their effects, and each is answered by
     * the table as it is at that point: with what a key scan of it finds, if it is a
     * recursive GET and the table was empty at first.
     */
    method Serve(requests: seq<Request>) returns (responses: seq<Response>)
      requires Valid()
      modifies store
      ensures Valid() && |responses| == |requests|
      ensures Contents() == ApplyAll(old(Contents()), Effects(requests, lib))
      ensures forall i :: 0 <= i < |requests| ==> AnsweredAt(old(Contents()), requests, i, responses[i], lib)
      ensures old(Contents()) == map[] ==> Contents() == Run(Effects(requests, lib)) && Indexed(Contents())
    {
      responses := [];
      for i := 0 to |requests|
        invariant Valid() && |responses| == i
        invariant Contents() == ApplyAll(old(Contents()), Effects(requests[..i], lib))
        invariant AllAnswered(old(Contents()), requests, responses, lib)
      {
        var resp := ServeOne(requests[i], Effects(requests[..i], lib));
        AnsweredMore(old(Contents()), requests, responses, resp, lib);
        responses := responses + [resp];
        EffectsMore(old(Contents()), requests, i, lib);
      }
      assert requests[..|requests|] == requests;
      IndexAlwaysDerived(Effects(requests, lib));
      forall i | 0 <= i < |requests| ensures AnsweredAt(old(Contents()), requests, i, responses[i], lib) {
        EachAnswered(old(Contents()), requests, responses, i, lib);
      }
    }
  }
}
