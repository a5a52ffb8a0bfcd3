// Records as the store handles them, and the JSON envelope they travel in.
module KvRecord {
  import opened Text
  import opened Base64

  datatype Record = Record(
    collection: Option<string>,
    key: string,
    value: seq<Byte>,
    contentType: string,
    ownerId: string,
    clientId: string,
    requiredScopes: string)

  /** The envelope. The value is raw JSON text; an absent key is a nil pointer. */
  datatype RecordJSON = RecordJSON(key: Option<string>, value: seq<Byte>, contentType: string)

  predicate IsJSONType(contentType: string) {
    "application/json" <= contentType
  }

  /** The envelope of a record: JSON values as they are, without content type; all others base64 in quotes. */
  function Envelope(r: Record): RecordJSON {
    if IsJSONType(r.contentType) then RecordJSON(Some(r.key), r.value, "")
    else RecordJSON(Some(r.key), Quoted(Encode(r.value)), r.contentType)
  }

  lemma QuotedTrims(text: seq<Byte>, v: seq<Byte>)
    requires text == Quoted(Encode(v))
    ensures TrimQuotes(text) == Encode(v)
  {
    EncodeIsText(v);
    TrimQuoted(Encode(v));
  }

  /**
   * The document holds this key and value: a JSON value as it is, without content
   * type, any other with its content type and as base64 text in double quotes.
   */
  ghost predicate Represents(d: RecordJSON, key: string, value: seq<Byte>, contentType: string) {
    && d.key == Some(key)
    && if "application/json" <= contentType then d.value == value && d.contentType == ""
       else
         && d.contentType == contentType
         && |d.value| >= 2 && d.value[0] == '\"' as int && d.value[|d.value| - 1] == '\"' as int
         && Decode(d.value[1..|d.value| - 1]) == Some(value) && Decode(TrimQuotes(d.value)) == Some(value)
  }

  lemma EnvelopeRepresents(r: Record)
    ensures Represents(Envelope(r), r.key, r.value, r.contentType)
  {
    if !IsJSONType(r.contentType) {
      var text := Quoted(Encode(r.value));
      DecodeEncode(r.value);
      QuotedTrims(text, r.value);
      assert text[1..|text| - 1] == Encode(r.value);
    }
  }

  /**
   * Record.EncodeToJSON. Marshalling is a faithful rendering of the envelope
   * that fails exactly when a JSON value is not valid JSON.
   */
  method EncodeToJSON(r: Record, validJSON: seq<Byte> -> bool) returns (d: Option<RecordJSON>)
    ensures d == if IsJSONType(r.contentType) && !validJSON(r.value) then None else Some(Envelope(r))
    ensures d.None? <==> "application/json" <= r.contentType && !validJSON(r.value)
    ensures d.Some? ==> Represents(d.value, r.key, r.value, r.contentType)
  {
    var j := RecordJSON(Some(r.key), [], "");
    if IsJSONType(r.contentType) {
      j := j.(value := r.value);
      if !validJSON(j.value) {
        return None;
      }
    } else {
      var encoder := new Encoder([QUOTE]);
      encoder.Write(r.value);
      encoder.Close();
      assert [] + r.value == r.value;
      assert encoder.out + [QUOTE] == Quoted(Encode(r.value));
      j := j.(value := encoder.out + [QUOTE], contentType := r.contentType);
    }
    EnvelopeRepresents(r);
    return Some(j);
  }

  // ---- What a batch PUT makes of an envelope ----

  function Zeros(n: nat): (z: seq<Byte>)
    ensures |z| == n && forall i :: 0 <= i < n ==> z[i] == 0
  {
    seq(n, _ => 0)
  }

  /** What a zeroed buffer of the given size holds once the text is decoded into it. */
  function Buffered(text: seq<Byte>, size: nat): (r: Option<seq<Byte>>)
    requires DecodedLen(|text|) <= size
    ensures r.Some? ==> |r.value| == size
  {
    DecodeFits(text);
    var decoded := Decode(text);
    if decoded.None? then None else Some(decoded.value + Zeros(size - |decoded.value|))
  }

  /** The decode buffer is sized from the untrimmed text and stored whole. */
  function StoredValue(ir: RecordJSON): Option<seq<Byte>> {
    if IsJSONType(ir.contentType) then Some(ir.value)
    else Buffered(TrimQuotes(ir.value), DecodedLen(|ir.value|))
  }

  /** The bytes that complete the last group of three. */
  function Slack(n: nat): nat { if n % 3 == 0 then 0 else 3 - n % 3 }

  lemma GroupLengths(n: nat)
    ensures DecodedLen(EncodedLen(n) + 2) == (n + 2) / 3 * 3 == n + Slack(n)
  {
  }

  /** The buffer for the quoted text of v has 3 * ceil(|v| / 3) bytes, and the text without quotes fits it. */
  lemma BufferSize(text: seq<Byte>, v: seq<Byte>, slack: nat)
    requires text == Quoted(Encode(v)) && slack == Slack(|v|)
    ensures DecodedLen(|text|) == |v| + slack
    ensures DecodedLen(|Encode(v)|) <= |v| + slack
  {
    assert |text| == EncodedLen(|v|) + 2;
    GroupLengths(|v|);
  }

  /** A buffer that the text of v fits holds v and then zeros. */
  lemma BufferedText(v: seq<Byte>, slack: nat)
    requires DecodedLen(|Encode(v)|) <= |v| + slack
    ensures Buffered(Encode(v), |v| + slack) == Some(v + Zeros(slack))
  {
    DecodeEncode(v);
  }

  lemma TextStored(ir: RecordJSON, v: seq<Byte>, slack: nat)
    requires !IsJSONType(ir.contentType)
    requires TrimQuotes(ir.value) == Encode(v) && DecodedLen(|ir.value|) == |v| + slack
    requires DecodedLen(|Encode(v)|) <= |v| + slack
    ensures StoredValue(ir) == Some(v + Zeros(slack))
  {
    BufferedText(v, slack);
  }

  lemma TrimmedStored(ir: RecordJSON, v: seq<Byte>, slack: nat)
    requires !IsJSONType(ir.contentType) && ir.value == Quoted(Encode(v)) && slack == Slack(|v|)
    requires TrimQuotes(ir.value) == Encode(v)
    ensures StoredValue(ir) == Some(v + Zeros(slack))
  {
    BufferSize(ir.value, v, slack);
    TextStored(ir, v, slack);
  }

  /**
   * Base64 through the batch handler, exactly: of the text for v the decoder
   * writes v, and up to the next multiple of three the buffer stays zero.
   */
  lemma BatchStoresPadded(ir: RecordJSON, v: seq<Byte>, slack: nat)
    requires !IsJSONType(ir.contentType) && ir.value == Quoted(Encode(v)) && slack == Slack(|v|)
    ensures StoredValue(ir) == Some(v + Zeros(slack))
  {
    QuotedTrims(ir.value, v);
    TrimmedStored(ir, v, slack);
  }

  /**
   * Sending what GET returned back in a batch restores value and content type
   * if and only if the record is not JSON and its length is a multiple of three.
   */
  lemma GetThenBatch(r: Record)
    ensures StoredValue(Envelope(r)) == Some(r.value) && Envelope(r).contentType == r.contentType
            <==> !IsJSONType(r.contentType) && |r.value| % 3 == 0
  {
    if !IsJSONType(r.contentType) {
      BatchStoresPadded(Envelope(r), r.value, Slack(|r.value|));
      var stored := r.value + Zeros(Slack(|r.value|));
      if |r.value| % 3 == 0 {
        assert stored == r.value;
      } else {
        assert |stored| != |r.value|;
      }
    }
  }
}
