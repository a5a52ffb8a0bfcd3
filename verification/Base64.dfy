// Base64 as defined in section 4 of RFC 4648, in the variants the kvs plugin
// uses: a streaming encoder, and a decoder that fills a caller's buffer and
// ignores carriage returns and line feeds.
module Base64 {
  import opened Text

  type Byte = b: int | 0 <= b < 256
  type Sextet = x: int | 0 <= x < 64

  const PAD: Byte := 61
  const LF: Byte := 10
  const CR: Byte := 13
  const QUOTE: Byte := 34

  predicate IsNewline(b: Byte) { b == LF || b == CR }

  function ValueOf(b: Byte): Option<Sextet> {
    if 65 <= b < 91 then Some(b - 65)
    else if 97 <= b < 123 then Some(b - 71)
    else if 48 <= b < 58 then Some(b + 4)
    else if b == 43 then Some(62)
    else if b == 47 then Some(63)
    else None
  }

  function Symbol(x: Sextet): Byte {
    if x < 26 then x + 65
    else if x < 52 then x + 71
    else if x < 62 then x - 4
    else if x == 62 then 43
    else 47
  }

  lemma SymbolValue(x: Sextet)
    ensures ValueOf(Symbol(x)) == Some(x)
  {
  }

  /** The symbols are those of table 1 of RFC 4648: letters, digits, plus and slash. */
  lemma StandardAlphabet(x: Sextet)
    ensures Symbol(x) == if x < 26 then 'A' as int + x
                         else if x < 52 then 'a' as int + (x - 26)
                         else if x < 62 then '0' as int + (x - 52)
                         else if x == 62 then '+' as int else '/' as int
    ensures PAD == '=' as int && QUOTE == '\"' as int && CR == '\r' as int && LF == '\n' as int
  {
  }

  // ---- Encoding ----

  function EncodedLen(n: nat): nat { (n + 2) / 3 * 4 }

  /** One group: four characters for one to three bytes. */
  function EncodeGroup(g: seq<Byte>): (text: seq<Byte>)
    requires 1 <= |g| <= 3
    ensures |text| == 4
  {
    var b1, b2 := if |g| > 1 then g[1] else 0, if |g| > 2 then g[2] else 0;
    [ Symbol(g[0] / 4),
      Symbol(g[0] % 4 * 16 + b1 / 16),
      if |g| > 1 then Symbol(b1 % 16 * 4 + b2 / 64) else PAD,
      if |g| > 2 then Symbol(b2 % 64) else PAD ]
  }

  function Encode(v: seq<Byte>): (text: seq<Byte>)
    ensures |text| == EncodedLen(|v|)
  {
    if v == [] then []
    else if |v| <= 3 then EncodeGroup(v)
    else EncodeGroup(v[..3]) + Encode(v[3..])
  }

  /** Encoded text consists of characters of the alphabet and padding. */
  predicate IsText(text: seq<Byte>) {
    forall i :: 0 <= i < |text| ==> text[i] != QUOTE && !IsNewline(text[i])
  }

  lemma {:induction false} EncodeIsText(v: seq<Byte>)
    ensures IsText(Encode(v))
  {
    if |v| > 3 {
      EncodeIsText(v[3..]);
    }
  }

  /** Text encoded up to a group boundary is final: what follows is encoded on its own. */
  lemma {:induction false} EncodeSplits(a: seq<Byte>, b: seq<Byte>)
    requires |a| % 3 == 0
    ensures Encode(a + b) == Encode(a) + Encode(b)
  {
    if a == [] {
      assert a + b == b;
    } else {
      assert (a + b)[..3] == a[..3] && (a + b)[3..] == a[3..] + b;
      EncodeSplits(a[3..], b);
      if |a| == 3 {
        assert a[..3] == a && a[3..] == [];
        assert b == [] ==> a + b == a;
      }
    }
  }

  /** Bits go from the left: the four symbols of a full group are the digits, in base 64, of its three bytes read in base 256. */
  lemma GroupDigits(a: Byte, b: Byte, c: Byte)
    ensures exists w: Sextet, x: Sextet, y: Sextet, z: Sextet ::
              && EncodeGroup([a, b, c]) == [Symbol(w), Symbol(x), Symbol(y), Symbol(z)]
              && ((w * 64 + x) * 64 + y) * 64 + z == (a * 256 + b) * 256 + c
  {
    var w: Sextet, x: Sextet, y: Sextet, z: Sextet := a / 4, a % 4 * 16 + b / 16, b % 16 * 4 + c / 64, c % 64;
    assert EncodeGroup([a, b, c]) == [Symbol(w), Symbol(x), Symbol(y), Symbol(z)];
    assert ((w * 64 + x) * 64 + y) * 64 + z == (a * 256 + b) * 256 + c;
  }

  /** A short group is the full one with zero bytes for the missing ones, its surplus symbols replaced by padding. */
  lemma ShortGroups(a: Byte, b: Byte)
    ensures EncodeGroup([a]) == EncodeGroup([a, 0, 0])[..2] + [PAD, PAD]
    ensures EncodeGroup([a, b]) == EncodeGroup([a, b, 0])[..3] + [PAD]
  {
  }

  lemma GroupBoundary(a: seq<Byte>, g: seq<Byte>)
    requires |a| % 3 == 0
    ensures |g| == 3 ==> |a + g| % 3 == 0
  {
  }

  lemma EncodeOneGroup(g: seq<Byte>)
    requires 1 <= |g| <= 3
    ensures Encode(g) == EncodeGroup(g)
  {
  }

  lemma EncodeMore(start: seq<Byte>, a: seq<Byte>, g: seq<Byte>)
    requires |a| % 3 == 0 && 1 <= |g| <= 3
    ensures (start + Encode(a)) + EncodeGroup(g) == start + Encode(a + g)
  {
    EncodeSplits(a, g);
    EncodeOneGroup(g);
  }

  /** The streaming encoder: holds back at most two bytes until their group is complete. */
  class Encoder {
    var out: seq<Byte>
    var held: seq<Byte>
    ghost const start: seq<Byte>
    ghost var flushed: seq<Byte>

    ghost predicate Valid()
      reads this
    {
      |held| < 3 && |flushed| % 3 == 0 && out == start + Encode(flushed)
    }

    ghost function Written(): seq<Byte>
      reads this
    {
      flushed + held
    }

    constructor (start: seq<Byte>)
      ensures Valid() && Written() == [] && this.start == start
    {
      this.start := start;
      out, held, flushed := start, [], [];
    }

    method Flush()
      requires |flushed| % 3 == 0 && out == start + Encode(flushed) && 1 <= |held| <= 3
      modifies this
      ensures held == [] && flushed == old(flushed) + old(held) && out == start + Encode(flushed)
      ensures |old(held)| == 3 ==> |flushed| % 3 == 0
    {
      EncodeMore(start, flushed, held);
      out := out + EncodeGroup(held);
      GroupBoundary(flushed, held);
      flushed := flushed + held;
      held := [];
    }

    method Push(b: Byte)
      requires Valid()
      modifies this
      ensures Valid() && Written() == old(Written()) + [b]
    {
      ghost var before, group := flushed, held + [b];
      assert before + group == Written() + [b];
      held := held + [b];
      if |held| == 3 {
        Flush();
        assert flushed + [] == flushed;
      }
    }

    method Write(p: seq<Byte>)
      requires Valid()
      modifies this
      ensures Valid() && Written() == old(Written()) + p
    {
      for i := 0 to |p|
        invariant Valid() && Written() == old(Written()) + p[..i]
      {
        Push(p[i]);
        assert p[..i + 1] == p[..i] + [p[i]];
      }
      assert p[..|p|] == p;
    }

    method Close()
      requires Valid()
      modifies this
      ensures out == start + Encode(old(Written())) && Written() == old(Written())
    {
      if held != [] {
        Flush();
      }
      assert flushed + [] == flushed;
    }
  }

  // ---- Decoding ----

  /** The text without the characters the decoder skips. */
  function Clean(text: seq<Byte>): (s: seq<Byte>)
    ensures |s| <= |text|
  {
    if text == [] then []
    else if IsNewline(text[0]) then Clean(text[1..])
    else [text[0]] + Clean(text[1..])
  }

  /** One group of four characters. Padding may stand in the last two places only. */
  function DecodeGroup(g: seq<Byte>): (r: Option<seq<Byte>>)
    requires |g| == 4
    ensures r.Some? ==> 1 <= |r.value| <= 3
  {
    if ValueOf(g[0]).None? || ValueOf(g[1]).None? then None
    else
      var a, b := ValueOf(g[0]).value, ValueOf(g[1]).value;
      var first := a * 4 + b / 16;
      if g[2] == PAD && g[3] == PAD then Some([first])
      else if ValueOf(g[2]).None? then None
      else
        var c := ValueOf(g[2]).value;
        var second := b % 16 * 16 + c / 4;
        if g[3] == PAD then Some([first, second])
        else if ValueOf(g[3]).None? then None
        else Some([first, second, c % 4 * 64 + ValueOf(g[3]).value])
  }

  function Prepend(head: seq<Byte>, tail: Option<seq<Byte>>): Option<seq<Byte>> {
    if tail.None? then None else Some(head + tail.value)
  }

  /** A sequence of groups, of which only the last may be padded. */
  function DecodeClean(s: seq<Byte>): Option<seq<Byte>> {
    if s == [] then Some([])
    else if |s| < 4 then None
    else
      var g := DecodeGroup(s[..4]);
      if g.None? then None
      else if |g.value| == 3 then Prepend(g.value, DecodeClean(s[4..]))
      else if |s| == 4 then g
      else None
  }

  function Decode(text: seq<Byte>): Option<seq<Byte>> {
    DecodeClean(Clean(text))
  }

  function DecodedLen(n: nat): nat { n / 4 * 3 }

  lemma {:induction false} DecodeCleanFits(s: seq<Byte>)
    ensures DecodeClean(s).Some? ==> |DecodeClean(s).value| <= DecodedLen(|s|)
  {
    if DecodeClean(s).Some? && |s| > 4 {
      DecodeCleanFits(s[4..]);
    }
  }

  /** Whatever the text, decoding never yields more bytes than a buffer sized from it holds. */
  lemma DecodeFits(text: seq<Byte>)
    ensures Decode(text).Some? ==> |Decode(text).value| <= DecodedLen(|text|)
  {
    DecodeCleanFits(Clean(text));
  }

  lemma {:induction false} CleanIdentity(text: seq<Byte>)
    requires IsText(text)
    ensures Clean(text) == text
  {
    if text != [] {
      CleanIdentity(text[1..]);
    }
  }

  lemma {:induction false} CleanSkips(a: seq<Byte>, c: Byte, b: seq<Byte>)
    requires IsNewline(c)
    ensures Clean(a + [c] + b) == Clean(a + b)
  {
    if a == [] {
      assert ([c] + b)[1..] == b && a + [c] + b == [c] + b && a + b == b;
    } else {
      CleanSkips(a[1..], c, b);
      assert (a + [c] + b)[1..] == a[1..] + [c] + b && (a + b)[1..] == a[1..] + b;
    }
  }

  /** Carriage returns and line feeds are skipped wherever they stand. */
  lemma NewlinesIgnored(a: seq<Byte>, c: Byte, b: seq<Byte>)
    requires c == '\r' as int || c == '\n' as int
    ensures Decode(a + [c] + b) == Decode(a + b)
  {
    CleanSkips(a, c, b);
  }

  /** Cutting three bytes into four sextets loses nothing. */
  lemma SextetsRejoin(a: Byte, b: Byte, c: Byte)
    ensures a / 4 * 4 + (a % 4 * 16 + b / 16) / 16 == a
    ensures (a % 4 * 16 + b / 16) % 16 * 16 + (b % 16 * 4 + c / 64) / 4 == b
    ensures (b % 16 * 4 + c / 64) % 4 * 64 + c % 64 == c
  {
  }

  lemma SymbolIsNoPadding(x: Sextet)
    ensures Symbol(x) != PAD
  {
  }

  lemma GroupOfSymbols(w: Sextet, x: Sextet, y: Sextet, z: Sextet)
    ensures DecodeGroup([Symbol(w), Symbol(x), PAD, PAD]) == Some([w * 4 + x / 16])
    ensures DecodeGroup([Symbol(w), Symbol(x), Symbol(y), PAD]) == Some([w * 4 + x / 16, x % 16 * 16 + y / 4])
    ensures DecodeGroup([Symbol(w), Symbol(x), Symbol(y), Symbol(z)])
            == Some([w * 4 + x / 16, x % 16 * 16 + y / 4, y % 4 * 64 + z])
  {
    SymbolValue(w);
    SymbolValue(x);
    SymbolValue(y);
    SymbolIsNoPadding(y);
    SymbolValue(z);
    SymbolIsNoPadding(z);
  }

  lemma OneByteGroup(a: Byte)
    ensures DecodeGroup(EncodeGroup([a])) == Some([a])
  {
    SextetsRejoin(a, 0, 0);
    GroupOfSymbols(a / 4, a % 4 * 16, 0, 0);
  }

  lemma PairGroup(a: Byte, b: Byte, w: Sextet, x: Sextet, y: Sextet)
    requires w == a / 4 && x == a % 4 * 16 + b / 16 && y == b % 16 * 4
    ensures EncodeGroup([a, b]) == [Symbol(w), Symbol(x), Symbol(y), PAD]
  {
  }

  lemma PairGroupDecodes(a: Byte, b: Byte, w: Sextet, x: Sextet, y: Sextet)
    requires EncodeGroup([a, b]) == [Symbol(w), Symbol(x), Symbol(y), PAD]
    requires w * 4 + x / 16 == a && x % 16 * 16 + y / 4 == b
    ensures DecodeGroup(EncodeGroup([a, b])) == Some([a, b])
  {
    GroupOfSymbols(w, x, y, 0);
  }

  lemma TwoByteGroup(a: Byte, b: Byte)
    ensures DecodeGroup(EncodeGroup([a, b])) == Some([a, b])
  {
    var w, x, y := a / 4, a % 4 * 16 + b / 16, b % 16 * 4;
    SextetsRejoin(a, b, 0);
    PairGroup(a, b, w, x, y);
    PairGroupDecodes(a, b, w, x, y);
  }

  lemma FullGroup(a: Byte, b: Byte, c: Byte, w: Sextet, x: Sextet, y: Sextet, z: Sextet)
    requires w == a / 4 && x == a % 4 * 16 + b / 16 && y == b % 16 * 4 + c / 64 && z == c % 64
    ensures EncodeGroup([a, b, c]) == [Symbol(w), Symbol(x), Symbol(y), Symbol(z)]
  {
  }

  lemma FullGroupDecodes(a: Byte, b: Byte, c: Byte, w: Sextet, x: Sextet, y: Sextet, z: Sextet)
    requires EncodeGroup([a, b, c]) == [Symbol(w), Symbol(x), Symbol(y), Symbol(z)]
    requires w * 4 + x / 16 == a && x % 16 * 16 + y / 4 == b && y % 4 * 64 + z == c
    ensures DecodeGroup(EncodeGroup([a, b, c])) == Some([a, b, c])
  {
    GroupOfSymbols(w, x, y, z);
  }

  lemma ThreeByteGroup(a: Byte, b: Byte, c: Byte)
    ensures DecodeGroup(EncodeGroup([a, b, c])) == Some([a, b, c])
  {
    var w, x, y, z := a / 4, a % 4 * 16 + b / 16, b % 16 * 4 + c / 64, c % 64;
    SextetsRejoin(a, b, c);
    FullGroup(a, b, c, w, x, y, z);
    FullGroupDecodes(a, b, c, w, x, y, z);
  }

  lemma DecodeGroupEncodeGroup(g: seq<Byte>)
    requires 1 <= |g| <= 3
    ensures DecodeGroup(EncodeGroup(g)) == Some(g)
  {
    if |g| == 1 {
      assert g == [g[0]];
      OneByteGroup(g[0]);
    } else if |g| == 2 {
      assert g == [g[0], g[1]];
      TwoByteGroup(g[0], g[1]);
    } else {
      assert g == [g[0], g[1], g[2]];
      ThreeByteGroup(g[0], g[1], g[2]);
    }
  }

  lemma {:induction false} DecodeCleanEncode(v: seq<Byte>)
    ensures DecodeClean(Encode(v)) == Some(v)
  {
    if 1 <= |v| <= 3 {
      DecodeGroupEncodeGroup(v);
      assert Encode(v)[..4] == EncodeGroup(v) && Encode(v)[4..] == [];
      assert v + [] == v;
    } else if v != [] {
      DecodeGroupEncodeGroup(v[..3]);
      DecodeCleanEncode(v[3..]);
      assert Encode(v)[..4] == EncodeGroup(v[..3]) && Encode(v)[4..] == Encode(v[3..]);
      assert v[..3] + v[3..] == v;
    }
  }

  /** Decoding undoes encoding, for every byte string. */
  lemma DecodeEncode(v: seq<Byte>)
    ensures Decode(Encode(v)) == Some(v)
  {
    EncodeIsText(v);
    CleanIdentity(Encode(v));
    DecodeCleanEncode(v);
  }

  /** One more group of a text: its bytes come before those of the rest. */
  lemma DecodeCleanGroup(s: seq<Byte>)
    requires |s| >= 4
    ensures var g := DecodeGroup(s[..4]);
            && (g.None? ==> DecodeClean(s).None?)
            && (g.Some? && |g.value| < 3 ==> DecodeClean(s) == if |s| == 4 then g else None)
            && (g.Some? && |g.value| == 3 ==> DecodeClean(s) == Prepend(g.value, DecodeClean(s[4..])))
  {
  }

  lemma PrependNothing(tail: Option<seq<Byte>>)
    ensures Prepend([], tail) == tail
  {
    if tail.Some? {
      assert [] + tail.value == tail.value;
    }
  }

  lemma PrependTwice(a: seq<Byte>, b: seq<Byte>, tail: Option<seq<Byte>>)
    ensures Prepend(a, Prepend(b, tail)) == Prepend(a + b, tail)
  {
    if tail.Some? {
      assert a + (b + tail.value) == (a + b) + tail.value;
    }
  }

  method Append(dst: array<Byte>, at: nat, bytes: seq<Byte>) returns (n: nat)
    requires at + |bytes| <= dst.Length
    modifies dst
    ensures n == at + |bytes|
    ensures dst[..n] == old(dst[..at]) + bytes && dst[n..] == old(dst[n..])
  {
    n := at;
    for k := 0 to |bytes|
      invariant n == at + k
      invariant dst[..n] == old(dst[..at]) + bytes[..k] && dst[n..] == old(dst[n..])
    {
      ghost var filled := dst[..n];
      dst[n] := bytes[k];
      n := n + 1;
      assert dst[..n] == filled + [bytes[k]];
      assert dst[n..] == old(dst[n - 1..])[1..];
    }
  }

  /**
   * Fills `dst` from the start with the decoded text and leaves the rest of it alone.
   * The buffer has to be as large as the caller's sizing rule makes it, no larger.
   */
  method DecodeInto(dst: array<Byte>, text: seq<Byte>) returns (n: nat, ok: bool)
    requires dst.Length >= DecodedLen(|text|)
    modifies dst
    ensures ok == Decode(text).Some?
    ensures ok ==> n <= dst.Length && dst[..n] == Decode(text).value
    ensures ok ==> dst[n..] == old(dst[n..])
  {
    var rest := Clean(text);
    n := 0;
    PrependNothing(Decode(text));
    while rest != []
      invariant n % 3 == 0 && n / 3 * 4 + |rest| <= |text|
      invariant n <= dst.Length && dst[n..] == old(dst[n..])
      invariant Decode(text) == Prepend(dst[..n], DecodeClean(rest))
      decreases |rest|
    {
      if |rest| < 4 {
        return n, false;
      }
      DecodeCleanGroup(rest);
      var bytes := DecodeGroup(rest[..4]);
      if bytes.None? || (|bytes.value| < 3 && |rest| > 4) {
        return n, false;
      }
      ghost var head := dst[..n];
      n := Append(dst, n, bytes.value);
      if |bytes.value| < 3 {
        return n, true;
      }
      rest := rest[4..];
      PrependTwice(head, bytes.value, DecodeClean(rest));
    }
    ok := true;
    assert dst[..n] + [] == dst[..n];
  }

  /** Well-formed text: whole groups of alphabet characters, of which the last two at most may be padding. */
  predicate IsBase64(s: seq<Byte>) {
    && |s| % 4 == 0
    && (forall i :: 0 <= i < |s| - 2 ==> ValueOf(s[i]).Some?)
    && (forall i :: 0 <= i < |s| && |s| - 2 <= i ==> ValueOf(s[i]).Some? || s[i] == PAD)
    && (|s| >= 2 && s[|s| - 2] == PAD ==> s[|s| - 1] == PAD)
  }

  function Padding(s: seq<Byte>): nat {
    if |s| >= 2 && s[|s| - 2] == PAD then 2 else if |s| >= 1 && s[|s| - 1] == PAD then 1 else 0
  }

  lemma GroupAccepted(g: seq<Byte>)
    requires |g| == 4
    ensures DecodeGroup(g).Some? <==> IsBase64(g)
    ensures DecodeGroup(g).Some? ==> |DecodeGroup(g).value| == 3 - Padding(g)
  {
  }

  lemma GroupThenRest(s: seq<Byte>)
    requires |s| > 4
    ensures IsBase64(s) <==> IsBase64(s[..4]) && Padding(s[..4]) == 0 && IsBase64(s[4..])
    ensures |s| >= 6 ==> Padding(s) == Padding(s[4..])
  {
    var g, rest := s[..4], s[4..];
    assert forall i :: 0 <= i < |rest| ==> rest[i] == s[i + 4];
    if IsBase64(s) {
      assert |s| >= 8 && forall i :: 0 <= i < 4 ==> ValueOf(g[i]).Some?;
    }
    if IsBase64(g) && Padding(g) == 0 && IsBase64(rest) {
      assert rest != [];
      forall i | 0 <= i < |s| - 2 ensures ValueOf(s[i]).Some? {
        assert s[i] == if i < 4 then g[i] else rest[i - 4];
      }
    }
  }

  lemma {:induction false} DecodeCleanAccepts(s: seq<Byte>)
    ensures DecodeClean(s).Some? <==> IsBase64(s)
    ensures DecodeClean(s).Some? ==> |DecodeClean(s).value| == |s| / 4 * 3 - Padding(s)
  {
    if |s| >= 4 {
      DecodeCleanGroup(s);
      GroupAccepted(s[..4]);
      if |s| > 4 {
        GroupThenRest(s);
        DecodeCleanAccepts(s[4..]);
      } else {
        assert s[..4] == s;
      }
    }
  }

  /** The decoder accepts exactly the well-formed texts, and each padding character stands for one byte less. */
  lemma DecodeAccepts(text: seq<Byte>)
    ensures Decode(text).Some? <==> IsBase64(Clean(text))
    ensures Decode(text).Some? ==> |Decode(text).value| == |Clean(text)| / 4 * 3 - Padding(Clean(text))
  {
    DecodeCleanAccepts(Clean(text));
  }

  // ---- Values inside quotes ----

  /** What bytes.Trim(s, "\"") leaves. */
  function TrimQuotes(s: seq<Byte>): (t: seq<Byte>)
    ensures |t| <= |s|
    ensures t != [] ==> t[0] != QUOTE && t[|t| - 1] != QUOTE
  {
    if s == [] then []
    else if s[0] == QUOTE then TrimQuotes(s[1..])
    else if s[|s| - 1] == QUOTE then TrimQuotes(s[..|s| - 1])
    else s
  }

  /** Trimming takes away quotes only, and all of them at both ends. */
  lemma {:induction false} TrimExactly(s: seq<Byte>) returns (left: seq<Byte>, right: seq<Byte>)
    ensures s == left + TrimQuotes(s) + right
    ensures forall b :: b in left || b in right ==> b == '\"' as int
  {
    left, right := [], [];
    if s == [] {
    } else if s[0] == QUOTE {
      var rest := s[1..];
      left, right := TrimExactly(rest);
      assert s == [QUOTE] + rest;
      assert [QUOTE] + (left + TrimQuotes(rest) + right) == ([QUOTE] + left) + TrimQuotes(rest) + right;
      left := [QUOTE] + left;
    } else if s[|s| - 1] == QUOTE {
      var rest := s[..|s| - 1];
      left, right := TrimExactly(rest);
      assert s == rest + [QUOTE];
      assert (left + TrimQuotes(rest) + right) + [QUOTE] == left + TrimQuotes(rest) + (right + [QUOTE]);
      right := right + [QUOTE];
    }
  }

  function Quoted(s: seq<Byte>): seq<Byte> { [QUOTE] + s + [QUOTE] }

  lemma TrimQuoted(s: seq<Byte>)
    requires IsText(s)
    ensures TrimQuotes(Quoted(s)) == s
  {
    var inner := Quoted(s)[1..];
    assert inner == s + [QUOTE];
    assert inner[..|s|] == s && inner[|s|] == QUOTE;
    assert TrimQuotes(Quoted(s)) == TrimQuotes(inner);
    if s == [] {
      assert inner[1..] == [];
    } else {
      assert inner[0] == s[0];
      assert TrimQuotes(inner) == TrimQuotes(s);
    }
  }
}
