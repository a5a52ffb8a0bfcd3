// Sticky sessions of the HTTP proxy: the rule language and the decision taken per request.
module Sticky {
  import opened Text

  // ---- Words ----

  /** The white space that separates words. */
  predicate IsSpace(c: char) {
    var n := c as int;
    || 9 <= n <= 13 || n == 0x20 || n == 0x85 || n == 0xA0 || n == 0x1680 || 0x2000 <= n <= 0x200a
    || n == 0x2028 || n == 0x2029 || n == 0x202f || n == 0x205f || n == 0x3000
  }

  /** Of the ASCII characters these are blank, tab, line feed, vertical tab, form feed and carriage return. */
  lemma AsciiSpaces(c: char)
    requires c as int < 0x80
    ensures IsSpace(c) <==> c in {' ', '\t', '\n', 11 as char, 12 as char, '\r'}
  {
  }

  predicate IsWord(w: string) {
    w != "" && forall i :: 0 <= i < |w| ==> !IsSpace(w[i])
  }

  /** The longest word a text starts with. */
  function Leading(s: string): (w: string)
    ensures w <= s && forall i :: 0 <= i < |w| ==> !IsSpace(w[i])
    ensures |w| < |s| ==> IsSpace(s[|w|])
  {
    if s == "" || IsSpace(s[0]) then "" else [s[0]] + Leading(s[1..])
  }

  function Words(s: string): (ws: seq<string>)
    ensures forall i :: 0 <= i < |ws| ==> IsWord(ws[i])
    decreases |s|
  {
    if s == "" then []
    else if IsSpace(s[0]) then Words(s[1..])
    else [Leading(s)] + Words(s[|Leading(s)|..])
  }

  lemma {:induction false} LeadingWord(w: string, rest: string)
    requires forall i :: 0 <= i < |w| ==> !IsSpace(w[i])
    requires rest == "" || IsSpace(rest[0])
    ensures Leading(w + rest) == w
  {
    if w == "" {
      assert w + rest == rest;
    } else {
      assert (w + rest)[1..] == w[1..] + rest;
      LeadingWord(w[1..], rest);
    }
  }

  lemma FirstWord(s: string, w: string, rest: string)
    requires s == w + rest && IsWord(w) && (rest == "" || IsSpace(rest[0]))
    ensures Words(s) == [w] + Words(rest)
  {
    LeadingWord(w, rest);
    assert s[0] == w[0] && s[|w|..] == rest;
  }

  /** The scanner: skips white space, then takes everything up to the next. */
  class Scanner {
    const text: string
    var pos: nat
    var token: string

    ghost predicate Valid()
      reads this
    {
      pos <= |text|
    }

    ghost function Pending(): seq<string>
      reads this
      requires Valid()
    {
      Words(text[pos..])
    }

    constructor (text: string)
      ensures Valid() && Pending() == Words(text)
    {
      this.text := text;
      pos, token := 0, "";
      new;
      assert text[0..] == text;
    }

    method SkipSpaces()
      requires Valid()
      modifies `pos
      ensures Valid() && pos >= old(pos) && Pending() == old(Pending())
      ensures pos < |text| ==> !IsSpace(text[pos])
    {
      while pos < |text| && IsSpace(text[pos])
        invariant old(pos) <= pos <= |text| && Words(text[pos..]) == old(Pending())
      {
        assert text[pos..][1..] == text[pos + 1..];
        pos := pos + 1;
      }
    }

    method TakeWord()
      requires pos < |text| && !IsSpace(text[pos])
      modifies this
      ensures Valid() && pos > old(pos) && IsWord(token) && [token] + Pending() == old(Pending())
    {
      var start := pos;
      while pos < |text| && !IsSpace(text[pos])
        invariant start <= pos <= |text|
        invariant forall j :: start <= j < pos ==> !IsSpace(text[j])
      {
        pos := pos + 1;
      }
      token := text[start..pos];
      FirstWord(text[start..], token, text[pos..]);
    }

    method Scan() returns (ok: bool)
      requires Valid()
      modifies this
      ensures Valid() && pos >= old(pos) && (ok <==> old(Pending()) != [])
      ensures ok ==> [token] + Pending() == old(Pending()) && IsWord(token) && pos > old(pos)
      ensures !ok ==> token == "" && Pending() == []
    {
      SkipSpaces();
      if pos == |text| {
        token := "";
        return false;
      }
      TakeWord();
      ok := true;
    }
  }

  // ---- Rules ----

  datatype Config = Config(
    cookieName: string,
    cookiePath: string,
    headerName: string,
    nocache: bool,
    setUpstreamHeader: bool,
    setCookie: bool)

  const DEFAULT := Config("", "/", "", false, false, false)

  function Setting(name: string, argument: string, c: Config): Config {
    if name == "set-cookie" then c.(setCookie := true, cookieName := argument)
    else if name == "cookie" then c.(cookieName := argument)
    else if name == "set-upstream-header" then c.(setUpstreamHeader := true, headerName := argument)
    else c.(cookiePath := argument)
  }

  /** The words of a rule, the last setting winning; None when the rule is not accepted. */
  function Parse(ws: seq<string>, c: Config): Option<Config> {
    if ws == [] then Some(c)
    else if ws[0] == "nocache" then Parse(ws[1..], c.(nocache := true))
    else if ws[0] !in {"set-cookie", "cookie", "set-upstream-header", "cookie-path"} || |ws| == 1 then None
    else Parse(ws[2..], Setting(ws[0], ws[1], c))
  }

  function ParseRule(rule: string): Option<Config> {
    Parse(Words(rule), DEFAULT)
  }

  /** Handles the token just scanned, with its argument if it takes one. */
  method TakeToken(scanner: Scanner, c: Config) returns (after: Option<Config>)
    requires scanner.Valid() && IsWord(scanner.token)
    modifies scanner
    ensures scanner.Valid() && scanner.pos >= old(scanner.pos)
    ensures Parse(old([scanner.token] + scanner.Pending()), c)
            == if after.Some? then Parse(scanner.Pending(), after.value) else None
  {
    ghost var ws := [scanner.token] + scanner.Pending();
    var t := scanner.token;
    assert ws[0] == t && ws[1..] == scanner.Pending();
    if t == "nocache" {
      return Some(c.(nocache := true));
    }
    if t !in {"set-cookie", "cookie", "set-upstream-header", "cookie-path"} {
      return None;
    }
    var c' := if t == "set-cookie" then c.(setCookie := true) else c;
    var found := scanner.Scan();
    if scanner.token == "" {
      return None;
    }
    assert ws[1] == scanner.token && ws[2..] == scanner.Pending();
    if t == "set-cookie" || t == "cookie" {
      c' := c'.(cookieName := scanner.token);
    } else if t == "set-upstream-header" {
      c' := c'.(headerName := scanner.token);
      c' := c'.(setUpstreamHeader := true);
    } else {
      c' := c'.(cookiePath := scanner.token);
    }
    assert c' == Setting(t, scanner.token, c);
    after := Some(c');
  }

  /** newStickyProxyHandler. */
  method NewStickyProxyHandler(stickyRule: string) returns (sph: Option<Config>)
    ensures sph == ParseRule(stickyRule)
  {
    var scanner := new Scanner(stickyRule);
    var c := DEFAULT;
    var more := scanner.Scan();
    while more
      invariant scanner.Valid() && (more ==> IsWord(scanner.token))
      invariant Parse(if more then [scanner.token] + scanner.Pending() else [], c) == ParseRule(stickyRule)
      decreases |scanner.text| - scanner.pos, more
    {
      var after := TakeToken(scanner, c);
      if after.None? {
        return None;
      }
      c := after.value;
      more := scanner.Scan();
    }
    sph := Some(c);
  }

  // ---- Printing ----

  /** The configurations rules can describe. */
  predicate WellFormed(c: Config) {
    && (c.cookieName == "" || IsWord(c.cookieName)) && (c.setCookie ==> c.cookieName != "")
    && (c.headerName == "" || IsWord(c.headerName)) && (c.setUpstreamHeader <==> c.headerName != "")
    && IsWord(c.cookiePath)
  }

  function CookieTokens(c: Config): seq<string> {
    if c.setCookie then ["set-cookie", c.cookieName] else if c.cookieName != "" then ["cookie", c.cookieName] else []
  }

  function HeaderTokens(c: Config): seq<string> {
    if c.setUpstreamHeader then ["set-upstream-header", c.headerName] else []
  }

  function LastTokens(c: Config): seq<string> {
    (if c.nocache then ["nocache"] else []) + ["cookie-path", c.cookiePath]
  }

  function Tokens(c: Config): seq<string> {
    CookieTokens(c) + (HeaderTokens(c) + LastTokens(c))
  }

  function Line(ws: seq<string>): string {
    if ws == [] then "" else ws[0] + " " + Line(ws[1..])
  }

  function Print(c: Config): string {
    Line(Tokens(c))
  }

  predicate AllWords(ws: seq<string>) {
    forall i :: 0 <= i < |ws| ==> IsWord(ws[i])
  }

  /** Scanning a line of words gives the words back. */
  lemma {:induction false} WordsLine(ws: seq<string>)
    requires AllWords(ws)
    ensures Words(Line(ws)) == ws
  {
    if ws != [] {
      var rest := " " + Line(ws[1..]);
      WordsLine(ws[1..]);
      FirstWord(Line(ws), ws[0], rest);
      assert rest[1..] == Line(ws[1..]);
    }
  }

  lemma ParseStep(name: string, argument: string, rest: seq<string>, c: Config)
    requires name in {"set-cookie", "cookie", "set-upstream-header", "cookie-path"}
    ensures Parse([name, argument] + rest, c) == Parse(rest, Setting(name, argument, c))
  {
    assert ([name, argument] + rest)[2..] == rest;
  }

  /** Of the tokens of a configuration those for the cookie come first. */
  lemma ParseCookie(c: Config, rest: seq<string>)
    requires WellFormed(c) && Tokens(c) == CookieTokens(c) + rest
    ensures Parse(Tokens(c), DEFAULT) == Parse(rest, DEFAULT.(cookieName := c.cookieName, setCookie := c.setCookie))
  {
    if c.setCookie {
      ParseStep("set-cookie", c.cookieName, rest, DEFAULT);
    } else if c.cookieName != "" {
      ParseStep("cookie", c.cookieName, rest, DEFAULT);
    } else {
      assert [] + rest == rest;
    }
  }

  lemma ParseHeader(c: Config, rest: seq<string>, before: Config)
    requires WellFormed(c) && before.headerName == "" && !before.setUpstreamHeader
    ensures Parse(HeaderTokens(c) + rest, before)
            == Parse(rest, before.(headerName := c.headerName, setUpstreamHeader := c.setUpstreamHeader))
  {
    if c.setUpstreamHeader {
      ParseStep("set-upstream-header", c.headerName, rest, before);
    } else {
      assert [] + rest == rest;
    }
  }

  lemma ParseEnd(c: Config, before: Config)
    requires !before.nocache
    ensures Parse(LastTokens(c), before) == Some(before.(nocache := c.nocache, cookiePath := c.cookiePath))
  {
    var path := ["cookie-path", c.cookiePath];
    ParseStep("cookie-path", c.cookiePath, [], before.(nocache := c.nocache));
    assert path + [] == path;
    if c.nocache {
      assert LastTokens(c)[1..] == path;
    } else {
      assert LastTokens(c) == path;
    }
  }

  lemma ParseTokens(c: Config)
    requires WellFormed(c)
    ensures Parse(Tokens(c), DEFAULT) == Some(c)
  {
    var c1 := DEFAULT.(cookieName := c.cookieName, setCookie := c.setCookie);
    var c2 := c1.(headerName := c.headerName, setUpstreamHeader := c.setUpstreamHeader);
    ParseCookie(c, HeaderTokens(c) + LastTokens(c));
    ParseHeader(c, LastTokens(c), c1);
    ParseEnd(c, c2);
  }

  lemma NamesAreWords()
    ensures IsWord("set-cookie") && IsWord("cookie") && IsWord("set-upstream-header") && IsWord("nocache") && IsWord("cookie-path")
  {
  }

  lemma AllWordsJoin(a: seq<string>, b: seq<string>)
    requires AllWords(a) && AllWords(b)
    ensures AllWords(a + b)
  {
  }

  lemma TokensAreWords(c: Config)
    requires WellFormed(c)
    ensures AllWords(Tokens(c))
  {
    NamesAreWords();
    assert AllWords(CookieTokens(c)) && AllWords(HeaderTokens(c)) && AllWords(LastTokens(c));
    AllWordsJoin(HeaderTokens(c), LastTokens(c));
    AllWordsJoin(CookieTokens(c), HeaderTokens(c) + LastTokens(c));
  }

  /** Printing a configuration and reading the rule gives the configuration back. */
  lemma PrintThenParse(c: Config)
    requires WellFormed(c)
    ensures ParseRule(Print(c)) == Some(c)
  {
    TokensAreWords(c);
    WordsLine(Tokens(c));
    ParseTokens(c);
  }

  lemma {:induction false} ParseKeepsWellFormed(ws: seq<string>, c: Config)
    requires WellFormed(c) && forall i :: 0 <= i < |ws| ==> IsWord(ws[i])
    ensures Parse(ws, c).Some? ==> WellFormed(Parse(ws, c).value)
  {
    if ws != [] {
      if ws[0] == "nocache" {
        ParseKeepsWellFormed(ws[1..], c.(nocache := true));
      } else if ws[0] in {"set-cookie", "cookie", "set-upstream-header", "cookie-path"} && |ws| > 1 {
        ParseKeepsWellFormed(ws[2..], Setting(ws[0], ws[1], c));
      }
    }
  }

  /** Rules describe the well-formed configurations, all of them and no other. */
  lemma RulesAreWellFormed(c: Config)
    ensures (exists rule :: ParseRule(rule) == Some(c)) <==> WellFormed(c)
  {
    if WellFormed(c) {
      PrintThenParse(c);
    }
    forall rule | ParseRule(rule) == Some(c) ensures WellFormed(c) {
      ParseKeepsWellFormed(Words(rule), DEFAULT);
    }
  }

  /** Whatever an accepted rule repeats or leaves to defaults, printing what it means and reading that is reading the rule. */
  lemma ParsePrintParse(rule: string)
    requires ParseRule(rule).Some?
    ensures ParseRule(Print(ParseRule(rule).value)) == ParseRule(rule)
  {
    ParseKeepsWellFormed(Words(rule), DEFAULT);
    PrintThenParse(ParseRule(rule).value);
  }

  // ---- What rules mean ----

  /** The directives of a rule as its author writes them. */
  datatype Directive =
    | NoCache
    | UseCookie(name: string)
    | SetsCookie(name: string)
    | UpstreamHeader(name: string)
    | Path(path: string)

  function TextOf(d: Directive): seq<string> {
    match d
    case NoCache => ["nocache"]
    case UseCookie(name) => ["cookie", name]
    case SetsCookie(name) => ["set-cookie", name]
    case UpstreamHeader(name) => ["set-upstream-header", name]
    case Path(path) => ["cookie-path", path]
  }

  function Spelled(ds: seq<Directive>): seq<string> {
    if ds == [] then [] else TextOf(ds[0]) + Spelled(ds[1..])
  }

  /** What the last directive that names a cookie, or a header, or a path, says. */
  function LastCookie(ds: seq<Directive>, before: string): string {
    if ds == [] then before else LastCookie(ds[1..], if ds[0].UseCookie? || ds[0].SetsCookie? then ds[0].name else before)
  }

  function LastHeader(ds: seq<Directive>, before: string): string {
    if ds == [] then before else LastHeader(ds[1..], if ds[0].UpstreamHeader? then ds[0].name else before)
  }

  function LastPath(ds: seq<Directive>, before: string): string {
    if ds == [] then before else LastPath(ds[1..], if ds[0].Path? then ds[0].path else before)
  }

  /** The configuration `c` after the directives. */
  ghost predicate Means(ds: seq<Directive>, c: Config, r: Config) {
    && (r.nocache <==> c.nocache || exists d :: d in ds && d.NoCache?)
    && (r.setCookie <==> c.setCookie || exists d :: d in ds && d.SetsCookie?)
    && (r.setUpstreamHeader <==> c.setUpstreamHeader || exists d :: d in ds && d.UpstreamHeader?)
    && r.cookieName == LastCookie(ds, c.cookieName)
    && r.headerName == LastHeader(ds, c.headerName)
    && r.cookiePath == LastPath(ds, c.cookiePath)
  }

  function AfterOne(d: Directive, c: Config): Config {
    match d
    case NoCache => c.(nocache := true)
    case UseCookie(name) => c.(cookieName := name)
    case SetsCookie(name) => c.(setCookie := true, cookieName := name)
    case UpstreamHeader(name) => c.(setUpstreamHeader := true, headerName := name)
    case Path(path) => c.(cookiePath := path)
  }

  lemma ParseDirective(d: Directive, rest: seq<string>, c: Config)
    ensures Parse(TextOf(d) + rest, c) == Parse(rest, AfterOne(d, c))
  {
    var ws := TextOf(d) + rest;
    assert d.NoCache? ==> ws[1..] == rest;
    assert !d.NoCache? ==> ws[2..] == rest;
  }

  lemma SaidMore(d: Directive, rest: seq<Directive>, ds: seq<Directive>)
    requires ds == [d] + rest
    ensures (exists x :: x in ds && x.NoCache?) <==> d.NoCache? || exists x :: x in rest && x.NoCache?
    ensures (exists x :: x in ds && x.SetsCookie?) <==> d.SetsCookie? || exists x :: x in rest && x.SetsCookie?
    ensures (exists x :: x in ds && x.UpstreamHeader?) <==> d.UpstreamHeader? || exists x :: x in rest && x.UpstreamHeader?
  {
    assert forall x :: x in ds <==> x == d || x in rest;
  }

  lemma MeansMore(d: Directive, rest: seq<Directive>, ds: seq<Directive>, c: Config, r: Config)
    requires ds == [d] + rest && Means(rest, AfterOne(d, c), r)
    ensures Means(ds, c, r)
  {
    assert ds[1..] == rest && ds[0] == d;
    SaidMore(d, rest, ds);
  }

  /** Directives are taken one after another, the last one of each kind counts. */
  lemma {:induction false} SpelledMeans(ds: seq<Directive>, c: Config) returns (r: Config)
    ensures Parse(Spelled(ds), c) == Some(r) && Means(ds, c, r)
  {
    if ds == [] {
      r := c;
    } else {
      var d, rest := ds[0], ds[1..];
      ParseDirective(d, Spelled(rest), c);
      r := SpelledMeans(rest, AfterOne(d, c));
      MeansMore(d, rest, ds, c, r);
    }
  }

  lemma SpelledMore(d: Directive, ds: seq<Directive>)
    ensures Spelled([d] + ds) == TextOf(d) + Spelled(ds)
  {
    assert ([d] + ds)[1..] == ds;
  }

  /** Nothing but directives is accepted. */
  lemma {:induction false} AcceptedIsSpelled(ws: seq<string>, c: Config) returns (ds: seq<Directive>)
    requires Parse(ws, c).Some?
    ensures Spelled(ds) == ws
  {
    if ws == [] {
      ds := [];
    } else if ws[0] == "nocache" {
      var rest := AcceptedIsSpelled(ws[1..], c.(nocache := true));
      SpelledMore(NoCache, rest);
      ds := [NoCache] + rest;
    } else {
      var d := if ws[0] == "set-cookie" then SetsCookie(ws[1]) else if ws[0] == "cookie" then UseCookie(ws[1])
               else if ws[0] == "set-upstream-header" then UpstreamHeader(ws[1]) else Path(ws[1]);
      var rest := AcceptedIsSpelled(ws[2..], Setting(ws[0], ws[1], c));
      SpelledMore(d, rest);
      assert ws == TextOf(d) + ws[2..];
      ds := [d] + rest;
    }
  }

  /**
   * Rules, without their parser: one is accepted exactly if its words spell
   * directives, and then it means what they say, from no cookie, no header, the
   * path `/` and caching as it is.
   */
  lemma RuleMeans(rule: string)
    ensures ParseRule(rule).Some? <==> exists ds :: Spelled(ds) == Words(rule)
    ensures forall ds :: Spelled(ds) == Words(rule) ==>
              ParseRule(rule).Some? && Means(ds, Config("", "/", "", false, false, false), ParseRule(rule).value)
  {
    if ParseRule(rule).Some? {
      var ds := AcceptedIsSpelled(Words(rule), DEFAULT);
    }
    forall ds | Spelled(ds) == Words(rule)
      ensures ParseRule(rule).Some? && Means(ds, Config("", "/", "", false, false, false), ParseRule(rule).value)
    {
      var r := SpelledMeans(ds, DEFAULT);
    }
  }

  lemma {:induction false} UnknownStops(ds: seq<Directive>, word: string, rest: seq<string>, c: Config)
    requires word !in {"nocache", "cookie", "set-cookie", "set-upstream-header", "cookie-path"}
    ensures Parse(Spelled(ds) + [word] + rest, c).None?
  {
    if ds == [] {
      assert Spelled(ds) + [word] + rest == [word] + rest;
    } else {
      var tail := Spelled(ds[1..]) + [word] + rest;
      assert Spelled(ds) + [word] + rest == TextOf(ds[0]) + tail;
      ParseDirective(ds[0], tail, c);
      UnknownStops(ds[1..], word, rest, AfterOne(ds[0], c));
    }
  }

  /** A rule with a word that is neither a directive nor the argument of one before it is rejected. */
  lemma UnknownRejected(ds: seq<Directive>, word: string, rest: seq<string>, rule: string)
    requires Words(rule) == Spelled(ds) + [word] + rest
    requires word !in {"nocache", "cookie", "set-cookie", "set-upstream-header", "cookie-path"}
    ensures ParseRule(rule).None?
  {
    UnknownStops(ds, word, rest, DEFAULT);
  }

  /** So is one that ends in a directive without its argument. */
  lemma {:induction false} MissingArgumentStops(ds: seq<Directive>, word: string, c: Config)
    requires word in {"cookie", "set-cookie", "set-upstream-header", "cookie-path"}
    ensures Parse(Spelled(ds) + [word], c).None?
  {
    if ds == [] {
      assert Spelled(ds) + [word] == [word];
    } else {
      assert Spelled(ds) + [word] == TextOf(ds[0]) + (Spelled(ds[1..]) + [word]);
      ParseDirective(ds[0], Spelled(ds[1..]) + [word], c);
      MissingArgumentStops(ds[1..], word, AfterOne(ds[0], c));
    }
  }

  // ---- Requests ----

  datatype Cookie = Cookie(name: string, value: string, path: string)

  /** The characters of a token (section 3.2.6 of RFC 7230). */
  predicate IsTokenChar(c: char) {
    || '0' <= c <= '9' || 'A' <= c <= 'Z' || 'a' <= c <= 'z'
    || c in {'!', '#', '$', '%', '&', '\'', '*', '+', '-', '.', '^', '_', '`', '|', '~'}
  }

  /** In other words: the visible ASCII characters except the delimiters. */
  lemma TokenCharsExactly(c: char)
    ensures IsTokenChar(c)
            <==> 0x20 < c as int < 0x7f
                 && c !in {'(', ')', ',', '/', ':', ';', '<', '=', '>', '?', '@', '[', '\\', ']', '{', '}', '\"'}
  {
  }

  /** The names under which net/http sets and finds cookies. */
  predicate IsToken(name: string) {
    name != "" && forall i :: 0 <= i < |name| ==> IsTokenChar(name[i])
  }

  /** Characters the path of a cookie may hold. */
  predicate InPath(c: char) {
    ' ' <= c <= '~' && c != ';'
  }

  /** What net/http makes of the path of a cookie. */
  function CookiePath(path: string): (p: string)
    ensures forall i :: 0 <= i < |p| ==> InPath(p[i])
  {
    if path == "" then ""
    else (if InPath(path[0]) then [path[0]] else "") + CookiePath(path[1..])
  }

  /** Characters it may hold are kept, all others are dropped. */
  lemma CookiePathOf(c: char)
    ensures CookiePath("") == "" && CookiePath([c]) == if ' ' <= c <= '~' && c != ';' then [c] else ""
  {
    assert [c][1..] == "";
  }

  lemma Associates(a: string, b: string, c: string)
    ensures a + (b + c) == (a + b) + c
  {
  }

  lemma {:induction false} CookiePathJoin(a: string, b: string)
    ensures CookiePath(a + b) == CookiePath(a) + CookiePath(b)
  {
    if a == "" {
      assert a + b == b;
    } else {
      CookiePathJoin(a[1..], b);
      assert (a + b)[1..] == a[1..] + b && (a + b)[0] == a[0];
      Associates(if InPath(a[0]) then [a[0]] else "", CookiePath(a[1..]), CookiePath(b));
    }
  }

  /** What a request comes to: the upstream header and the cookie that are set, if any. */
  datatype Outcome = Outcome(header: Option<string>, cookie: Option<string>)

  /** Of a cookie that was sent net/http finds only one whose name is a token. */
  function Found(c: Config, sent: Option<string>): Option<string> {
    if IsToken(c.cookieName) then sent else None
  }

  /** The cookie value a request is handled with: the one found, a new one if allowed, or none. */
  function StickyValue(c: Config, sent: Option<string>, random: string): string {
    if c.cookieName == "" then ""
    else if Found(c, sent).Some? then sent.value
    else if c.setCookie then random
    else ""
  }

  /** No cookie goes out under a name that is no token. */
  function Respond(c: Config, sent: Option<string>, random: string): Outcome {
    var v := StickyValue(c, sent, random);
    Outcome(if c.setUpstreamHeader && c.headerName != "" && v != "" then Some(v) else None,
            if IsToken(c.cookieName) && sent.None? && c.setCookie then Some(random) else None)
  }

  /** The decision, case by case. */
  lemma RespondExactly(c: Config, sent: Option<string>, random: string)
    requires random != ""
    ensures c.cookieName == "" ==> Respond(c, sent, random) == Outcome(None, None)
    ensures !c.setUpstreamHeader ==> Respond(c, sent, random).header == None
    ensures sent.Some? && IsToken(c.cookieName) ==>
              && Respond(c, sent, random).cookie == None
              && (c.setUpstreamHeader && c.headerName != "" && sent.value != "" ==> Respond(c, sent, random).header == sent)
              && (sent.value == "" ==> Respond(c, sent, random).header == None)
    ensures sent.None? && !c.setCookie ==> Respond(c, sent, random) == Outcome(None, None)
    ensures sent.None? && c.setCookie && IsToken(c.cookieName) ==>
              && Respond(c, sent, random).cookie == Some(random)
              && (c.setUpstreamHeader && c.headerName != "" ==> Respond(c, sent, random).header == Some(random))
  {
  }

  function Sent(cookies: map<string, string>, name: string): Option<string> {
    if name in cookies then Some(cookies[name]) else None
  }

  /** The headers a request and its response carry while they pass the handler. */
  class Exchange {
    var requestHeader: map<string, string>
    var cacheControl: string
    var setCookies: seq<Cookie>
    const cookies: map<string, string>

    constructor (requestHeader: map<string, string>, cookies: map<string, string>, cacheControl: string)
      ensures this.requestHeader == requestHeader && this.cookies == cookies
      ensures this.cacheControl == cacheControl && setCookies == []
    {
      this.requestHeader, this.cookies, this.cacheControl, setCookies := requestHeader, cookies, cacheControl, [];
    }

    /** req.Cookie. */
    method FindCookie(name: string) returns (cookie: Option<string>)
      ensures cookie == if IsToken(name) then Sent(cookies, name) else None
    {
      if !IsToken(name) {
        return None;
      }
      cookie := Sent(cookies, name);
    }

    /** http.SetCookie. */
    method SetCookie(cookie: Cookie)
      modifies `setCookies
      ensures setCookies == old(setCookies) + if IsToken(cookie.name) then [cookie.(path := CookiePath(cookie.path))] else []
    {
      if IsToken(cookie.name) {
        setCookies := setCookies + [cookie.(path := CookiePath(cookie.path))];
      }
    }
  }

  /** The handler's work before the next handler runs. */
  method Handle(c: Config, x: Exchange, random: string)
    modifies x
    ensures var o := Respond(c, Sent(x.cookies, c.cookieName), random);
            && x.requestHeader == (if o.header.Some? then old(x.requestHeader)[c.headerName := o.header.value]
                                   else old(x.requestHeader))
            && x.setCookies == old(x.setCookies) + (if o.cookie.Some?
                                                    then [Cookie(c.cookieName, o.cookie.value, CookiePath(c.cookiePath))]
                                                    else [])
            && x.cacheControl == if c.nocache && old(x.cacheControl) == "" then "nocache" else old(x.cacheControl)
  {
    var setCookie := false;
    var stickyValue := "";
    if c.cookieName != "" {
      var cookie := x.FindCookie(c.cookieName);
      if cookie.Some? {
        stickyValue := cookie.value;
      } else if c.setCookie {
        stickyValue := random;
        setCookie := true;
      }
      if c.setUpstreamHeader && c.headerName != "" && stickyValue != "" {
        x.requestHeader := x.requestHeader[c.headerName := stickyValue];
      }
    }
    if c.nocache {
      if x.cacheControl == "" {
        x.cacheControl := "nocache";
      }
    }
    if setCookie {
      x.SetCookie(Cookie(c.cookieName, stickyValue, c.cookiePath));
    }
  }

  // ---- Sessions ----

  /** One request of a run: which client sends it and the random value drawn for it. */
  datatype Hit = Hit(client: nat, random: string)

  type Jars = map<nat, string>

  function JarOf(jars: Jars, client: nat): Option<string> {
    if client in jars then Some(jars[client]) else None
  }

  function Decide(c: Config, jars: Jars, h: Hit): Outcome {
    Respond(c, JarOf(jars, h.client), h.random)
  }

  /** Clients keep the cookies they are given. */
  function JarsAfter(c: Config, jars: Jars, hits: seq<Hit>): Jars
    decreases |hits|
  {
    if hits == [] then jars
    else
      var h, before := hits[|hits| - 1], JarsAfter(c, jars, hits[..|hits| - 1]);
      var o := Decide(c, before, h);
      if o.cookie.Some? then before[h.client := o.cookie.value] else before
  }

  function OutcomeOf(c: Config, jars: Jars, hits: seq<Hit>, i: nat): Outcome
    requires i < |hits|
  {
    Decide(c, JarsAfter(c, jars, hits[..i]), hits[i])
  }

  /** No request before `n` is from the client. */
  predicate Unseen(hits: seq<Hit>, client: nat, n: nat)
    requires n <= |hits|
  {
    forall j :: 0 <= j < n ==> hits[j].client != client
  }

  lemma {:induction false} JarBeforeFirst(c: Config, jars: Jars, hits: seq<Hit>, client: nat)
    requires Unseen(hits, client, |hits|)
    ensures JarOf(JarsAfter(c, jars, hits), client) == JarOf(jars, client)
  {
    if hits != [] {
      assert forall j :: 0 <= j < |hits| - 1 ==> hits[..|hits| - 1][j] == hits[j];
      JarBeforeFirst(c, jars, hits[..|hits| - 1], client);
    }
  }

  lemma {:induction false} JarAfterFirst(c: Config, jars: Jars, hits: seq<Hit>, client: nat, first: nat)
    requires IsToken(c.cookieName) && c.setCookie && client !in jars
    requires first < |hits| && hits[first].client == client && Unseen(hits, client, first)
    ensures JarOf(JarsAfter(c, jars, hits), client) == Some(hits[first].random)
  {
    var n := |hits| - 1;
    assert forall j :: 0 <= j < n ==> hits[..n][j] == hits[j];
    if first == n {
      JarBeforeFirst(c, jars, hits[..n], client);
    } else {
      JarAfterFirst(c, jars, hits[..n], client, first);
    }
  }

  /** The client starts without the cookie, at request `first`; every random value drawn is some text. */
  ghost predicate StartsFresh(jars: Jars, hits: seq<Hit>, client: nat, first: nat) {
    && client !in jars && (forall h :: h in hits ==> h.random != "")
    && first < |hits| && hits[first].client == client && Unseen(hits, client, first)
  }

  /** From `first` on all requests of the client carry the value drawn there, and only that response sets the cookie, to it. */
  ghost predicate Sticks(c: Config, jars: Jars, hits: seq<Hit>, client: nat, first: nat)
    requires first < |hits|
  {
    forall i :: first <= i < |hits| && hits[i].client == client ==>
      OutcomeOf(c, jars, hits, i) == Outcome(Some(hits[first].random), if i == first then Some(hits[first].random) else None)
  }

  /**
   * Stickiness: however the requests of any number of clients interleave, all
   * requests of a client that starts without the cookie carry one header value,
   * drawn at its first request, and only that first response sets the cookie.
   */
  lemma SessionsStick(c: Config, jars: Jars, hits: seq<Hit>, client: nat, first: nat)
    requires WellFormed(c) && c.setCookie && c.setUpstreamHeader && IsToken(c.cookieName)
    requires StartsFresh(jars, hits, client, first)
    ensures Sticks(c, jars, hits, client, first)
  {
    assert hits[first] in hits;
    forall i | first <= i < |hits| && hits[i].client == client
      ensures OutcomeOf(c, jars, hits, i) == Outcome(Some(hits[first].random), if i == first then Some(hits[first].random) else None)
    {
      if i == first {
        JarBeforeFirst(c, jars, hits[..i], client);
      } else {
        JarAfterFirst(c, jars, hits[..i], client, first);
      }
    }
  }

  /** Under a name that is no token no client ever gets the cookie, and every request carries a value of its own. */
  lemma NoTokenNoSession(c: Config, jars: Jars, hits: seq<Hit>, i: nat)
    requires WellFormed(c) && c.setCookie && c.setUpstreamHeader && !IsToken(c.cookieName)
    requires i < |hits| && hits[i].random != ""
    ensures OutcomeOf(c, jars, hits, i) == Outcome(Some(hits[i].random), None)
  {
  }

  /**
   * With set-cookie and set-upstream-header, fresh clients stick in all runs if and
   * only if the cookie's name is a token.
   */
  lemma SticksExactly(c: Config)
    requires WellFormed(c) && c.setCookie && c.setUpstreamHeader
    ensures (forall jars, hits, client, first :: StartsFresh(jars, hits, client, first) ==> Sticks(c, jars, hits, client, first))
            <==> IsToken(c.cookieName)
  {
    if IsToken(c.cookieName) {
      forall jars, hits, client, first | StartsFresh(jars, hits, client, first)
        ensures Sticks(c, jars, hits, client, first)
      {
        SessionsStick(c, jars, hits, client, first);
      }
    } else {
      var hits := [Hit(0, "a"), Hit(0, "b")];
      assert StartsFresh(map[], hits, 0, 0);
      NoTokenNoSession(c, map[], hits, 0);
      assert !Sticks(c, map[], hits, 0, 0);
    }
  }

  function StickyRule(name: string, header: string): seq<string> {
    ["set-cookie", name] + ["set-upstream-header", header]
  }

  lemma StickyRuleParsed(name: string, header: string)
    ensures Parse(StickyRule(name, header), DEFAULT)
            == Some(DEFAULT.(cookieName := name, setCookie := true, headerName := header, setUpstreamHeader := true))
  {
    var rest := ["set-upstream-header", header];
    ParseStep("set-cookie", name, rest, DEFAULT);
    ParseStep("set-upstream-header", header, [], Setting("set-cookie", name, DEFAULT));
    assert rest + [] == rest;
  }

  lemma StickyRuleWords(name: string, header: string)
    requires IsWord(name) && IsWord(header)
    ensures Words(Line(StickyRule(name, header))) == StickyRule(name, header)
  {
    NamesAreWords();
    AllWordsJoin(["set-cookie", name], ["set-upstream-header", header]);
    WordsLine(StickyRule(name, header));
  }

  /** The rule `set-cookie a=b set-upstream-header X` is accepted, and two requests of one client carry different values. */
  lemma RuleWithoutToken(rule: string)
    requires rule == Line(StickyRule("a=b", "X"))
    ensures ParseRule(rule).Some?
    ensures var c, hits := ParseRule(rule).value, [Hit(0, "a"), Hit(0, "b")];
            OutcomeOf(c, map[], hits, 0).header == Some("a") && OutcomeOf(c, map[], hits, 1).header == Some("b")
  {
    assert IsWord("a=b") && IsWord("X");
    StickyRuleWords("a=b", "X");
    StickyRuleParsed("a=b", "X");
    var c := ParseRule(rule).value;
    assert c.cookieName[1] == '=';
    NoTokenNoSession(c, map[], [Hit(0, "a"), Hit(0, "b")], 0);
    NoTokenNoSession(c, map[], [Hit(0, "a"), Hit(0, "b")], 1);
  }

  /** A client that brings the cookie keeps it and is never given another; under a token it is also handled with its value. */
  lemma {:induction false} BroughtCookieStays(c: Config, jars: Jars, hits: seq<Hit>, client: nat)
    requires client in jars
    ensures JarOf(JarsAfter(c, jars, hits), client) == Some(jars[client])
    ensures forall i :: 0 <= i < |hits| && hits[i].client == client ==> OutcomeOf(c, jars, hits, i).cookie.None?
    ensures IsToken(c.cookieName) && c.setUpstreamHeader && c.headerName != "" && jars[client] != "" ==>
              forall i :: 0 <= i < |hits| && hits[i].client == client ==> OutcomeOf(c, jars, hits, i).header == Some(jars[client])
  {
    if hits != [] {
      var n := |hits| - 1;
      BroughtCookieStays(c, jars, hits[..n], client);
      forall i | 0 <= i < n ensures OutcomeOf(c, jars, hits[..n], i) == OutcomeOf(c, jars, hits, i) {
        assert hits[..n][i] == hits[i] && hits[..n][..i] == hits[..i];
      }
      assert forall i :: 0 <= i < n ==> hits[..n][i] == hits[i];
    }
  }
}
