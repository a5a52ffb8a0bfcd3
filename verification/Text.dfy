// Splitting of key paths at their first slash: the library call that all
// three writing and reading handlers of the kvs plugin start from.
module Text {
  datatype Option<+T> = None | Some(value: T)

  /** What strings.SplitN(s, "/", 2) yields: one part, or the two parts around the first slash. */
  function SplitSlash(s: string): (parts: seq<string>)
    ensures |parts| == if '/' in s then 2 else 1
    ensures '/' !in parts[0]
    ensures s == if '/' in s then parts[0] + "/" + parts[1] else parts[0]
  {
    if s == "" then [""]
    else if s[0] == '/' then ["", s[1..]]
    else
      var rest := SplitSlash(s[1..]);
      [[s[0]] + rest[0]] + rest[1..]
  }

  /** The first part is determined by the text: nothing else without a slash can stand before the first slash. */
  lemma {:induction false} SplitSlashUnique(head: string, tail: string)
    requires '/' !in head
    ensures SplitSlash(head + "/" + tail) == [head, tail]
  {
    var s := head + "/" + tail;
    if head == "" {
      assert s[0] == '/' && s[1..] == tail;
    } else {
      assert s[0] == head[0] && s[1..] == head[1..] + "/" + tail;
      SplitSlashUnique(head[1..], tail);
      assert [head[0]] + head[1..] == head;
    }
  }

  lemma Regroup(head: string, tail: string, rest: string)
    ensures (head + "/" + tail) + rest == head + "/" + (tail + rest)
  {
  }

  /** A prefix that already contains a slash has the same first part as the whole text. */
  lemma PrefixKeepsFirstPart(prefix: string, s: string)
    requires '/' in prefix && prefix <= s
    ensures '/' in s && SplitSlash(s)[0] == SplitSlash(prefix)[0]
  {
    var parts, rest := SplitSlash(prefix), s[|prefix|..];
    Regroup(parts[0], parts[1], rest);
    assert s == prefix + rest;
    SplitSlashUnique(parts[0], parts[1] + rest);
  }
}
