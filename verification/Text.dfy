/** White space and joining of strings. */
module Text {

  /** White space as TrimSpace sees it. */
  predicate IsSpace(c: char) {
    || c == ' ' || '\t' <= c <= '\r' || c == '\U{85}' || c == '\U{A0}' || c == '\U{1680}'
    || '\U{2000}' <= c <= '\U{200A}' || c == '\U{2028}' || c == '\U{2029}' || c == '\U{202F}'
    || c == '\U{205F}' || c == '\U{3000}'
  }

  function TrimLeft(s: string): string {
    if s != "" && IsSpace(s[0]) then TrimLeft(s[1..]) else s
  }

  function TrimRight(s: string): string {
    if s != "" && IsSpace(s[|s| - 1]) then TrimRight(s[..|s| - 1]) else s
  }

  function TrimSpace(s: string): string {
    TrimRight(TrimLeft(s))
  }

  lemma TrimmedKept(s: string)
    requires s != "" && !IsSpace(s[0]) && !IsSpace(s[|s| - 1])
    ensures TrimSpace(s) == s
  {
  }

  /** Trimming keeps a contiguous part. */
  lemma {:induction false} TrimLeftSuffix(s: string)
    ensures |TrimLeft(s)| <= |s| && TrimLeft(s) == s[|s| - |TrimLeft(s)|..]
  {
    if s != "" && IsSpace(s[0]) {
      TrimLeftSuffix(s[1..]);
    }
  }

  lemma {:induction false} TrimRightPrefix(s: string)
    ensures TrimRight(s) <= s
  {
    if s != "" && IsSpace(s[|s| - 1]) {
      TrimRightPrefix(s[..|s| - 1]);
    }
  }

  /** A part that begins and ends with other than white space is still there after trimming. */
  lemma {:induction false} TrimKeepsPart(before: string, part: string, after: string) returns (p: string, q: string)
    requires part != "" && !IsSpace(part[0]) && !IsSpace(part[|part| - 1])
    ensures TrimSpace(before + part + after) == p + part + q
  {
    p := TrimLeftKeeps(before, part + after);
    assert before + part + after == before + (part + after);
    q := TrimRightKeeps(p + part, after);
    assert p + (part + after) == p + part + after;
  }

  lemma {:induction false} TrimLeftKeeps(before: string, part: string) returns (p: string)
    requires part != "" && !IsSpace(part[0])
    ensures TrimLeft(before + part) == p + part
  {
    if before == "" || !IsSpace(before[0]) {
      assert before == "" ==> before + part == part;
      return before;
    }
    assert (before + part)[1..] == before[1..] + part;
    p := TrimLeftKeeps(before[1..], part);
  }

  lemma {:induction false} TrimRightKeeps(part: string, after: string) returns (q: string)
    requires part != "" && !IsSpace(part[|part| - 1])
    ensures TrimRight(part + after) == part + q
  {
    if after == "" || !IsSpace(after[|after| - 1]) {
      assert after == "" ==> part + after == part;
      return after;
    }
    assert (part + after)[..|part + after| - 1] == part + after[..|after| - 1];
    q := TrimRightKeeps(part, after[..|after| - 1]);
  }

  function Join(parts: seq<string>, separator: string): string {
    if parts == [] then ""
    else if |parts| == 1 then parts[0]
    else parts[0] + separator + Join(parts[1..], separator)
  }

  /** The pieces between the separators. */
  function Split(s: string, separator: char): (parts: seq<string>)
    ensures parts != []
  {
    if s == "" then [""]
    else
      var rest := Split(s[1..], separator);
      if s[0] == separator then [""] + rest else [[s[0]] + rest[0]] + rest[1..]
  }

  lemma {:induction false} SplitFirst(first: string, rest: string, separator: char)
    requires separator !in first
    ensures Split(first, separator) == [first]
    ensures Split(first + [separator] + rest, separator) == [first] + Split(rest, separator)
  {
    if first == "" {
      assert (first + [separator] + rest)[1..] == rest;
    } else {
      SplitFirst(first[1..], rest, separator);
      assert (first + [separator] + rest)[1..] == first[1..] + [separator] + rest;
      assert first == [first[0]] + first[1..];
    }
  }

  /** Joined lines split again into the same lines, as long as none holds the separator. */
  lemma {:induction false} JoinSplits(parts: seq<string>, separator: char)
    requires parts != [] && forall i :: 0 <= i < |parts| ==> separator !in parts[i]
    ensures Split(Join(parts, [separator]), separator) == parts
  {
    if |parts| == 1 {
      SplitFirst(parts[0], "", separator);
    } else {
      var first, rest := parts[0], parts[1..];
      JoinSplits(rest, separator);
      SplitFirst(first, Join(rest, [separator]), separator);
      assert parts == [first] + rest;
    }
  }
}
