/**
 * String helpers with the meaning the .NET calls in the order provider have on ASCII text:
 * ordinal case-insensitive equality, Trim(chars), Split(char), string.Join and bool.ToString.
 */
module Text {
  import opened Wrappers

  /** Folds an upper-case ASCII letter to lower case; every other character is kept. */
  function LowerChar(c: char): char {
    if 'A' <= c <= 'Z' then (c as int + 32) as char else c
  }

  function Lower(s: string): (r: string)
    ensures |r| == |s|
    ensures forall i :: 0 <= i < |s| ==> r[i] == LowerChar(s[i])
  {
    seq(|s|, i requires 0 <= i < |s| => LowerChar(s[i]))
  }

  /** `string.Equals(a, b, StringComparison.OrdinalIgnoreCase)` and `string.Compare(a, b, true) == 0`. */
  predicate EqualsIgnoreCase(a: string, b: string) {
    Lower(a) == Lower(b)
  }

  /** `string.IsNullOrEmpty`, with `None` for the C# null string. */
  predicate IsNullOrEmpty(s: Option<string>) {
    s.None? || s.value == ""
  }

  /**
   * `char.IsWhiteSpace`: the control characters U+0009 to U+000D and U+0085, and the
   * space, line and paragraph separators of Unicode.
   */
  predicate IsWhiteSpace(c: char) {
    || ('\t' <= c <= '\r')
    || c == ' ' || c == '\U{0085}' || c == '\U{00A0}' || c == '\U{1680}'
    || ('\U{2000}' <= c <= '\U{200A}')
    || c == '\U{2028}' || c == '\U{2029}' || c == '\U{202F}' || c == '\U{205F}' || c == '\U{3000}'
  }

  /** `string.IsNullOrWhiteSpace`. */
  predicate IsNullOrWhiteSpace(s: Option<string>) {
    s.None? || forall i :: 0 <= i < |s.value| ==> IsWhiteSpace(s.value[i])
  }

  /** `bool.ToString()`. */
  function BoolText(b: bool): string {
    if b then "True" else "False"
  }

  /** The characters `Trim(new char[] { ' ', '[', ']' })` removes. */
  predicate IsColumnTrimChar(c: char) {
    c == ' ' || c == '[' || c == ']'
  }

  function TrimStart(s: string): (r: string)
    ensures |r| <= |s| && r == s[|s| - |r|..]
    ensures r != [] ==> !IsColumnTrimChar(r[0])
  {
    if s != [] && IsColumnTrimChar(s[0]) then TrimStart(s[1..]) else s
  }

  function TrimEnd(s: string): (r: string)
    ensures |r| <= |s| && r == s[..|r|]
    ensures r != [] ==> !IsColumnTrimChar(r[|r| - 1])
  {
    if s != [] && IsColumnTrimChar(s[|s| - 1]) then TrimEnd(s[..|s| - 1]) else s
  }

  /** `s.Trim(' ', '[', ']')`: strips those characters from both ends. */
  function Trim(s: string): (r: string)
    ensures r != [] ==> !IsColumnTrimChar(r[0]) && !IsColumnTrimChar(r[|r| - 1])
  {
    TrimEnd(TrimStart(s))
  }

  /**
   * `s.Split(sep)`: the pieces between separators, always at least one. Defined from the
   * back so that appending characters is easy to reason about.
   */
  function Split(s: string, sep: char): (r: seq<string>)
    ensures |r| >= 1
  {
    if s == [] then [""]
    else
      var p := Split(s[..|s| - 1], sep);
      var c := s[|s| - 1];
      if c == sep then p + [""] else p[..|p| - 1] + [p[|p| - 1] + [c]]
  }

  /** Appending a separator and a separator-free tail adds exactly that tail as the last piece. */
  lemma {:induction false} SplitAppend(a: string, sep: char, b: string)
    requires sep !in b
    ensures Split(a + [sep] + b, sep) == Split(a, sep) + [b]
  {
    if b == [] {
      assert (a + [sep] + b)[..|a + [sep] + b| - 1] == a;
    } else {
      var b' := b[..|b| - 1];
      var s := a + [sep] + b;
      assert s[..|s| - 1] == a + [sep] + b';
      assert b'+ [b[|b| - 1]] == b;
      SplitAppend(a, sep, b');
    }
  }

  /** `string.Join(sep, parts)`. */
  function Join(parts: seq<string>, sep: string): string {
    if parts == [] then ""
    else if |parts| == 1 then parts[0]
    else Join(parts[..|parts| - 1], sep) + sep + parts[|parts| - 1]
  }

  /** A join of non-empty parts is empty exactly when there are no parts. */
  lemma {:induction false} JoinEmptyIff(parts: seq<string>, sep: string)
    requires forall i :: 0 <= i < |parts| ==> parts[i] != ""
    ensures Join(parts, sep) == "" <==> parts == []
  {
    if |parts| > 1 {
      JoinEmptyIff(parts[..|parts| - 1], sep);
    }
  }

  lemma JoinSnoc(parts: seq<string>, sep: string, last: string)
    ensures Join(parts + [last], sep) == if parts == [] then last else Join(parts, sep) + sep + last
  {
    assert (parts + [last])[..|parts|] == parts;
  }
}
