/** Text helpers shared by the models: Python's `strip`, `casefold` and `split`/`join`
    on the ASCII range. */
module Strings {

  predicate IsSpace(c: char) {
    c == ' ' || '\t' <= c <= '\r' || '\U{1c}' <= c <= '\U{1f}'
  }

  function DropLeft(s: string): (r: string)
    ensures r != [] ==> !IsSpace(r[0])
    ensures s != [] && !IsSpace(s[0]) ==> r == s
  {
    if s != [] && IsSpace(s[0]) then DropLeft(s[1..]) else s
  }

  function DropRight(s: string): (r: string)
    ensures r <= s
    ensures r != [] ==> !IsSpace(r[|r| - 1])
    ensures s != [] && !IsSpace(s[|s| - 1]) ==> r == s
  {
    if s != [] && IsSpace(s[|s| - 1]) then DropRight(s[..|s| - 1]) else s
  }

  /** `str.strip()`: the result neither starts nor ends with white space. */
  function Strip(s: string): (r: string)
    ensures r != [] ==> !IsSpace(r[0]) && !IsSpace(r[|r| - 1])
  {
    DropRight(DropLeft(s))
  }

  lemma StripIdempotent(s: string)
    ensures Strip(Strip(s)) == Strip(s)
  {
    var r := Strip(s);
    if r != [] {
      assert DropLeft(r) == r;
    }
  }

  function Lower(c: char): char {
    if 'A' <= c <= 'Z' then (c as int + 32) as char else c
  }

  /** `str.strip().casefold()`, the normal form of every provider token. */
  function Norm(s: string): string {
    Fold(Strip(s))
  }

  function Fold(s: string): (r: string)
    ensures |r| == |s|
  {
    seq(|s|, i requires 0 <= i < |s| => Lower(s[i]))
  }

  /** A token already in normal form: lower-case letters and underscores. */
  predicate PlainToken(s: string) {
    s != "" && forall i :: 0 <= i < |s| ==> 'a' <= s[i] <= 'z' || s[i] == '_'
  }

  lemma NormOfPlain(s: string)
    requires PlainToken(s)
    ensures Norm(s) == s
  {
    assert DropLeft(s) == s;
    assert DropRight(s) == s;
  }
}
