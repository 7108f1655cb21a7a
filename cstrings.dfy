/**
 * C strings as the client handles them. A C string is a run of non-NUL bytes
 * followed by an implicit terminator; here it is a `string` whose characters
 * all stand for bytes 1..255, and the terminator is not stored.
 */
module CStrings {
  import opened Wrappers

  ghost predicate IsCString(s: string) {
    forall i | 0 <= i < |s| :: 1 <= s[i] as int <= 255
  }

  type CString = s: string | IsCString(s) witness ""

  /** The byte at position `i`, reading the terminator at `|s|` (what `s[i]` reads in C). */
  function ByteAt(s: CString, i: nat): (b: int)
    requires i <= |s|
    ensures i < |s| ==> 1 <= b <= 255
    ensures b == 0 <==> i == |s|
  {
    if i < |s| then s[i] as int else 0
  }

  /** `tolower` in the C locale: only 'A'..'Z' change. */
  function ToLower(c: char): (l: char)
    ensures 'A' <= c <= 'Z' ==> l as int == c as int + 32
    ensures !('A' <= c <= 'Z') ==> l == c
  {
    if 'A' <= c <= 'Z' then (c as int + 32) as char else c
  }

  /** `strcasecmp(a, b) == 0`. */
  predicate CaseEqual(a: string, b: string) {
    |a| == |b| && forall i | 0 <= i < |a| :: ToLower(a[i]) == ToLower(b[i])
  }

  lemma CaseEqualSymmetric(a: string, b: string)
    ensures CaseEqual(a, b) <==> CaseEqual(b, a)
  {
  }

  lemma CaseEqualTransitive(a: string, b: string, c: string)
    requires CaseEqual(a, b) && CaseEqual(b, c)
    ensures CaseEqual(a, c)
  {
  }

  /** `strchr(s, c)`: the index of the first occurrence of `c`, if any. */
  function FirstIndex(s: string, c: char): (r: Option<nat>)
    ensures r.None? <==> c !in s
    ensures r.Some? ==> r.value < |s| && s[r.value] == c && c !in s[..r.value]
  {
    if |s| == 0 then None
    else if s[0] == c then Some(0)
    else match FirstIndex(s[1..], c)
      case None => None
      case Some(k) => assert s[1..][..k] == s[1..k + 1]; Some(k + 1)
  }

  /** `strrchr(s, c)`: the index of the last occurrence of `c`, if any. */
  function LastIndex(s: string, c: char): (r: Option<nat>)
    ensures r.None? <==> c !in s
    ensures r.Some? ==> r.value < |s| && s[r.value] == c && c !in s[r.value + 1..]
  {
    if |s| == 0 then None
    else if s[|s| - 1] == c then Some(|s| - 1)
    else match LastIndex(s[..|s| - 1], c)
      case None => None
      case Some(k) => assert s[k + 1..] == s[..|s| - 1][k + 1..] + [s[|s| - 1]]; Some(k)
  }
}
