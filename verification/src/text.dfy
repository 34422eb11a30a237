/** Character classes and searches over text, shared by the parsers. */
module Text {

  predicate IsAsciiLetter(c: char) {
    'a' <= c <= 'z' || 'A' <= c <= 'Z'
  }

  predicate IsAsciiLower(c: char) {
    !('A' <= c <= 'Z')
  }

  /** ASCII lower-casing; every other character is kept. */
  function ToLowerChar(c: char): (r: char)
    ensures IsAsciiLower(r)
    ensures IsAsciiLetter(c) <==> IsAsciiLetter(r)
    ensures IsAsciiLower(c) ==> r == c
  {
    if 'A' <= c <= 'Z' then (c as int + 32) as char else c
  }

  function ToLower(s: string): (r: string)
    ensures |r| == |s|
    ensures forall i :: 0 <= i < |s| ==> r[i] == ToLowerChar(s[i])
  {
    seq(|s|, i requires 0 <= i < |s| => ToLowerChar(s[i]))
  }

  /** Index of the first `c` in `s`, or `|s|` when there is none. */
  function IndexOf(s: string, c: char): (i: nat)
    ensures i <= |s|
    ensures i < |s| ==> s[i] == c
    ensures forall j :: 0 <= j < i ==> s[j] != c
  {
    IndexFrom(s, c, 0)
  }

  /** Index of the first `c` in `s` at or after `k`, or `|s|`. */
  function IndexFrom(s: string, c: char, k: nat): (i: nat)
    requires k <= |s|
    ensures k <= i <= |s|
    ensures i < |s| ==> s[i] == c
    ensures forall j :: k <= j < i ==> s[j] != c
    decreases |s| - k
  {
    if k == |s| || s[k] == c then k else IndexFrom(s, c, k + 1)
  }

  /** `IndexOf` is the only index with its two properties. */
  lemma IndexOfUnique(s: string, c: char, i: nat)
    requires i <= |s|
    requires i < |s| ==> s[i] == c
    requires forall j :: 0 <= j < i ==> s[j] != c
    ensures IndexOf(s, c) == i
  {
  }

  /** Searching past a prefix free of `c`. */
  lemma IndexOfAfterPrefix(a: string, b: string, c: char)
    requires forall j :: 0 <= j < |a| ==> a[j] != c
    ensures IndexOf(a + b, c) == |a| + IndexOf(b, c)
  {
    var s := a + b;
    var k := IndexOf(b, c);
    forall j | 0 <= j < |a| + k
      ensures s[j] != c
    {
      if j >= |a| {
        assert s[j] == b[j - |a|];
      }
    }
    if |a| + k < |s| {
      assert s[|a| + k] == b[k];
    }
    IndexOfUnique(s, c, |a| + k);
  }

  /** `s` has two equal neighbouring characters `c`. */
  predicate HasDouble(s: string, c: char) {
    exists i :: 0 <= i < |s| - 1 && s[i] == c && s[i + 1] == c
  }
}
