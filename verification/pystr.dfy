/** The three Python string operations the schema code relies on:
    `str.strip()`, `str.lower()` and the substring test `w in s`. */
module PyStr {

  /** Python's `str.isspace()` for one character: the ASCII whitespace
      characters, the four information separators, NEL, NBSP and the Unicode
      space separators and line/paragraph separators. */
  predicate IsSpace(c: char) {
    var n := c as int;
    || n == 0x20
    || 0x09 <= n <= 0x0d
    || 0x1c <= n <= 0x1f
    || n == 0x85
    || n == 0xa0
    || n == 0x1680
    || 0x2000 <= n <= 0x200a
    || n == 0x2028
    || n == 0x2029
    || n == 0x202f
    || n == 0x205f
    || n == 0x3000
  }

  predicate AllSpace(s: string) {
    forall k :: 0 <= k < |s| ==> IsSpace(s[k])
  }

  function StripLeading(s: string): (r: string)
    ensures |r| <= |s| && r == s[|s| - |r|..]
    ensures AllSpace(s[..|s| - |r|])
    ensures |r| > 0 ==> !IsSpace(r[0])
  {
    if |s| > 0 && IsSpace(s[0]) then StripLeading(s[1..]) else s
  }

  function StripTrailing(s: string): (r: string)
    ensures |r| <= |s| && r == s[..|r|]
    ensures AllSpace(s[|r|..])
    ensures |r| > 0 ==> !IsSpace(r[|r| - 1])
  {
    if |s| > 0 && IsSpace(s[|s| - 1]) then StripTrailing(s[..|s| - 1]) else s
  }

  /** `r` is the slice `s[a..a + |r|]` and only whitespace lies outside it. */
  predicate MarginsAt(s: string, r: string, a: int) {
    && 0 <= a && a + |r| <= |s|
    && r == s[a..a + |r|]
    && AllSpace(s[..a])
    && AllSpace(s[a + |r|..])
  }

  /** Python's `s.strip()`: `s` with its whitespace margins removed, so that
      no whitespace is left at either end of the result. */
  function Strip(s: string): (r: string)
    ensures exists a :: MarginsAt(s, r, a)
    ensures |r| > 0 ==> !IsSpace(r[0]) && !IsSpace(r[|r| - 1])
  {
    var t := StripLeading(s);
    var r := StripTrailing(t);
    var a := |s| - |t|;
    assert s[a + |r|..] == t[|r|..];
    assert s[a..a + |r|] == r;
    assert MarginsAt(s, r, a);
    r
  }

  /** Stripping twice is stripping once. */
  lemma StripIdempotent(s: string)
    ensures Strip(Strip(s)) == Strip(s)
  {
    var r := Strip(s);
    assert StripLeading(r) == r;
    assert StripTrailing(r) == r;
  }

  function LowerChar(c: char): (d: char)
    ensures !('A' <= d <= 'Z')
  {
    if 'A' <= c <= 'Z' then (c as int - 'A' as int + 'a' as int) as char else c
  }

  function UpperChar(c: char): (d: char)
  {
    if 'a' <= c <= 'z' then (c as int - 'a' as int + 'A' as int) as char else c
  }

  /** Python's `s.lower()` on ASCII letters; other characters are kept. */
  function Lower(s: string): (r: string)
    ensures |r| == |s|
    ensures forall k :: 0 <= k < |s| ==> r[k] == LowerChar(s[k])
  {
    if |s| == 0 then [] else [LowerChar(s[0])] + Lower(s[1..])
  }

  function Upper(s: string): (r: string)
    ensures |r| == |s|
    ensures forall k :: 0 <= k < |s| ==> r[k] == UpperChar(s[k])
  {
    if |s| == 0 then [] else [UpperChar(s[0])] + Upper(s[1..])
  }

  /** `w` occurs in `s` at offset `k`. */
  predicate OccursAt(w: string, s: string, k: int) {
    0 <= k <= |s| - |w| && s[k..k + |w|] == w
  }

  /** `w` occurs in `s` at some offset. */
  ghost predicate Occurs(w: string, s: string) {
    exists k :: OccursAt(w, s, k)
  }

  /** Python's `w in s`, as a left-to-right scan of the offsets of `s`. */
  function Contains(s: string, w: string): (b: bool)
    ensures b <==> Occurs(w, s)
    decreases |s|
  {
    if |w| <= |s| && s[..|w|] == w then
      assert OccursAt(w, s, 0);
      true
    else if |s| <= |w| then
      false
    else
      var b := Contains(s[1..], w);
      assert b ==> Occurs(w, s) by {
        if b {
          var k :| OccursAt(w, s[1..], k);
          assert s[1..][k..k + |w|] == s[k + 1..k + 1 + |w|];
          assert OccursAt(w, s, k + 1);
        }
      }
      assert Occurs(w, s) ==> b by {
        if Occurs(w, s) {
          var k :| OccursAt(w, s, k);
          if k > 0 {
            assert s[1..][k - 1..k - 1 + |w|] == s[k..k + |w|];
            assert OccursAt(w, s[1..], k - 1);
          }
        }
      }
      b
  }
}
