/** The few Python `str` operations the conversation code relies on:
    `strip`, `find`, `in`, slicing, `lower` and `capitalize`. */
module PyText {

  /** Python's `str.isspace` for one character: the characters `strip()` removes. */
  predicate IsSpace(c: char) {
    ('\U{9}' <= c <= '\U{D}') || ('\U{1C}' <= c <= '\U{20}') || c == '\U{85}' || c == '\U{A0}'
    || c == '\U{1680}' || ('\U{2000}' <= c <= '\U{200A}') || c == '\U{2028}' || c == '\U{2029}'
    || c == '\U{202F}' || c == '\U{205F}' || c == '\U{3000}'
  }

  predicate AllSpace(s: string) {
    forall k :: 0 <= k < |s| ==> IsSpace(s[k])
  }

  /** `s.lstrip()` */
  function LStrip(s: string): string {
    if s != [] && IsSpace(s[0]) then LStrip(s[1..]) else s
  }

  /** `lstrip()` removes a whitespace prefix, and the rest does not start with whitespace. */
  lemma {:induction false} LStripShape(s: string)
    ensures |LStrip(s)| <= |s| && LStrip(s) == s[|s| - |LStrip(s)|..]
    ensures AllSpace(s[..|s| - |LStrip(s)|])
    ensures LStrip(s) == [] || !IsSpace(LStrip(s)[0])
    decreases |s|
  {
    if s != [] && IsSpace(s[0]) {
      LStripShape(s[1..]);
      var n := |s| - |LStrip(s)|;
      assert s[..n] == [s[0]] + s[1..][..n - 1];
    }
  }

  /** `s.rstrip()` */
  function RStrip(s: string): string {
    if s != [] && IsSpace(s[|s| - 1]) then RStrip(s[..|s| - 1]) else s
  }

  /** `rstrip()` removes a whitespace suffix, and the rest does not end with whitespace. */
  lemma {:induction false} RStripShape(s: string)
    ensures |RStrip(s)| <= |s| && RStrip(s) == s[..|RStrip(s)|]
    ensures AllSpace(s[|RStrip(s)|..])
    ensures RStrip(s) == [] || !IsSpace(RStrip(s)[|RStrip(s)| - 1])
    decreases |s|
  {
    if s != [] && IsSpace(s[|s| - 1]) {
      RStripShape(s[..|s| - 1]);
      var n := |RStrip(s)|;
      assert s[n..] == s[..|s| - 1][n..] + [s[|s| - 1]];
    }
  }

  /** `s.strip()` */
  function Strip(s: string): string {
    RStrip(LStrip(s))
  }

  /** What `strip()` promises: a slice of `s` with only whitespace cut away at both ends,
      and no whitespace left at either end. */
  lemma StripIsTrimmedSlice(s: string)
    ensures exists i, j :: TrimmedAt(s, i, j) && Strip(s) == s[i..j]
    ensures Strip(s) == [] || (!IsSpace(Strip(s)[0]) && !IsSpace(Strip(s)[|Strip(s)| - 1]))
  {
    var l := LStrip(s);
    LStripShape(s);
    var i := |s| - |l|;
    var r := RStrip(l);
    RStripShape(l);
    var j := i + |r|;
    assert l == s[i..];
    assert r == l[..|r|];
    assert r == s[i..j];
    assert s[j..] == l[|r|..];
    assert TrimmedAt(s, i, j);
    if r != [] {
      assert r[0] == l[0];
    }
  }

  /** `s[..i]` and `s[j..]` are whitespace. */
  predicate TrimmedAt(s: string, i: int, j: int) {
    0 <= i <= j <= |s| && AllSpace(s[..i]) && AllSpace(s[j..])
  }

  /** Stripping the end of a concatenation: the tail's whitespace goes first, and the head is
      reached only when the tail is all whitespace. */
  lemma {:induction false} RStripConcat(p: string, q: string)
    ensures RStrip(p + q) == if RStrip(q) == [] then RStrip(p) else p + RStrip(q)
    decreases |q|
  {
    if q == [] {
      assert p + q == p;
    } else if IsSpace(q[|q| - 1]) {
      assert (p + q)[..|p + q| - 1] == p + q[..|q| - 1];
      RStripConcat(p, q[..|q| - 1]);
    }
  }

  /** Stripping the two ends can be done in either order. */
  lemma {:induction false} LStripRStripCommute(s: string)
    ensures LStrip(RStrip(s)) == RStrip(LStrip(s))
    decreases |s|
  {
    if s == [] {
    } else if !IsSpace(s[0]) {
      RStripShape(s[1..]);
      assert RStrip(s) != [] && RStrip(s)[0] == s[0] by {
        RStripConcat([s[0]], s[1..]);
        assert [s[0]] + s[1..] == s;
      }
    } else {
      RStripConcat([s[0]], s[1..]);
      assert [s[0]] + s[1..] == s;
      LStripRStripCommute(s[1..]);
      if RStrip(s[1..]) != [] {
        assert ([s[0]] + RStrip(s[1..]))[1..] == RStrip(s[1..]);
      }
    }
  }

  /** Leading whitespace in front of a string does not change the stripped result. */
  lemma {:induction false} StripAfterSpace(w: string, s: string)
    requires AllSpace(w)
    ensures Strip(w + s) == Strip(s)
    decreases |w|
  {
    if w != [] {
      assert (w + s)[1..] == w[1..] + s;
      StripAfterSpace(w[1..], s);
    } else {
      assert w + s == s;
    }
  }

  /** Stripping what `rstrip` left gives the same as stripping the original. */
  lemma StripOfRStrip(s: string)
    ensures Strip(RStrip(s)) == Strip(s)
  {
    LStripRStripCommute(s);
    RStripShape(LStrip(s));
  }

  /** Concatenation is associative; stated once so that proofs about strings built piece by
      piece need not rediscover it. */
  lemma ConcatAssoc<T>(a: seq<T>, b: seq<T>, c: seq<T>)
    ensures a + (b + c) == (a + b) + c
  {
  }

  /** `s.find(c)`: the index of the first `c`, or -1 when there is none. */
  function Find(s: string, c: char): (r: int)
    ensures r == -1 <==> c !in s
    ensures r != -1 ==> 0 <= r < |s| && s[r] == c && c !in s[..r]
  {
    if s == [] then -1
    else if s[0] == c then 0
    else
      var t := Find(s[1..], c);
      assert s[1..][..if t == -1 then 0 else t] == s[1..if t == -1 then 1 else t + 1];
      if t == -1 then -1 else t + 1
  }

  /** `s[lo:hi]` for non-negative bounds: bounds past the end are clipped, and a slice whose
      start is not before its end is empty. */
  function Slice(s: string, lo: nat, hi: nat): (r: string)
    ensures lo <= hi <= |s| ==> r == s[lo..hi]
    ensures hi <= lo ==> r == []
  {
    var a := if lo <= |s| then lo else |s|;
    var b := if hi <= |s| then hi else |s|;
    if a < b then s[a..b] else []
  }

  /** `s[lo:]` for a non-negative start. */
  function SliceFrom(s: string, lo: nat): (r: string)
    ensures lo <= |s| ==> r == s[lo..]
    ensures lo >= |s| ==> r == []
  {
    if lo <= |s| then s[lo..] else []
  }

  /** `pat` occurs in `s` at position `k`. */
  predicate OccursAt(s: string, pat: string, k: int) {
    0 <= k && k + |pat| <= |s| && s[k..k + |pat|] == pat
  }

  /** `pat in s` for strings: `pat` occurs at some position of `s`. */
  predicate Contains(s: string, pat: string) {
    exists k :: 0 <= k <= |s| - |pat| && OccursAt(s, pat, k)
  }

  function LowerChar(c: char): char {
    if 'A' <= c <= 'Z' then (c as int + 32) as char else c
  }

  function UpperChar(c: char): char {
    if 'a' <= c <= 'z' then (c as int - 32) as char else c
  }

  /** `s.lower()` on the ASCII letters. */
  function Lower(s: string): (r: string)
    ensures |r| == |s|
    ensures forall k :: 0 <= k < |s| ==> r[k] == LowerChar(s[k])
  {
    seq(|s|, k requires 0 <= k < |s| => LowerChar(s[k]))
  }

  /** `s.capitalize()` on the ASCII letters: the first letter upper-cased, the rest lower-cased. */
  function Capitalize(s: string): (r: string)
    ensures |r| == |s|
    ensures s != [] ==> r[0] == UpperChar(s[0]) && r[1..] == Lower(s[1..])
  {
    if s == [] then [] else [UpperChar(s[0])] + Lower(s[1..])
  }

  /** Lower-casing never creates or removes whitespace, so it commutes with `strip()`. */
  lemma LowerKeepsSpace(c: char)
    ensures IsSpace(LowerChar(c)) == IsSpace(c)
  {
  }

  lemma {:induction false} LowerLStrip(s: string)
    ensures Lower(LStrip(s)) == LStrip(Lower(s))
    decreases |s|
  {
    LowerKeepsSpace(if s == [] then ' ' else s[0]);
    if s != [] && IsSpace(s[0]) {
      assert Lower(s)[1..] == Lower(s[1..]);
      LowerLStrip(s[1..]);
    }
  }

  lemma {:induction false} LowerRStrip(s: string)
    ensures Lower(RStrip(s)) == RStrip(Lower(s))
    decreases |s|
  {
    LowerKeepsSpace(if s == [] then ' ' else s[|s| - 1]);
    if s != [] && IsSpace(s[|s| - 1]) {
      assert Lower(s)[..|s| - 1] == Lower(s[..|s| - 1]);
      LowerRStrip(s[..|s| - 1]);
    }
  }

  lemma LowerStrip(s: string)
    ensures Lower(Strip(s)) == Strip(Lower(s))
  {
    LowerLStrip(s);
    LowerRStrip(LStrip(s));
  }
}
