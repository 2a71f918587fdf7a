/**
 The handful of Python `str` operations the adapter relies on, each with a
 contract that characterises its result independently of how it is computed.
 */
module Strings {
  import opened Wrappers

  /** Every character of `s` is a slash (vacuously true of ""). */
  predicate AllSlashes(s: string) {
    forall i :: 0 <= i < |s| ==> s[i] == '/'
  }

  predicate NoLeadingSlash(s: string) {
    s == [] || s[0] != '/'
  }

  predicate NoTrailingSlash(s: string) {
    s == [] || s[|s| - 1] != '/'
  }

  /** A non-empty string with no slash at either end. */
  predicate Trimmed(s: string) {
    s != [] && NoLeadingSlash(s) && NoTrailingSlash(s)
  }

  /** Python's `s.startswith(p)`. */
  predicate StartsWith(s: string, p: string) {
    |p| <= |s| && s[..|p|] == p
  }

  /** Python's `s.lstrip("/")`: what is removed is a run of slashes, what remains does not start with one. */
  function LStrip(s: string): (r: string)
    ensures |r| <= |s| && r == s[|s| - |r|..]
    ensures AllSlashes(s[..|s| - |r|])
    ensures NoLeadingSlash(r)
  {
    if |s| > 0 && s[0] == '/' then
      var r := LStrip(s[1..]);
      assert s[..|s| - |r|] == [s[0]] + s[1..][..|s| - 1 - |r|];
      r
    else
      s
  }

  /** Python's `s.rstrip("/")`: what is removed is a run of slashes, what remains does not end with one. */
  function RStrip(s: string): (r: string)
    ensures |r| <= |s| && r == s[..|r|]
    ensures AllSlashes(s[|r|..])
    ensures NoTrailingSlash(r)
  {
    if |s| > 0 && s[|s| - 1] == '/' then
      var r := RStrip(s[..|s| - 1]);
      assert s[|r|..] == s[..|s| - 1][|r|..] + [s[|s| - 1]];
      r
    else
      s
  }

  /** Python's `s.strip("/")`: slashes go from both ends. */
  function Strip(s: string): (r: string)
    ensures |r| <= |s|
    ensures NoLeadingSlash(r) && NoTrailingSlash(r)
    ensures r == [] <==> AllSlashes(s)
  {
    var l := LStrip(s);
    var r := RStrip(l);
    assert r == [] ==> AllSlashes(s) by {
      if r == [] {
        assert s == s[..|s| - |l|] + l;
        assert l == l[|r|..];
      }
    }
    r
  }

  lemma AllSlashesConcat(a: string, b: string)
    requires AllSlashes(a) && AllSlashes(b)
    ensures AllSlashes(a + b)
  {
    assert forall i :: |a| <= i < |a + b| ==> (a + b)[i] == b[i - |a|];
  }

  /** Removing a run of slashes from the front of a string that does not start with one gives it back. */
  lemma {:induction false} LStripExact(p: string, r: string)
    requires AllSlashes(p) && NoLeadingSlash(r)
    ensures LStrip(p + r) == r
  {
    if p != [] {
      assert (p + r)[1..] == p[1..] + r;
      LStripExact(p[1..], r);
    }
  }

  /** Removing a run of slashes from the back of a string that does not end with one gives it back. */
  lemma {:induction false} RStripExact(r: string, q: string)
    requires AllSlashes(q) && NoTrailingSlash(r)
    ensures RStrip(r + q) == r
  {
    if q != [] {
      assert (r + q)[..|r + q| - 1] == r + q[..|q| - 1];
      RStripExact(r, q[..|q| - 1]);
    }
  }

  /** A string with no slash at either end is left alone by all three strips. */
  lemma UnslashedFixed(s: string)
    requires NoLeadingSlash(s)
    ensures LStrip(s) == s
    ensures NoTrailingSlash(s) ==> RStrip(s) == s && Strip(s) == s
  {
  }

  /** `strip` of a trimmed string followed by slashes is that string. */
  lemma StripCore(m: string, q: string)
    requires Trimmed(m) && AllSlashes(q)
    ensures Strip(m + q) == m
  {
    assert (m + q)[0] == m[0];
    UnslashedFixed(m + q);
    RStripExact(m, q);
  }

  /** `strip` recovers the slash-free core of a string wrapped in slashes on both sides. */
  lemma StripExact(p: string, m: string, q: string)
    requires AllSlashes(p) && AllSlashes(q)
    requires NoLeadingSlash(m) && NoTrailingSlash(m)
    ensures Strip(p + m + q) == m
  {
    if m == [] {
      assert p + m + q == p + q;
      AllSlashesConcat(p, q);
    } else {
      assert NoLeadingSlash(m + q);
      assert p + m + q == p + (m + q);
      LStripExact(p, m + q);
      RStripExact(m, q);
    }
  }

  /** The first position of `c` in `s`, or `|s|` when there is none. */
  function IndexOf(s: string, c: char): (i: nat)
    ensures i <= |s|
    ensures i < |s| ==> s[i] == c
    ensures forall j :: 0 <= j < i ==> s[j] != c
  {
    if |s| == 0 || s[0] == c then 0 else 1 + IndexOf(s[1..], c)
  }

  /**
   Python's `a, b = s.split(c, maxsplit=1)`: the unpacking fails (None) when `c`
   does not occur, and otherwise the split is at the first `c`.
   */
  function SplitOnce(s: string, c: char): (r: Option<(string, string)>)
    ensures r.None? <==> c !in s
    ensures r.Some? ==> s == r.value.0 + [c] + r.value.1 && c !in r.value.0
  {
    var i := IndexOf(s, c);
    if i == |s| then
      None
    else
      assert s == s[..i] + [c] + s[i + 1..];
      Some((s[..i], s[i + 1..]))
  }

  /** Splitting at the first `c` undoes a join whose left part holds no `c`. */
  lemma SplitOnceJoin(a: string, c: char, b: string)
    requires c !in a
    ensures SplitOnce(a + [c] + b, c) == Some((a, b))
  {
    var s := a + [c] + b;
    assert s[|a|] == c;
    var r := SplitOnce(s, c);
    var a', b' := r.value.0, r.value.1;
    if |a'| != |a| {
      assert false;
    }
    assert a' == s[..|a|] == a;
    assert b' == s[|a| + 1..] == b;
  }

  /** `seg` is what Python's `s.split("/")[-1]` yields: the text after the last slash of `s`. */
  predicate IsLastSegment(seg: string, s: string) {
    && '/' !in seg
    && |seg| <= |s|
    && s[|s| - |seg|..] == seg
    && (|seg| == |s| || s[|s| - |seg| - 1] == '/')
  }

  /** Python's `s.split("/")[-1]`. */
  function LastSegment(s: string): (r: string)
    ensures IsLastSegment(r, s)
  {
    if |s| == 0 || s[|s| - 1] == '/' then
      []
    else
      var r := LastSegment(s[..|s| - 1]);
      assert s[|s| - |r| - 1..] == s[..|s| - 1][|s| - 1 - |r|..] + [s[|s| - 1]];
      r + [s[|s| - 1]]
  }

  /** There is only one last segment. */
  lemma LastSegmentUnique(seg: string, s: string)
    requires IsLastSegment(seg, s)
    ensures LastSegment(s) == seg
  {
    var r := LastSegment(s);
    if |r| != |seg| {
      assert false;
    }
  }

  /** The last segment of a path that ends in a slash-free name is that name. */
  lemma LastSegmentAfterSlash(a: string, seg: string)
    requires '/' !in seg
    ensures LastSegment(a + "/" + seg) == seg
  {
    var s := a + "/" + seg;
    assert s[|s| - |seg|..] == seg;
    assert s[|s| - |seg| - 1] == '/';
    LastSegmentUnique(seg, s);
  }
}
