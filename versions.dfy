/** Protocol version strings and the order `CKBProtocol::new` sorts them in.
    A version is a `String`; Rust orders strings lexicographically by their UTF-8
    bytes, which agrees with the lexicographic order of their characters. */
module Versions {

  type Version = string

  /** `a <= b` in the lexicographic order of `String`'s `Ord`. */
  predicate Le(a: Version, b: Version)
    // a prefix sorts first
    ensures a <= b ==> Le(a, b)
    decreases |a|
  {
    if a == [] then true
    else if b == [] then false
    else if a[0] != b[0] then a[0] < b[0]
    else Le(a[1..], b[1..])
  }

  lemma {:induction false} LeReflexive(a: Version)
    ensures Le(a, a)
    decreases |a|
  {
    if a != [] { LeReflexive(a[1..]); }
  }

  lemma {:induction false} LeTotal(a: Version, b: Version)
    ensures Le(a, b) || Le(b, a)
    decreases |a|
  {
    if a != [] && b != [] && a[0] == b[0] { LeTotal(a[1..], b[1..]); }
  }

  lemma {:induction false} LeAntisymmetric(a: Version, b: Version)
    requires Le(a, b) && Le(b, a)
    ensures a == b
    decreases |a|
  {
    if a != [] {
      LeAntisymmetric(a[1..], b[1..]);
      assert a == [a[0]] + a[1..] && b == [b[0]] + b[1..];
    }
  }

  lemma {:induction false} LeTransitive(a: Version, b: Version, c: Version)
    requires Le(a, b) && Le(b, c)
    ensures Le(a, c)
    decreases |a|
  {
    if a != [] && b != [] && c != [] && a[0] == b[0] && b[0] == c[0] {
      LeTransitive(a[1..], b[1..], c[1..]);
    }
  }

  /** Highest first: every element is at least every element after it. */
  ghost predicate SortedDesc(s: seq<Version>)
  {
    forall p, q :: 0 <= p < q < |s| ==> Le(s[q], s[p])
  }

  lemma HeadIsGreatest(s: seq<Version>, v: Version)
    requires SortedDesc(s) && v in multiset(s)
    ensures Le(v, s[0])
  {
    var k :| 0 <= k < |s| && s[k] == v;
    if k == 0 { LeReflexive(v); }
  }

  lemma TailOf(s: seq<Version>)
    requires s != []
    ensures multiset(s[1..]) == multiset(s) - multiset{s[0]}
  {
    assert s == [s[0]] + s[1..];
  }

  /** A descending order of a multiset of versions is unique: two sorted permutations
      of the same list are the same list. */
  lemma {:induction false} SortedDescUnique(a: seq<Version>, b: seq<Version>)
    requires SortedDesc(a) && SortedDesc(b)
    requires multiset(a) == multiset(b)
    ensures a == b
    decreases |a|
  {
    if a == [] {
      assert |b| == |multiset(b)| == 0;
    } else {
      assert |b| == |multiset(b)| == |multiset(a)| == |a|;
      HeadIsGreatest(b, a[0]);
      HeadIsGreatest(a, b[0]);
      LeAntisymmetric(a[0], b[0]);
      TailOf(a);
      TailOf(b);
      SortedDescUnique(a[1..], b[1..]);
      assert a == [a[0]] + a[1..] && b == [b[0]] + b[1..];
    }
  }

  /** Sorts `a` in place so that the highest version comes first, as
      `versions.sort_by(|a, b| b.cmp(a))` does (an insertion sort here; since equal
      strings are indistinguishable, stability is immaterial). */
  method SortDescending(a: array<Version>)
    modifies a
    ensures SortedDesc(a[..])
    ensures multiset(a[..]) == multiset(old(a[..]))
  {
    if a.Length == 0 { return; }
    var i := 1;
    while i < a.Length
      invariant 1 <= i <= a.Length
      invariant forall p, q :: 0 <= p < q < i ==> Le(a[q], a[p])
      invariant multiset(a[..]) == multiset(old(a[..]))
    {
      var j := i;
      while j > 0 && !Le(a[j], a[j - 1])
        invariant 0 <= j <= i
        invariant forall p, q :: 0 <= p < q <= i && p != j && q != j ==> Le(a[q], a[p])
        invariant forall q :: j < q <= i ==> Le(a[q], a[j])
        invariant multiset(a[..]) == multiset(old(a[..]))
      {
        LeTotal(a[j], a[j - 1]);
        a[j - 1], a[j] := a[j], a[j - 1];
        j := j - 1;
      }
      forall p | 0 <= p < j
        ensures Le(a[j], a[p])
      {
        if p < j - 1 { LeTransitive(a[j], a[j - 1], a[p]); }
      }
      i := i + 1;
    }
  }

  /** Linear membership test, as `Vec::contains`. */
  function Occurs(s: seq<Version>, v: Version): (r: bool)
    ensures r <==> exists k :: 0 <= k < |s| && s[k] == v
  {
    if s == [] then false
    else if s[0] == v then true
    else
      assert forall k :: 1 <= k < |s| ==> s[k] == s[1..][k - 1];
      Occurs(s[1..], v)
  }
}
