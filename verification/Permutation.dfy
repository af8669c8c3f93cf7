/** Sequences that are rearrangements of each other. */
module Permutation {

  /** `f` lists every index below `|f|` once. */
  predicate IsPermutation(f: seq<int>) {
    && (forall i :: 0 <= i < |f| ==> 0 <= f[i] < |f|)
    && forall i, j :: 0 <= i < j < |f| ==> f[i] != f[j]
  }

  function Without<T>(s: seq<T>, j: nat): seq<T>
    requires j < |s|
  {
    s[..j] + s[j + 1..]
  }

  /** What is left of a permutation, and still is one, when its last entry is taken away. */
  function Rest(f: seq<int>): (g: seq<int>)
    requires |f| > 0 && IsPermutation(f)
    ensures |g| == |f| - 1 && IsPermutation(g)
    ensures forall i :: 0 <= i < |g| ==> g[i] == if f[i] < f[|g|] then f[i] else f[i] - 1
    ensures forall i :: 0 <= i < |g| ==> f[i] != f[|g|]
  {
    var n := |f| - 1;
    assert forall i :: 0 <= i < n ==> f[i] != f[n];
    seq(n, i requires 0 <= i < n => if f[i] < f[n] then f[i] else f[i] - 1)
  }

  lemma RestIndexes<T>(a: seq<T>, b: seq<T>, f: seq<int>)
    requires |a| == |b| == |f| && |f| > 0 && IsPermutation(f)
    requires forall i :: 0 <= i < |a| ==> a[i] == b[f[i]]
    ensures forall i :: 0 <= i < |a| - 1 ==> a[..|a| - 1][i] == Without(b, f[|a| - 1])[Rest(f)[i]]
  {
  }

  lemma {:induction false} Multiplicity<T>(s: seq<T>, x: T)
    ensures multiset(s)[x] >= 1 <==> x in s
    ensures multiset(s)[x] >= 2 <==> exists i, j :: 0 <= i < j < |s| && s[i] == x == s[j]
  {
    if |s| > 0 {
      var l := |s| - 1;
      Multiplicity(s[..l], x);
      assert s == s[..l] + [s[l]];
      if i, j :| 0 <= i < j < |s| && s[i] == x == s[j] {
        assert s[..l][i] == x;
      }
    }
  }

  function Indices(n: nat): (f: seq<int>)
    ensures |f| == n && forall i :: 0 <= i < n ==> f[i] == i
  {
    seq(n, i => i)
  }

  /** The permutations are the rearrangements of 0, 1, ..., n - 1. */
  lemma PermutationIff(f: seq<int>)
    ensures IsPermutation(f) <==> multiset(f) == multiset(Indices(|f|))
  {
    var id := Indices(|f|);
    if IsPermutation(f) {
      SameMultiset(f, id, f);
    } else if multiset(f) == multiset(id) {
      forall i | 0 <= i < |f|
        ensures 0 <= f[i] < |f| && multiset(f)[f[i]] < 2
      {
        Multiplicity(f, f[i]);
        Multiplicity(id, f[i]);
      }
      var i, j :| 0 <= i < j < |f| && f[i] == f[j];
      Multiplicity(f, f[i]);
    }
  }

  lemma WithoutMultiset<T>(s: seq<T>, j: nat)
    requires j < |s|
    ensures multiset(s) == multiset(Without(s, j)) + multiset{s[j]}
  {
    assert s == s[..j] + [s[j]] + s[j + 1..];
  }

  lemma {:induction false} SameMultiset<T>(a: seq<T>, b: seq<T>, f: seq<int>)
    requires |a| == |b| == |f| && IsPermutation(f)
    requires forall i :: 0 <= i < |a| ==> a[i] == b[f[i]]
    ensures multiset(a) == multiset(b)
  {
    if |a| > 0 {
      var n := |a| - 1;
      var j := f[n];
      RestIndexes(a, b, f);
      SameMultiset(a[..n], Without(b, j), Rest(f));
      hide Without, Rest, IsPermutation;
      WithoutMultiset(b, j);
      assert a == a[..n] + [a[n]];
    }
  }
}
