// Sequences without repetitions.
module Sequences {
  ghost predicate NoDuplicates<K(!new)>(s: seq<K>) {
    forall i, j :: 0 <= i < j < |s| ==> s[i] != s[j]
  }

  // All elements of s other than k, in order.
  function Without<K(==,!new)>(s: seq<K>, k: K): (r: seq<K>)
    ensures |r| <= |s|
    ensures forall x :: x in r <==> x in s && x != k
  {
    if s == [] then []
    else if s[0] == k then Without(s[1..], k)
    else
      var r := [s[0]] + Without(s[1..], k);
      assert forall x :: x in s <==> x == s[0] || x in s[1..];
      r
  }

  lemma {:induction false} WithoutNoDuplicates<K(!new)>(s: seq<K>, k: K)
    requires NoDuplicates(s)
    ensures NoDuplicates(Without(s, k))
  {
    if s != [] {
      WithoutNoDuplicates(s[1..], k);
      assert s[0] !in s[1..];
    }
  }
}
