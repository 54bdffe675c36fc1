/**
  The engine's cache of identifiers known to be closed on other servers: a
  table for membership and a list in order of use, whose head is the next
  victim.  `log` is the history of uses, and the reference definition of the
  contents is `Recent(log, capacity)`: the last `capacity` distinct keys of the
  history, ordered by last use.
 */
module ClosedCache {
  import opened Sequences

  // The distinct keys of a history, ordered by last use.
  ghost function Distinct<K(!new)>(log: seq<K>): seq<K> {
    if log == [] then []
    else Without(Distinct(log[..|log| - 1]), log[|log| - 1]) + [log[|log| - 1]]
  }

  ghost function LastN<K>(s: seq<K>, n: nat): seq<K> {
    if |s| <= n then s else s[|s| - n..]
  }

  // What a least-recently-used cache of n entries holds after this history.
  ghost function Recent<K(!new)>(log: seq<K>, n: nat): seq<K> {
    LastN(Distinct(log), n)
  }

  lemma {:induction false} WithoutAppend<K(!new)>(a: seq<K>, b: seq<K>, k: K)
    ensures Without(a + b, k) == Without(a, k) + Without(b, k)
  {
    if a == [] {
      assert a + b == b;
    } else {
      assert (a + b)[1..] == a[1..] + b;
      WithoutAppend(a[1..], b, k);
    }
  }

  lemma {:induction false} WithoutAbsent<K(!new)>(s: seq<K>, k: K)
    requires k !in s
    ensures Without(s, k) == s
  {
    if s != [] {
      WithoutAbsent(s[1..], k);
    }
  }

  lemma {:induction false} WithoutPresent<K(!new)>(s: seq<K>, k: K)
    requires k in s && NoDuplicates(s)
    ensures |Without(s, k)| == |s| - 1
  {
    if s[0] == k {
      assert k !in s[1..];
      WithoutAbsent(s[1..], k);
    } else {
      assert k in s[1..];
      WithoutPresent(s[1..], k);
    }
  }

  // Index of the last use of k.
  ghost function LastUse<K(!new)>(log: seq<K>, k: K): (i: nat)
    requires k in log
    ensures i < |log| && log[i] == k
    ensures forall j :: i < j < |log| ==> log[j] != k
  {
    if log[|log| - 1] == k then |log| - 1 else LastUse(log[..|log| - 1], k)
  }

  // `Distinct` holds exactly the used keys, once each.
  lemma {:induction false} DistinctKeys<K(!new)>(log: seq<K>)
    ensures forall k :: k in Distinct(log) <==> k in log
    ensures NoDuplicates(Distinct(log))
  {
    if log != [] {
      var front, last := log[..|log| - 1], log[|log| - 1];
      assert log == front + [last];
      DistinctKeys(front);
      WithoutNoDuplicates(Distinct(front), last);
      var w := Without(Distinct(front), last);
      assert last !in w;
    }
  }

  // `Distinct` is in order of last use: whatever `LastN` drops was used before
  // everything it keeps.
  lemma {:induction false} DistinctByLastUse<K(!new)>(log: seq<K>, i: nat, j: nat)
    requires i < j < |Distinct(log)|
    ensures Distinct(log)[i] in log && Distinct(log)[j] in log
    ensures LastUse(log, Distinct(log)[i]) < LastUse(log, Distinct(log)[j])
  {
    DistinctKeys(log);
    var front, last := log[..|log| - 1], log[|log| - 1];
    var d, f := Distinct(log), Distinct(front);
    DistinctKeys(front);
    var x, y := d[i], d[j];
    assert x in Without(f, last);
    assert LastUse(log, x) == LastUse(front, x);
    if j < |d| - 1 {
      assert y in Without(f, last);
      assert LastUse(log, y) == LastUse(front, y);
      var i', j' := WithoutIndices(f, last, i, j);
      DistinctByLastUse(front, i', j');
    }
  }

  // Two positions of Without(s, k) come from two positions of s in the same order.
  lemma {:induction false} WithoutIndices<K(!new)>(s: seq<K>, k: K, i: nat, j: nat) returns (i': nat, j': nat)
    requires i < j < |Without(s, k)|
    ensures i' < j' < |s|
    ensures s[i'] == Without(s, k)[i] && s[j'] == Without(s, k)[j]
  {
    if s[0] == k {
      i', j' := WithoutIndices(s[1..], k, i, j);
      i', j' := i' + 1, j' + 1;
    } else if i == 0 {
      var p := WithoutIndex(s[1..], k, j - 1);
      i', j' := 0, p + 1;
    } else {
      i', j' := WithoutIndices(s[1..], k, i - 1, j - 1);
      i', j' := i' + 1, j' + 1;
    }
  }

  lemma {:induction false} WithoutIndex<K(!new)>(s: seq<K>, k: K, i: nat) returns (i': nat)
    requires i < |Without(s, k)|
    ensures i' < |s| && s[i'] == Without(s, k)[i]
  {
    if s[0] == k {
      i' := WithoutIndex(s[1..], k, i);
      i' := i' + 1;
    } else if i == 0 {
      i' := 0;
    } else {
      i' := WithoutIndex(s[1..], k, i - 1);
      i' := i' + 1;
    }
  }

  lemma DistinctSnoc<K(!new)>(log: seq<K>, k: K)
    ensures Distinct(log + [k]) == Without(Distinct(log), k) + [k]
  {
    assert (log + [k])[..|log|] == log;
  }

  // A history's distinct keys are those dropped, then those kept.
  lemma RecentSplit<K(!new)>(log: seq<K>, n: nat) returns (p: seq<K>)
    ensures Distinct(log) == p + Recent(log, n)
    ensures p == [] || |Recent(log, n)| == n
    ensures |Recent(log, n)| <= n
  {
    var d := Distinct(log);
    p := d[..|d| - |Recent(log, n)|];
  }

  lemma LastNSuffix<K>(p: seq<K>, s: seq<K>, n: nat)
    requires |s| == n || (|s| < n && p == [])
    ensures LastN(p + s, n) == s
  {
  }

  // A hit moves the key to the end of the list.
  lemma {:induction false} RecentAfterHit<K(!new)>(log: seq<K>, n: nat, k: K)
    requires k in Recent(log, n)
    ensures Recent(log + [k], n) == Without(Recent(log, n), k) + [k]
  {
    var s := Recent(log, n);
    var p := RecentSplit(log, n);
    DistinctKeys(log);
    DistinctSnoc(log, k);
    HitKeepsPrefix(p, s, k);
    var t := Without(s, k) + [k];
    assert Distinct(log + [k]) == p + t;
    LastNSuffix(p, t, n);
  }

  lemma {:induction false} HitKeepsPrefix<K(!new)>(p: seq<K>, s: seq<K>, k: K)
    requires NoDuplicates(p + s) && k in s
    ensures Without(p + s, k) == p + Without(s, k)
    ensures |Without(s, k)| == |s| - 1
  {
    var d := p + s;
    assert forall i :: 0 <= i < |s| ==> s[i] == d[|p| + i];
    assert forall i :: 0 <= i < |p| ==> p[i] == d[i];
    assert NoDuplicates(s);
    var j :| 0 <= j < |s| && s[j] == k;
    assert k !in p;
    WithoutAbsent(p, k);
    WithoutAppend(p, s, k);
    WithoutPresent(s, k);
  }

  // A miss appends the key, dropping the head when the list is full.
  lemma {:induction false} RecentAfterMiss<K(!new)>(log: seq<K>, n: nat, k: K)
    requires n >= 1 && k !in Recent(log, n)
    ensures Recent(log + [k], n) ==
            (if |Recent(log, n)| >= n then Recent(log, n)[1..] else Recent(log, n)) + [k]
  {
    var s := Recent(log, n);
    var p := RecentSplit(log, n);
    DistinctSnoc(log, k);
    WithoutAbsent(s, k);
    WithoutAppend(p, s, k);
    LastNSnoc(Without(p, k), s, k, n);
  }

  lemma LastNSnoc<K(!new)>(p: seq<K>, s: seq<K>, k: K, n: nat)
    requires n >= 1 && (|s| == n || (|s| < n && p == []))
    ensures LastN(p + s + [k], n) == (if |s| >= n then s[1..] else s) + [k]
  {
    if |s| < n {
      assert p + s + [k] == s + [k];
    } else {
      assert p + s + [k] == (p + [s[0]]) + (s[1..] + [k]);
      LastNSuffix(p + [s[0]], s[1..] + [k], n);
    }
  }

  // Moving the last entry to the end changes nothing.
  lemma {:induction false} HitAtTail<K(!new)>(s: seq<K>, k: K)
    requires NoDuplicates(s) && s != [] && s[|s| - 1] == k
    ensures Without(s, k) + [k] == s
  {
    var front := s[..|s| - 1];
    assert s == front + [k];
    WithoutAppend(front, [k], k);
    WithoutAbsent(front, k);
  }

  class Cache<K(==,!new)> {
    const capacity: nat
    var table: set<K>
    var lru: seq<K>
    ghost var log: seq<K>

    ghost predicate Valid()
      reads this
    {
      && capacity >= 1
      && lru == Recent(log, capacity)
      && table == set k | k in lru
    }

    constructor (capacity: nat)
      requires capacity >= 1
      ensures Valid() && fresh(this)
      ensures log == [] && table == {} && this.capacity == capacity
    {
      this.capacity := capacity;
      table, lru, log := {}, [], [];
    }

    // Never more than `capacity` entries, none twice, all used before.
    lemma Bounded()
      requires Valid()
      ensures |lru| <= capacity && NoDuplicates(lru)
      ensures forall k :: k in table ==> k in log
    {
      DistinctKeys(log);
    }

    method Check(k: K) returns (hit: bool)
      requires Valid()
      modifies this
      ensures Valid()
      ensures hit <==> k in old(table)
      ensures table == old(table)
      ensures log == if hit then old(log) + [k] else old(log)
    {
      hit := k in table;
      if hit {
        if lru[|lru| - 1] != k {
          lru := Without(lru, k) + [k];
        } else {
          Bounded();
          HitAtTail(lru, k);
        }
        RecentAfterHit(log, capacity, k);
        log := log + [k];
      }
    }

    method Add(k: K)
      requires Valid() && k !in table
      modifies this
      ensures Valid()
      ensures k in table && table <= old(table) + {k}
      ensures |old(lru)| >= capacity ==> table == old(table) - {old(lru)[0]} + {k}
      ensures |old(lru)| < capacity ==> table == old(table) + {k}
      ensures log == old(log) + [k]
    {
      RecentAfterMiss(log, capacity, k);
      Bounded();
      if |lru| >= capacity {
        var victim := lru[0];
        lru := lru[1..];
        table := table - {victim};
      }
      lru := lru + [k];
      table := table + {k};
      log := log + [k];
    }
  }
}
