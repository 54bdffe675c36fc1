/**
  A multiset stored in chunks of 1024 elements, of which all but the last are
  full.  Its contents are the sequence of elements in the order they were added.
 */
module MultisetChunks {
  import opened Serial
  import opened SerialBuffer
  import opened Arith

  const UINT: int := 0x1_0000_0000

  function Flatten<T>(chunks: seq<seq<T>>): seq<T> {
    if chunks == [] then [] else Flatten(chunks[..|chunks| - 1]) + chunks[|chunks| - 1]
  }

  // Every chunk but the last is full.
  predicate Filled<T>(chunks: seq<seq<T>>) {
    forall i :: 0 <= i < |chunks| - 1 ==> |chunks[i]| == 1024
  }

  lemma {:induction false} FlattenLength<T>(chunks: seq<seq<T>>)
    requires Filled(chunks)
    ensures chunks == [] ==> Flatten(chunks) == []
    ensures chunks != [] ==> |Flatten(chunks)| == 1024 * (|chunks| - 1) + |chunks[|chunks| - 1]|
  {
    if |chunks| > 1 {
      var front := chunks[..|chunks| - 1];
      FlattenLength(front);
      assert front[|front| - 1] == chunks[|chunks| - 2];
    }
  }

  lemma {:induction false} FlattenPrefix<T>(chunks: seq<seq<T>>, i: nat)
    requires i <= |chunks|
    ensures Flatten(chunks[..i]) <= Flatten(chunks)
    decreases |chunks| - i
  {
    if i < |chunks| {
      FlattenPrefix(chunks, i + 1);
      assert chunks[..i + 1][..i] == chunks[..i];
    } else {
      assert chunks[..i] == chunks;
    }
  }

  // Element j of chunk i.
  lemma FlattenAt<T>(chunks: seq<seq<T>>, i: nat, j: nat)
    requires Filled(chunks) && i < |chunks| && j < |chunks[i]|
    ensures 1024 * i + j < |Flatten(chunks)| && Flatten(chunks)[1024 * i + j] == chunks[i][j]
  {
    var upto := chunks[..i + 1];
    assert upto[..i] == chunks[..i];
    FlattenLength(upto);
    FlattenLength(chunks[..i]);
    FlattenPrefix(chunks, i + 1);
    assert Flatten(upto) == Flatten(chunks[..i]) + chunks[i];
    assert |Flatten(chunks[..i])| == 1024 * i by {
      if i > 0 {
        assert chunks[..i][i - 1] == chunks[i - 1];
      }
    }
  }

  // Adding to the last chunk, or starting a new one, appends one element.
  lemma FlattenAdd<T>(chunks: seq<seq<T>>, x: T)
    ensures Flatten(chunks + [[x]]) == Flatten(chunks) + [x]
    ensures chunks != [] ==>
              var last := |chunks| - 1;
              Flatten(chunks[last := chunks[last] + [x]]) == Flatten(chunks) + [x]
  {
    assert (chunks + [[x]])[..|chunks|] == chunks;
    if chunks != [] {
      var last := |chunks| - 1;
      assert chunks[last := chunks[last] + [x]][..last] == chunks[..last];
    }
  }

  function Min(a: nat, b: nat): nat {
    if a <= b then a else b
  }

  class Multiset {
    var chunks: seq<seq<Val>>
    var lastElems: nat

    ghost predicate Valid()
      reads this
    {
      && Filled(chunks)
      && lastElems <= 1024
      && (chunks == [] ==> lastElems == 1024)
      && (chunks != [] ==> |chunks[|chunks| - 1]| == lastElems > 0)
    }

    ghost function Contents(): seq<Val>
      reads this
    {
      Flatten(chunks)
    }

    constructor ()
      ensures Valid() && Contents() == []
    {
      chunks, lastElems := [], 1024;
    }

    // Unsigned arithmetic: with no chunks the subtraction wraps around, and
    // the product wraps back to zero.
    method Size() returns (n: nat)
      requires Valid()
      ensures n == |Contents()| % UINT
    {
      var before := (|chunks| - 1) % UINT;
      n := (before * 1024 + lastElems) % UINT;
      if chunks != [] {
        FlattenLength(chunks);
        WrapProduct(|chunks| - 1, lastElems);
      }
    }

    lemma WrapProduct(a: nat, b: nat)
      ensures (a % UINT * 1024 + b) % UINT == (a * 1024 + b) % UINT
    {
      var q, r := a / UINT, a % UINT;
      assert a == r + 0x1_0000_0000 * q;
      ModShift(r * 1024 + b, UINT, q * 1024);
    }

    function ChunkLen(i: nat): nat
      reads this
      requires i < |chunks|
    {
      if i < |chunks| - 1 then 1024 else lastElems
    }

    method Add(x: Val)
      requires Valid()
      modifies this
      ensures Valid() && Contents() == old(Contents()) + [x]
    {
      FlattenAdd(chunks, x);
      if lastElems >= 1024 {
        chunks := chunks + [[x]];
        lastElems := 1;
      } else {
        var last := |chunks| - 1;
        chunks := chunks[last := chunks[last] + [x]];
        lastElems := lastElems + 1;
      }
    }

    // Elements of one chunk, from pos on, appended while they last.
    method TakeFrom(p: Packer, chunk: nat, pos: nat, max: nat) returns (n: nat)
      requires Valid() && VintOk(p.c) && chunk < |chunks| && pos <= |chunks[chunk]|
      modifies p
      ensures n == Min(max, |chunks[chunk]| - pos)
      ensures p.out == old(p.out) + Elems(p.c, chunks[chunk][pos..pos + n])
    {
      hide VintOk, Elems, Entry, Pack;
      ghost var from := chunks[chunk][pos..];
      NoMembers(p.c);
      n := 0;
      while n < max && pos + n < ChunkLen(chunk)
        invariant n <= max && n <= |from|
        invariant p.out == old(p.out) + Elems(p.c, from[..n])
      {
        var e := chunks[chunk][pos + n];
        p.PackBuffer(e, true);
        ElemsSnoc(p.c, from[..n], e);
        assert from[..n + 1] == from[..n] + [e];
        n := n + 1;
      }
      assert from[..n] == chunks[chunk][pos..pos + n];
    }

    /** The bytes of at most `count` elements from position `start` on. */
    method ExtractSlice(c: Codec, start: nat, count: nat) returns (out: Bytes, taken: nat)
      requires Valid() && VintOk(c)
      ensures var lo := Min(start, |Contents()|);
              && lo + taken == Min(start + count, |Contents()|)
              && out == Elems(c, Contents()[lo..lo + taken])
    {
      hide VintOk, Elems, Flatten;
      ghost var all := Contents();
      ghost var lo := Min(start, |all|);
      FlattenLength(chunks);
      NoMembers(c);
      var p := new Packer(c);
      var chunk: nat, pos: nat := start / 1024, start % 1024;
      assert all[lo..lo] == [];
      taken := 0;
      while taken < count && chunk < |chunks|
        invariant taken <= count && lo + taken <= |all| && fresh(p) && p.c == c
        invariant taken < count && chunk < |chunks| ==> 1024 * chunk + pos == start + taken && pos < 1024
        invariant taken < count && chunk >= |chunks| ==> lo + taken == |all|
        invariant p.out == Elems(c, all[lo..lo + taken])
      {
        if pos < ChunkLen(chunk) {
          var n := TakeFrom(p, chunk, pos, count - taken);
          ChunkSlice(chunks, chunk, pos, n);
          SliceAppend(c, all, lo, lo + taken, n);
          taken := taken + n;
        }
        chunk, pos := chunk + 1, 0;
      }
      out := p.out;
    }
  }

  lemma ChunkSlice<T>(chunks: seq<seq<T>>, i: nat, j: nat, n: nat)
    requires Filled(chunks) && i < |chunks| && j < |chunks[i]| && j + n <= |chunks[i]|
    ensures 1024 * i + j + n <= |Flatten(chunks)|
    ensures Flatten(chunks)[1024 * i + j..1024 * i + j + n] == chunks[i][j..j + n]
  {
    FlattenAt(chunks, i, |chunks[i]| - 1);
    forall m | j <= m < j + n
      ensures Flatten(chunks)[1024 * i + m] == chunks[i][m]
    {
      FlattenAt(chunks, i, m);
    }
  }

  lemma SliceAppend(c: Codec, all: seq<Val>, lo: nat, at: nat, n: nat)
    requires lo <= at && at + n <= |all|
    ensures Elems(c, all[lo..at + n]) == Elems(c, all[lo..at]) + Elems(c, all[at..at + n])
  {
    hide Elems;
    assert all[lo..at + n] == all[lo..at] + all[at..at + n];
    ElemsAppend(c, all[lo..at], all[at..at + n]);
  }

  lemma {:induction false} ElemsAppend(c: Codec, a: seq<Val>, b: seq<Val>)
    ensures Elems(c, a + b) == Elems(c, a) + Elems(c, b)
  {
    hide Entry, Pack;
    if a == [] {
      assert a + b == b;
    } else {
      assert (a + b)[1..] == a[1..] + b;
      ElemsAppend(c, a[1..], b);
    }
  }
}
