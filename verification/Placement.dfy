/**
  Where things live: which server a worker belongs to, which server a datum
  is stored on, and the identifiers servers hand out.  Servers are the last
  ranks; remainders are C's, which take the sign of the dividend.
 */
module Placement {
  import opened Options
  import opened Parse
  import opened Arith

  // A communicator with at least one server.
  datatype Shape = Shape(size: int, servers: int)
  type Layout = l: Shape | 1 <= l.servers <= l.size witness Shape(1, 1)

  function Workers(l: Layout): (n: nat) {
    l.size - l.servers
  }

  predicate IsServer(l: Layout, rank: int) {
    Workers(l) <= rank < l.size
  }

  // C's remainder.
  function Remainder(a: int, n: int): int
    requires n > 0
  {
    if a >= 0 then a % n else -((-a) % n)
  }

  function Abs(a: int): nat {
    if a >= 0 then a else -a
  }

  function MapToServer(l: Layout, rank: int): int
    requires 0 <= rank < l.size
  {
    if rank >= Workers(l) then rank else rank % l.servers + Workers(l)
  }

  function WorkerIdx(l: Layout, rank: nat): nat {
    rank / l.servers
  }

  function RankFromIdx(l: Layout, me: int, i: nat): int {
    i * l.servers + (me - Workers(l))
  }

  function MyWorkersCount(l: Layout, me: int): nat {
    Workers(l) / l.servers + if me - Workers(l) < Workers(l) % l.servers then 1 else 0
  }

  /** Every worker belongs to one server and has an index below that server's count, which leads back to it. */
  lemma WorkerHasIndex(l: Layout, rank: nat)
    requires rank < Workers(l)
    ensures var me := MapToServer(l, rank);
            IsServer(l, me) && WorkerIdx(l, rank) < MyWorkersCount(l, me) && RankFromIdx(l, me, WorkerIdx(l, rank)) == rank
  {
    var s, w := l.servers, Workers(l);
    var q, r, qw, rw := rank / s, rank % s, w / s, w % s;
    assert rank == s * q + r && w == s * qw + rw;
    assert s * (qw + 1) == s * qw + s;
    if q >= qw + 1 {
      MulMonotone(s, qw + 1, q);
      assert false;
    } else if q < qw {
      MulMonotone(s, q, qw);
    }
  }

  /** Every index below a server's count is one of its workers. */
  lemma IndexHasWorker(l: Layout, me: int, i: nat)
    requires IsServer(l, me) && i < MyWorkersCount(l, me)
    ensures var rank := RankFromIdx(l, me, i);
            0 <= rank < Workers(l) && MapToServer(l, rank) == me && WorkerIdx(l, rank) == i
  {
    var s, w, k := l.servers, Workers(l), me - Workers(l);
    var qw, rw := w / s, w % s;
    assert w == s * qw + rw;
    MulMonotone(s, i + 1, MyWorkersCount(l, me));
    assert s * (i + 1) == s * i + s && s * (qw + 1) == s * qw + s;
    MulMonotone(s, 0, i);
    if i < qw {
      MulMonotone(s, i + 1, qw);
    }
    DivModUnique(s * i + k, s, i, k);
  }

  ghost function WorkersOf(l: Layout, me: int): set<int> {
    set rank | 0 <= rank < Workers(l) && MapToServer(l, rank) == me
  }

  // The ranks of a server's first n indices.
  ghost function Ranks(l: Layout, me: int, n: nat): set<int> {
    if n == 0 then {} else Ranks(l, me, n - 1) + {RankFromIdx(l, me, n - 1)}
  }

  lemma RankGrows(l: Layout, me: int, i: nat)
    ensures RankFromIdx(l, me, i) < RankFromIdx(l, me, i + 1)
  {
    assert (i + 1) * l.servers == i * l.servers + l.servers;
  }

  lemma {:induction false} RanksCount(l: Layout, me: int, n: nat)
    ensures |Ranks(l, me, n)| == n
    ensures forall rank :: rank in Ranks(l, me, n) ==> rank < RankFromIdx(l, me, n)
  {
    hide RankFromIdx;
    if n > 0 {
      RanksCount(l, me, n - 1);
      RankGrows(l, me, n - 1);
      assert RankFromIdx(l, me, n - 1) !in Ranks(l, me, n - 1);
    }
  }

  lemma {:induction false} IndexInRanks(l: Layout, me: int, n: nat, i: nat)
    requires i < n
    ensures RankFromIdx(l, me, i) in Ranks(l, me, n)
  {
    hide RankFromIdx;
    if i < n - 1 {
      IndexInRanks(l, me, n - 1, i);
    }
  }

  lemma {:induction false} RankHasIndex(l: Layout, me: int, n: nat, rank: int) returns (i: nat)
    requires rank in Ranks(l, me, n)
    ensures i < n && rank == RankFromIdx(l, me, i)
  {
    hide RankFromIdx;
    if rank == RankFromIdx(l, me, n - 1) {
      i := n - 1;
    } else {
      i := RankHasIndex(l, me, n - 1, rank);
    }
  }

  /** The count a server computes is the number of workers that belong to it. */
  lemma CountIsRight(l: Layout, me: int)
    requires IsServer(l, me)
    ensures |WorkersOf(l, me)| == MyWorkersCount(l, me)
  {
    var n := MyWorkersCount(l, me);
    RanksCount(l, me, n);
    var ranks := Ranks(l, me, n);
    forall rank | rank in WorkersOf(l, me)
      ensures rank in ranks
    {
      WorkerHasIndex(l, rank);
      IndexInRanks(l, me, n, WorkerIdx(l, rank));
    }
    forall rank | rank in ranks
      ensures rank in WorkersOf(l, me)
    {
      var i := RankHasIndex(l, me, n, rank);
      IndexHasWorker(l, me, i);
    }
    assert WorkersOf(l, me) == ranks;
  }

  // ---- Hosts ------------------------------------------------------------------

  // Hosts are numbered in the order in which workers first name them.
  ghost predicate Numbers(names: seq<string>, ids: seq<int>, count: nat) {
    && |ids| == |names|
    && (forall i :: 0 <= i < |ids| ==> 0 <= ids[i] < count)
    && (forall i, j :: 0 <= i < |ids| && 0 <= j < |ids| ==> (ids[i] == ids[j] <==> names[i] == names[j]))
    && (forall h :: 0 <= h < count ==> h in ids)
    && (forall j :: 0 <= j < |ids| ==> forall h :: 0 <= h < ids[j] ==> h in ids[..j])
  }

  method BuildWorker2Host(l: Layout, me: int, hostOf: int -> string) returns (worker2host: array<int>, count: nat)
    requires IsServer(l, me)
    ensures fresh(worker2host) && worker2host.Length == MyWorkersCount(l, me)
    ensures Numbers(seq(MyWorkersCount(l, me), i requires i >= 0 => hostOf(RankFromIdx(l, me, i))), worker2host[..], count)
  {
    var n := MyWorkersCount(l, me);
    ghost var names := seq(n, i requires i >= 0 => hostOf(RankFromIdx(l, me, i)));
    worker2host := new int[n];
    count := 0;
    var index: map<string, int> := map[];
    for i := 0 to n
      invariant forall name :: name in index ==> 0 <= index[name] < count
      invariant forall a, b :: a in index && b in index && index[a] == index[b] ==> a == b
      invariant forall j :: 0 <= j < i ==> names[j] in index && worker2host[j] == index[names[j]]
      invariant forall h :: 0 <= h < count ==> h in worker2host[..i]
      invariant forall j :: 0 <= j < i ==> forall h :: 0 <= h < worker2host[j] ==> h in worker2host[..j]
    {
      var name := hostOf(RankFromIdx(l, me, i));
      assert name == names[i];
      ghost var before := worker2host[..i];
      if name !in index {
        index := index[name := count];
        count := count + 1;
      }
      worker2host[i] := index[name];
      assert worker2host[..i] == before;
      assert worker2host[..i + 1] == before + [index[name]];
      assert forall j :: 0 <= j < i ==> worker2host[..j] == before[..j];
    }
    assert worker2host[..n] == worker2host[..];
    assert forall j :: 0 <= j < n ==> worker2host[..j] == worker2host[..][..j];
  }

  predicate Ascending(s: seq<int>) {
    forall i, j :: 0 <= i < j < |s| ==> s[i] < s[j]
  }

  // The workers of each host, in order: the inverse of `ids`.
  ghost predicate Inverts(lists: seq<seq<int>>, ids: seq<int>, n: nat) {
    && n <= |ids|
    && forall h :: 0 <= h < |lists| ==> Ascending(lists[h]) && forall i :: i in lists[h] <==> 0 <= i < n && ids[i] == h
  }

  method BuildHost2Workers(worker2host: array<int>, count: nat) returns (host2workers: seq<seq<int>>)
    requires forall i :: 0 <= i < worker2host.Length ==> 0 <= worker2host[i] < count
    ensures |host2workers| == count && Inverts(host2workers, worker2host[..], worker2host.Length)
  {
    host2workers := seq(count, h => []);
    ghost var ids := worker2host[..];
    for i := 0 to worker2host.Length
      invariant |host2workers| == count && Inverts(host2workers, ids, i)
    {
      var h := worker2host[i];
      InvertsNext(host2workers, ids, i);
      host2workers := host2workers[h := host2workers[h] + [i]];
    }
  }

  lemma InvertsNext(lists: seq<seq<int>>, ids: seq<int>, n: nat)
    requires n < |ids| && 0 <= ids[n] < |lists| && Inverts(lists, ids, n)
    ensures Inverts(lists[ids[n] := lists[ids[n]] + [n]], ids, n + 1)
  {
    var h := ids[n];
    var grown := lists[h] + [n];
    assert forall i :: 0 <= i < |lists[h]| ==> lists[h][i] in lists[h];
    assert Ascending(grown);
    assert forall i :: i in grown <==> i in lists[h] || i == n;
  }

  // ---- Identifiers --------------------------------------------------------------

  function Locate(l: Layout, id: int): int {
    Workers(l) + Abs(Remainder(id, l.servers))
  }

  /** Every identifier, of either sign, lives on some server. */
  lemma LocateIsServer(l: Layout, id: int)
    ensures IsServer(l, Locate(l, id))
  {
  }

  const LONG_MAX: int := 0x7fff_ffff_ffff_ffff

  class UniqueIds {
    const l: Layout
    const num: nat
    var unique: int64
    const last: int64
    ghost var issued: seq<int>

    ghost predicate Valid()
      reads this
    {
      && num < l.servers < LONG_MAX / 2
      && last == LONG_MAX - l.servers - 1
      && 0 < unique < last + l.servers && unique % l.servers == num
      && (forall i :: 0 <= i < |issued| ==> 0 < issued[i] < unique && issued[i] < last && Locate(l, issued[i]) == Workers(l) + num)
      && (forall i, j :: 0 <= i < j < |issued| ==> issued[i] < issued[j])
    }

    constructor (l: Layout, num: nat)
      requires num < l.servers < LONG_MAX / 2
      ensures Valid() && issued == [] && this.l == l && this.num == num
    {
      this.l, this.num := l, num;
      var start: int := num;
      if start == 0 {
        start := start + l.servers;
        DivModUnique(l.servers, l.servers, 1, 0);
      } else {
        ModSmall(num, l.servers);
      }
      unique := start;
      last := LONG_MAX - l.servers - 1;
      issued := [];
    }

    /** Hands out an identifier that is nonzero, new, and stored on this server; fails when they run out. */
    method Next() returns (id: Option<int>)
      requires Valid()
      modifies this
      ensures Valid()
      ensures id.None? <==> old(unique) >= last
      ensures id.None? ==> issued == old(issued)
      ensures id.Some? ==> issued == old(issued) + [id.value]
    {
      if unique >= last {
        return None;
      }
      id := Some(unique);
      issued := issued + [unique];
      ModShift(unique, l.servers, 1);
      unique := unique + l.servers;
    }
  }

  /** However many identifiers two servers of a layout have handed out, none is from both. */
  lemma DistinctAcrossServers(a: UniqueIds, b: UniqueIds)
    requires a.Valid() && b.Valid() && a.l == b.l && a.num != b.num
    ensures forall i, j :: 0 <= i < |a.issued| && 0 <= j < |b.issued| ==> a.issued[i] != b.issued[j]
  {
    hide Locate;
    forall i, j | 0 <= i < |a.issued| && 0 <= j < |b.issued|
      ensures a.issued[i] != b.issued[j]
    {
      assert Locate(a.l, a.issued[i]) != Locate(b.l, b.issued[j]);
    }
  }

  // ---- The reserved identifiers of the checkpoint index ------------------------------

  function IdForServer(l: Layout, start: int, k: int): int {
    var offset := Remainder(start, l.servers);
    start + Remainder(l.servers - (k + offset), l.servers)
  }

  function IdForHash(l: Layout, start: int, hash: nat): int {
    hash % l.servers + start
  }

  // -id and k leave the same remainder, whatever the start.
  lemma {:induction false} IdForServerIs(l: Layout, start: int, k: int)
    requires start <= -l.servers && 0 <= k < l.servers
    ensures start <= IdForServer(l, start, k) < start + l.servers
    ensures (-IdForServer(l, start, k)) % l.servers == k
  {
    var s := l.servers;
    var o := (-start) % s;
    assert Remainder(start, s) == -o;
    var t := s - k + o;
    assert 0 < t < 2 * s;
    if t < s {
      ModSmall(t, s);
    } else {
      ModOnce(t, s);
    }
    var shift := t % s;
    assert shift == t || shift == t - s;
    assert IdForServer(l, start, k) == start + shift;
    var q := (-start) / s;
    assert -start == s * q + o;
    var q' := if shift == t then q - 1 else q;
    assert s * (q - 1) == s * q - s;
    DivModUnique(-(start + shift), s, q', k);
  }

  /** Each server's reserved identifier is in the reserved range and lives on that server. */
  lemma IdForServerLocated(l: Layout, start: int, k: int)
    requires start <= -l.servers && 0 <= k < l.servers
    ensures var id := IdForServer(l, start, k);
            start <= id < start + l.servers && id < 0 && Locate(l, id) == Workers(l) + k
  {
    IdForServerIs(l, start, k);
  }

  /** Every identifier of the reserved range is some server's: with the lemma before, a bijection. */
  lemma ReservedIsSomeServers(l: Layout, start: int, id: int)
    requires start <= -l.servers && start <= id < start + l.servers
    ensures var k := Locate(l, id) - Workers(l);
            0 <= k < l.servers && IdForServer(l, start, k) == id
  {
    var s := l.servers;
    var k := (-id) % s;
    assert Locate(l, id) == Workers(l) + k;
    IdForServerIs(l, start, k);
    var other := IdForServer(l, start, k);
    SameRemainderClose(-id, -other, s);
  }

  lemma SameRemainderClose(a: int, b: int, s: int)
    requires s > 0 && a % s == b % s && -s < a - b < s
    ensures a == b
  {
    var qa, qb := a / s, b / s;
    assert a == s * qa + a % s && b == s * qb + b % s;
    assert s * qa - s * qb == s * (qa - qb);
    if qa > qb {
      MulMonotone(s, 1, qa - qb);
    } else if qa < qb {
      MulMonotone(s, qa - qb, -1);
    }
  }

  /** A hashed key goes to an identifier that some server keeps. */
  lemma HashIsReserved(l: Layout, start: int, hash: nat)
    requires start <= -l.servers
    ensures exists k :: 0 <= k < l.servers && IdForServer(l, start, k) == IdForHash(l, start, hash)
  {
    ReservedIsSomeServers(l, start, IdForHash(l, start, hash));
  }
}
