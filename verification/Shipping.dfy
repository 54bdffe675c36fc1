/**
  Sending notification work to a client.  Subscripts and values are packed once
  into one buffer of entries and referred to by their index there; a subscript
  or value with the same address and length as the last one is not packed again.
 */
module Shipping {
  import opened Options
  import opened Serial

  type Length = n: nat | n <= 0xffff_ffff_ffff_ffff

  // Where some bytes lie in memory; address 0 is the null pointer.
  datatype Pointer = Pointer(address: int, length: Length)

  // The bytes at each place; those of a place depend on nothing else.
  type Memory = m: Pointer -> Bytes | forall p :: |m(p)| == p.length
    witness (p: Pointer) => Zeros(p.length)

  datatype Refcounts = Refcounts(read: int, write: int)

  // As the server holds them.
  datatype Notify = Notify(rank: int, id: int, sub: Option<Pointer>)
  datatype SetRef = SetRef(id: int, sub: Option<Pointer>, kind: Type, counts: Refcounts, writeDecr: int, value: Pointer)
  datatype Change = Change(id: int, counts: Refcounts, preacquire: bool)

  // What they say.
  datatype PlainNotify = PlainNotify(rank: int, id: int, sub: Option<Bytes>)
  datatype PlainRef = PlainRef(id: int, sub: Option<Bytes>, kind: Type, counts: Refcounts, writeDecr: int, value: Bytes)

  // As they are sent.
  datatype PackedNotify = PackedNotify(rank: int, id: int, subData: int)
  datatype PackedRef = PackedRef(id: int, kind: Type, counts: Refcounts, writeDecr: int, subData: int, valData: int)
  datatype Message = Message(notifs: seq<PackedNotify>, refs: seq<PackedRef>, changes: seq<Change>,
                             extra: Bytes, extraCount: nat)

  function BytesAt(m: Memory, p: Option<Pointer>): Option<Bytes> {
    if p.None? then None else Some(m(p.value))
  }

  function PlainOf(m: Memory, n: Notify): PlainNotify {
    PlainNotify(n.rank, n.id, BytesAt(m, n.sub))
  }

  function PlainRefOf(m: Memory, r: SetRef): PlainRef {
    PlainRef(r.id, BytesAt(m, r.sub), r.kind, r.counts, r.writeDecr, m(r.value))
  }

  // The entries of the shared buffer, one after another.
  function Entries(c: Codec, items: seq<Bytes>): Bytes {
    if items == [] then [] else Entries(c, items[..|items| - 1]) + Entry(c, None, items[|items| - 1])
  }

  lemma EntriesSnoc(c: Codec, items: seq<Bytes>, item: Bytes)
    ensures Entries(c, items + [item]) == Entries(c, items) + Entry(c, None, item)
  {
    assert (items + [item])[..|items|] == items;
  }

  // Index i names these bytes among the entries, or -1 says there are none.
  predicate Names(items: seq<Bytes>, i: int, b: Option<Bytes>) {
    if b.None? then i == -1 else 0 <= i < |items| && items[i] == b.value
  }

  predicate NamesNotify(items: seq<Bytes>, p: PackedNotify, n: PlainNotify) {
    p.rank == n.rank && p.id == n.id && Names(items, p.subData, n.sub)
  }

  predicate NamesRef(items: seq<Bytes>, p: PackedRef, r: PlainRef) {
    && p.id == r.id && p.kind == r.kind && p.counts == r.counts && p.writeDecr == r.writeDecr
    && Names(items, p.subData, r.sub) && Names(items, p.valData, Some(r.value))
  }

  // Names stay right as entries are added.
  lemma NamesStay(items: seq<Bytes>, more: seq<Bytes>, i: int, b: Option<Bytes>)
    requires items <= more && Names(items, i, b)
    ensures Names(more, i, b)
  {
  }

  class Sender {
    const c: Codec
    const m: Memory
    var extra: Bytes
    var count: nat
    ghost var items: seq<Bytes>

    ghost predicate Valid()
      reads this
    {
      extra == Entries(c, items) && count == |items| && forall i :: 0 <= i < |items| ==> |items[i]| <= SIZE_MAX
    }

    constructor (c: Codec, m: Memory)
      ensures Valid() && items == [] && this.c == c && this.m == m
    {
      this.c, this.m := c, m;
      extra, count, items := [], 0, [];
    }

    method Append(p: Pointer) returns (ix: nat)
      requires Valid()
      modifies this
      ensures Valid() && items == old(items) + [m(p)] && ix == |old(items)|
    {
      EntriesSnoc(c, items, m(p));
      extra := extra + Entry(c, None, m(p));
      ix, count, items := count, count + 1, items + [m(p)];
    }

    method PackNotifs(ns: seq<Notify>) returns (ps: seq<PackedNotify>)
      requires Valid()
      modifies this
      ensures Valid() && old(items) <= items && |ps| == |ns|
      ensures forall i :: 0 <= i < |ns| ==> NamesNotify(items, ps[i], PlainOf(m, ns[i]))
    {
      hide Entries;
      ps := [];
      var last: Option<Pointer>, lastIx: int := None, -1;
      for i := 0 to |ns|
        invariant Valid() && old(items) <= items && |ps| == i
        invariant last.Some? ==> Names(items, lastIx, Some(m(last.value)))
        invariant forall j :: 0 <= j < i ==> NamesNotify(items, ps[j], PlainOf(m, ns[j]))
      {
        ghost var before := items;
        var ix: int := -1;
        if ns[i].sub.Some? {
          if last == ns[i].sub {
            ix := lastIx;
          } else {
            ix := Append(ns[i].sub.value);
            last, lastIx := ns[i].sub, ix;
          }
        }
        assert before <= items;
        ps := ps + [PackedNotify(ns[i].rank, ns[i].id, ix)];
      }
    }

    method PackRefs(rs: seq<SetRef>) returns (ps: seq<PackedRef>)
      requires Valid()
      modifies this
      ensures Valid() && old(items) <= items && |ps| == |rs|
      ensures forall i :: 0 <= i < |rs| ==> NamesRef(items, ps[i], PlainRefOf(m, rs[i]))
    {
      hide Entries;
      ps := [];
      var last, lastIx := Pointer(0, 0), 0;
      for i := 0 to |rs|
        invariant Valid() && old(items) <= items && |ps| == i
        invariant last.address != 0 ==> Names(items, lastIx, Some(m(last)))
        invariant forall j :: 0 <= j < i ==> NamesRef(items, ps[j], PlainRefOf(m, rs[j]))
      {
        ghost var before := items;
        var subIx: int := -1;
        if rs[i].sub.Some? {
          subIx := Append(rs[i].sub.value);
        }
        ghost var between := items;
        assert before <= between;
        if last.address == 0 || last != rs[i].value {
          lastIx := Append(rs[i].value);
          last := rs[i].value;
        }
        assert between <= items;
        assert Names(items, lastIx, Some(m(rs[i].value)));
        ps := ps + [PackedRef(rs[i].id, rs[i].kind, rs[i].counts, rs[i].writeDecr, subIx, lastIx)];
      }
    }
  }

  // The message says what the lists say, by way of these entries.
  predicate Carries(c: Codec, msg: Message, items: seq<Bytes>, ns: seq<PlainNotify>, rs: seq<PlainRef>, cs: seq<Change>) {
    && msg.extra == Entries(c, items) && msg.extraCount == |items| && msg.changes == cs
    && (forall i :: 0 <= i < |items| ==> |items[i]| <= SIZE_MAX)
    && |msg.notifs| == |ns| && (forall i :: 0 <= i < |ns| ==> NamesNotify(items, msg.notifs[i], ns[i]))
    && |msg.refs| == |rs| && (forall i :: 0 <= i < |rs| ==> NamesRef(items, msg.refs[i], rs[i]))
  }

  function AllPlain(m: Memory, ns: seq<Notify>): seq<PlainNotify> {
    seq(|ns|, i requires 0 <= i < |ns| => PlainOf(m, ns[i]))
  }

  function AllPlainRefs(m: Memory, rs: seq<SetRef>): seq<PlainRef> {
    seq(|rs|, i requires 0 <= i < |rs| => PlainRefOf(m, rs[i]))
  }

  method PrepareForSend(c: Codec, m: Memory, ns: seq<Notify>, rs: seq<SetRef>, cs: seq<Change>)
    returns (msg: Message, ghost items: seq<Bytes>)
    ensures Carries(c, msg, items, AllPlain(m, ns), AllPlainRefs(m, rs), cs)
  {
    hide Entries;
    var s := new Sender(c, m);
    var pn := s.PackNotifs(ns);
    ghost var first := s.items;
    var pr := s.PackRefs(rs);
    items := s.items;
    forall i | 0 <= i < |ns|
      ensures NamesNotify(items, pn[i], PlainOf(m, ns[i]))
    {
      NamesStay(first, items, pn[i].subData, BytesAt(m, ns[i].sub));
    }
    msg := Message(pn, pr, cs, s.extra, s.count);
  }

  // Each entry is read off where the entries before it end.
  lemma {:induction false} EntriesPrefix(c: Codec, items: seq<Bytes>, i: nat) returns (post: Bytes)
    requires i <= |items|
    ensures Entries(c, items) == Entries(c, items[..i]) + post
    ensures i < |items| ==> Entries(c, items[..i + 1]) == Entries(c, items[..i]) + Entry(c, None, items[i])
    decreases |items| - i
  {
    hide Entry;
    if i == |items| {
      post := [];
      assert items[..i] == items;
    } else {
      assert items[..i + 1] == items[..i] + [items[i]];
      EntriesSnoc(c, items[..i], items[i]);
      var rest := EntriesPrefix(c, items, i + 1);
      post := Entry(c, None, items[i]) + rest;
    }
  }

  lemma EntryReads(c: Codec, items: seq<Bytes>, i: nat)
    requires VintOk(c) && i < |items| && |items[i]| <= SIZE_MAX
    ensures UnpackEntry(c, None, Entries(c, items), |Entries(c, items[..i])|) ==
            Some(Slice(items[i], |Entries(c, items[..i + 1])|))
  {
    hide Entry, Entries, UnpackEntry, VintOk;
    var pre := Entries(c, items[..i]);
    var skip := EntriesPrefix(c, items, i);
    var post := EntriesPrefix(c, items, i + 1);
    EntryRoundTrip(c, None, pre, items[i], post);
  }

  // Takes the entries apart; succeeds only if they use up the buffer.
  method Locate(c: Codec, extra: Bytes, count: nat, ghost items: seq<Bytes>) returns (found: seq<Bytes>, ok: bool)
    requires VintOk(c) && extra == Entries(c, items) && count == |items|
    requires forall i :: 0 <= i < |items| ==> |items[i]| <= SIZE_MAX
    ensures ok && found == items
  {
    hide Entries, UnpackEntry, VintOk;
    found := [];
    var pos := 0;
    assert |Entries(c, items[..0])| == 0 by { NoEntries(c); }
    for i := 0 to count
      invariant found == items[..i] && pos == |Entries(c, items[..i])|
    {
      EntryReads(c, items, i);
      var e := UnpackEntry(c, None, extra, pos);
      found := found + [e.value.data];
      pos := e.value.pos;
    }
    assert items[..count] == items;
    ok := pos == |extra|;
  }

  lemma NoEntries(c: Codec)
    ensures Entries(c, []) == []
  {
  }

  lemma EntriesNonempty(c: Codec, items: seq<Bytes>)
    requires VintOk(c) && items != []
    ensures Entries(c, items) != []
  {
    EntryShorter(c, None, items[|items| - 1]);
  }

  /** Appends the received work to what the client already has. */
  method Receive(c: Codec, msg: Message, ns0: seq<PlainNotify>, rs0: seq<PlainRef>, cs0: seq<Change>,
                 ghost items: seq<Bytes>, ghost ns: seq<PlainNotify>, ghost rs: seq<PlainRef>, ghost cs: seq<Change>)
    returns (ns1: seq<PlainNotify>, rs1: seq<PlainRef>, cs1: seq<Change>, ok: bool)
    requires VintOk(c) && Carries(c, msg, items, ns, rs, cs)
    ensures ok && ns1 == ns0 + ns && rs1 == rs0 + rs && cs1 == cs0 + cs
  {
    hide Entries, VintOk;
    var data: seq<Bytes> := [];
    ok := true;
    if |msg.extra| > 0 {
      data, ok := Locate(c, msg.extra, msg.extraCount, items);
    } else if items != [] {
      EntriesNonempty(c, items);
    }
    ns1 := ns0;
    for i := 0 to |msg.notifs|
      invariant ns1 == ns0 + ns[..i]
    {
      var p := msg.notifs[i];
      assert NamesNotify(items, p, ns[i]);
      ns1 := ns1 + [PlainNotify(p.rank, p.id, if p.subData == -1 then None else Some(data[p.subData]))];
      assert ns[..i + 1] == ns[..i] + [ns[i]];
    }
    rs1 := rs0;
    for i := 0 to |msg.refs|
      invariant rs1 == rs0 + rs[..i]
    {
      var p := msg.refs[i];
      assert NamesRef(items, p, rs[i]);
      var sub := if p.subData >= 0 then Some(data[p.subData]) else None;
      rs1 := rs1 + [PlainRef(p.id, sub, p.kind, p.counts, p.writeDecr, data[p.valData])];
      assert rs[..i + 1] == rs[..i] + [rs[i]];
    }
    assert ns[..|ns|] == ns && rs[..|rs|] == rs;
    cs1 := cs0 + msg.changes;
  }

  /** Work shipped to a client arrives as it was: same order, same subscripts and values. */
  method Ship(c: Codec, m: Memory, ns: seq<Notify>, rs: seq<SetRef>, cs: seq<Change>)
    returns (ns1: seq<PlainNotify>, rs1: seq<PlainRef>, cs1: seq<Change>, ok: bool)
    requires VintOk(c)
    ensures ok && |ns1| == |ns| && |rs1| == |rs| && cs1 == cs
    ensures forall i :: 0 <= i < |ns| ==> ns1[i] == PlainOf(m, ns[i])
    ensures forall i :: 0 <= i < |rs| ==> rs1[i] == PlainRefOf(m, rs[i])
  {
    hide VintOk, Carries;
    var msg, items := PrepareForSend(c, m, ns, rs, cs);
    ns1, rs1, cs1, ok := Receive(c, msg, [], [], [], items, AllPlain(m, ns), AllPlainRefs(m, rs), cs);
  }
}
