/**
  The queue of single-process work units.  Units live in slots of an array and
  never move; heaps per type, per target rank and per target host hold
  (key, slot) entries that may go stale, and a popped entry counts only if the
  unit now in its slot matches it.
 */
module WorkQueue {
  import opened Options

  type int32 = x: int | -0x8000_0000 <= x < 0x8000_0000

  const INT_MIN: int32 := -0x8000_0000
  const SOFT_TARGET_PRIORITY_PENALTY: int32 := 65536

  datatype Strictness = Hard | Soft
  datatype Accuracy = Rank | Node

  datatype Unit = Unit(id: int, wtype: nat, target: int, strictness: Strictness, accuracy: Accuracy, priority: int32)

  datatype Entry = Entry(key: int32, slot: nat)

  datatype Index = Untargeted(wtype: nat) | ForRank(rank: int, wtype: nat) | ForHost(host: int, wtype: nat)

  // Which targets belong to this server, and the host of each.
  datatype Layout = Layout(servers: nat, workers: nat, rank: nat, hostOf: int -> int)

  predicate MapsHere(l: Layout, worker: int)
  {
    worker >= 0 && l.servers > 0 && worker % l.servers + l.workers == l.rank
  }

  // Two's complement negation of an int.
  function Neg(p: int32): int32 {
    if p == INT_MIN then INT_MIN else -p
  }

  function SoftPriority(p: int32): int32 {
    if p < INT_MIN + SOFT_TARGET_PRIORITY_PENALTY then INT_MIN else p - SOFT_TARGET_PRIORITY_PENALTY
  }

  type Slots = map<nat, Unit>
  type Heaps = map<Index, multiset<Entry>>

  function HeapOf(h: Heaps, ix: Index): multiset<Entry> {
    if ix in h then h[ix] else multiset{}
  }

  lemma HeapOfUpdate(h: Heaps, ix: Index, m: multiset<Entry>)
    ensures HeapOf(h[ix := m], ix) == m
    ensures forall j :: j != ix ==> HeapOf(h[ix := m], j) == HeapOf(h, j)
  {
  }

  // The index entries made for a unit when it is added.
  function Keys(l: Layout, u: Unit): set<(Index, int32)> {
    if u.target < 0 then
      {(Untargeted(u.wtype), Neg(u.priority))}
    else
      (if !MapsHere(l, u.target) then {}
       else if u.accuracy.Rank? then {(ForRank(u.target, u.wtype), Neg(u.priority))}
       else {(ForHost(l.hostOf(u.target), u.wtype), Neg(u.priority))}) +
      (if u.strictness.Soft? then {(Untargeted(u.wtype), Neg(SoftPriority(u.priority)))} else {})
  }

  // The staleness check of a popped entry.
  predicate Matches(l: Layout, u: Unit, ix: Index, key: int32) {
    && u.wtype == ix.wtype
    && match ix
       case Untargeted(_) =>
         && (u.target < 0 || u.strictness.Soft?)
         && (if u.strictness.Soft? then SoftPriority(u.priority) else u.priority) == Neg(key)
       case ForRank(rank, _) => u.target == rank && u.priority == Neg(key)
       case ForHost(host, _) => l.hostOf(u.target) == host && u.priority == Neg(key)
  }

  predicate Live(l: Layout, slots: Slots, ix: Index, e: Entry) {
    e.slot in slots && Matches(l, slots[e.slot], ix, e.key)
  }

  // An untargeted unit with soft strictness is entered under its plain
  // priority but looked up under the penalised one.
  predicate EntriesMatch(u: Unit) {
    u.target < 0 && u.strictness.Soft? ==> u.priority == INT_MIN
  }

  lemma NegInvolution(p: int32)
    ensures Neg(Neg(p)) == p
  {
  }

  // The entries made for a unit find it again exactly when it is targeted, or
  // has hard strictness, or has the least priority there is.
  lemma KeysMatchExactlyWhen(l: Layout, u: Unit)
    ensures EntriesMatch(u) <==> forall k :: k in Keys(l, u) ==> Matches(l, u, k.0, k.1)
  {
    if !EntriesMatch(u) {
      var k := (Untargeted(u.wtype), Neg(u.priority));
      assert k in Keys(l, u) && !Matches(l, u, k.0, k.1);
    }
  }

  // Every stored unit can be found through each of its entries.
  ghost predicate Indexed(l: Layout, slots: Slots, h: Heaps) {
    forall s, k :: s in slots && EntriesMatch(slots[s]) && k in Keys(l, slots[s]) ==> Entry(k.1, s) in HeapOf(h, k.0)
  }

  // `h'` still has every entry of `h` that is live.
  ghost predicate KeepsLive(l: Layout, slots: Slots, h: Heaps, h': Heaps) {
    forall ix, e :: e in HeapOf(h, ix) && Live(l, slots, ix, e) ==> e in HeapOf(h', ix)
  }

  lemma IndexedStays(l: Layout, slots: Slots, slots': Slots, h: Heaps, h': Heaps)
    requires Indexed(l, slots, h) && KeepsLive(l, slots', h, h')
    requires forall s :: s in slots' ==> s in slots && slots'[s] == slots[s]
    ensures Indexed(l, slots', h')
  {
    forall s, k | s in slots' && EntriesMatch(slots'[s]) && k in Keys(l, slots'[s])
      ensures Entry(k.1, s) in HeapOf(h', k.0)
    {
      KeysMatchExactlyWhen(l, slots'[s]);
      assert Entry(k.1, s) in HeapOf(h, k.0);
      assert Live(l, slots', k.0, Entry(k.1, s));
    }
  }

  ghost predicate EntriesAdded(l: Layout, h: Heaps, h': Heaps, u: Unit, slot: nat) {
    forall j, e :: e in HeapOf(h', j) <==>
                     e in HeapOf(h, j) || (e.slot == slot && (j, e.key) in Keys(l, u))
  }

  lemma AddedIndexed(l: Layout, slots: Slots, h: Heaps, h': Heaps, u: Unit, slot: nat)
    requires Indexed(l, slots, h) && slot !in slots && EntriesAdded(l, h, h', u, slot)
    ensures Indexed(l, slots[slot := u], h')
    ensures u.accuracy.Rank? && (forall host, t :: HeapOf(h, ForHost(host, t)) == multiset{}) ==>
              forall host, t :: HeapOf(h', ForHost(host, t)) == multiset{}
  {
    var slots' := slots[slot := u];
    forall s, k | s in slots' && EntriesMatch(slots'[s]) && k in Keys(l, slots'[s])
      ensures Entry(k.1, s) in HeapOf(h', k.0)
    {
      if s == slot {
        assert (k.0, Entry(k.1, s).key) in Keys(l, u);
      }
    }
    if u.accuracy.Rank? && forall host, t :: HeapOf(h, ForHost(host, t)) == multiset{} {
      forall host, t
        ensures HeapOf(h', ForHost(host, t)) == multiset{}
      {
        forall e
          ensures e !in HeapOf(h', ForHost(host, t))
        {
          assert e !in HeapOf(h, ForHost(host, t));
          assert (ForHost(host, t), e.key) !in Keys(l, u);
        }
      }
    }
  }

  // What a worker may be given.
  predicate Eligible(u: Unit, rank: int, wtype: nat) {
    u.wtype == wtype && (u.target == rank || u.target < 0 || u.strictness.Soft?)
  }

  function Effective(u: Unit): int32 {
    if u.strictness.Soft? then SoftPriority(u.priority) else u.priority
  }

  // Priority p is served no later than q: higher first, except that the least
  // int, whose negation is itself, comes before everything.
  predicate NoLater(p: int32, q: int32) {
    p == INT_MIN || (q != INT_MIN && p >= q)
  }

  lemma KeyOrder(p: int32, q: int32)
    ensures Neg(p) <= Neg(q) <==> NoLater(p, q)
  {
  }

  // With priorities above INT_MIN + 65536 the order is plainly by priority.
  lemma PriorityOrder(u: Unit, v: Unit)
    requires u.priority > INT_MIN + SOFT_TARGET_PRIORITY_PENALTY
    requires v.priority > INT_MIN + SOFT_TARGET_PRIORITY_PENALTY
    ensures NoLater(Effective(u), Effective(v)) <==> Effective(u) >= Effective(v)
    ensures NoLater(u.priority, v.priority) <==> u.priority >= v.priority
  {
  }

  // `r` is the right answer to a request of this rank and type over this set:
  // its own targeted work first, then the best of the rest; nothing only if
  // nothing findable is eligible.
  ghost predicate RightAnswer(stored: set<Unit>, rank: int, wtype: nat, r: Option<Unit>) {
    match r
    case None =>
      forall v :: v in stored && EntriesMatch(v) ==> !Eligible(v, rank, wtype)
    case Some(u) =>
      && u in stored && Eligible(u, rank, wtype)
      && (u.target == rank ==>
            forall v :: v in stored && v.wtype == wtype && v.target == rank ==> NoLater(u.priority, v.priority))
      && (u.target != rank ==>
            forall v :: v in stored && EntriesMatch(v) && Eligible(v, rank, wtype) ==>
                          v.target != rank && NoLater(Effective(u), Effective(v)))
  }

  lemma ValuesWith(m: Slots, k: nat, u: Unit)
    requires k !in m
    ensures m[k := u].Values == m.Values + {u}
  {
    var m' := m[k := u];
    forall v | v in m.Values + {u}
      ensures v in m'.Values
    {
      if v == u {
        assert m'[k] == u;
      } else {
        var j :| j in m && m[j] == v;
        assert m'[j] == v;
      }
    }
  }

  lemma ValuesWithout(m: Slots, k: nat)
    requires k in m && forall s, t :: s in m && t in m && m[s] == m[t] ==> s == t
    ensures (m - {k}).Values == m.Values - {m[k]}
  {
    var m' := m - {k};
    forall v | v in m.Values - {m[k]}
      ensures v in m'.Values
    {
      var j :| j in m && m[j] == v;
      assert m'[j] == v;
    }
  }

  // Some entries of index ix have been dropped from `h0`, all of them stale.
  ghost predicate StaleDropped(l: Layout, slots: Slots, h0: Heaps, h: Heaps, ix: Index) {
    && (forall j :: j != ix ==> HeapOf(h, j) == HeapOf(h0, j))
    && (forall e :: e in HeapOf(h, ix) ==> e in HeapOf(h0, ix))
    && (forall e :: e in HeapOf(h0, ix) && Live(l, slots, ix, e) ==> e in HeapOf(h, ix))
  }

  ghost predicate NoneLive(l: Layout, slots: Slots, h: Heaps, ix: Index) {
    forall e :: e in HeapOf(h, ix) ==> !Live(l, slots, ix, e)
  }

  ghost predicate LeastLive(l: Layout, slots: Slots, h: Heaps, ix: Index, e: Entry) {
    && e in HeapOf(h, ix) && Live(l, slots, ix, e)
    && forall f :: f in HeapOf(h, ix) && Live(l, slots, ix, f) ==> e.key <= f.key
  }

  // What a request gets from the three indices it consults, in turn.
  ghost predicate IndexAnswer(l: Layout, slots: Slots, h: Heaps, rank: int, wtype: nat, r: Option<Unit>) {
    var rx, hx, ux := ForRank(rank, wtype), ForHost(l.hostOf(rank), wtype), Untargeted(wtype);
    match r
    case None => NoneLive(l, slots, h, rx) && NoneLive(l, slots, h, hx) && NoneLive(l, slots, h, ux)
    case Some(u) =>
      exists e: Entry ::
        && e.slot in slots && u == slots[e.slot]
        && (|| LeastLive(l, slots, h, rx, e)
            || (NoneLive(l, slots, h, rx) && LeastLive(l, slots, h, hx, e))
            || (NoneLive(l, slots, h, rx) && NoneLive(l, slots, h, hx) && LeastLive(l, slots, h, ux, e)))
  }

  // Dropping stale entries changes no answer.
  lemma SameLive(l: Layout, slots: Slots, h: Heaps, h': Heaps, ix: Index)
    requires KeepsLive(l, slots, h, h')
    requires forall j, e :: e in HeapOf(h', j) ==> e in HeapOf(h, j)
    ensures NoneLive(l, slots, h, ix) <==> NoneLive(l, slots, h', ix)
    ensures forall e :: LeastLive(l, slots, h, ix, e) <==> LeastLive(l, slots, h', ix, e)
  {
    hide Live, HeapOf;
  }

  lemma NothingDropped(l: Layout, slots: Slots, h: Heaps, ix: Index)
    ensures StaleDropped(l, slots, h, h, ix)
  {
  }

  lemma DropStale(l: Layout, slots: Slots, h0: Heaps, h: Heaps, ix: Index, e: Entry)
    requires StaleDropped(l, slots, h0, h, ix) && e in HeapOf(h, ix) && !Live(l, slots, ix, e)
    ensures StaleDropped(l, slots, h0, h[ix := HeapOf(h, ix) - multiset{e}], ix)
  {
    hide Live, HeapOf;
    var m := HeapOf(h, ix) - multiset{e};
    var h' := h[ix := m];
    HeapOfUpdate(h, ix, m);
    forall f | f in HeapOf(h0, ix) && Live(l, slots, ix, f)
      ensures f in HeapOf(h', ix)
    {
      assert f != e;
    }
  }

  // Dropping a live entry and its unit loses no live entry of what remains.
  lemma DropLive(l: Layout, slots: Slots, h0: Heaps, h: Heaps, ix: Index, e: Entry)
    requires StaleDropped(l, slots, h0, h, ix) && e in HeapOf(h, ix)
    ensures KeepsLive(l, slots - {e.slot}, h0, h[ix := HeapOf(h, ix) - multiset{e}])
    ensures forall j, f :: f in HeapOf(h[ix := HeapOf(h, ix) - multiset{e}], j) ==> f in HeapOf(h0, j)
  {
    hide Matches;
    var h', slots' := h[ix := HeapOf(h, ix) - multiset{e}], slots - {e.slot};
    forall j, f | f in HeapOf(h0, j) && Live(l, slots', j, f)
      ensures f in HeapOf(h', j)
    {
      assert Live(l, slots, j, f);
      assert f.slot != e.slot;
    }
  }

  lemma AllDropped(l: Layout, slots: Slots, h0: Heaps, h: Heaps, ix: Index)
    requires StaleDropped(l, slots, h0, h, ix)
    ensures KeepsLive(l, slots, h0, h)
    ensures forall j, f :: f in HeapOf(h, j) ==> f in HeapOf(h0, j)
  {
    hide Live;
  }

  // A stored unit's entry is present and live.
  lemma HasEntry(l: Layout, slots: Slots, h: Heaps, s: nat, ix: Index, key: int32)
    requires Indexed(l, slots, h) && s in slots && EntriesMatch(slots[s]) && (ix, key) in Keys(l, slots[s])
    ensures Entry(key, s) in HeapOf(h, ix) && Live(l, slots, ix, Entry(key, s))
  {
    KeysMatchExactlyWhen(l, slots[s]);
    var k := (ix, key);
    assert k in Keys(l, slots[s]);
  }

  // The least live entry of a rank's index is its best targeted unit.
  lemma TargetedAnswer(l: Layout, slots: Slots, h: Heaps, rank: int, wtype: nat, e: Entry)
    requires Indexed(l, slots, h) && MapsHere(l, rank)
    requires forall u :: u in slots.Values ==> u.accuracy.Rank?
    requires LeastLive(l, slots, h, ForRank(rank, wtype), e)
    ensures RightAnswer(slots.Values, rank, wtype, Some(slots[e.slot]))
  {
    var u := slots[e.slot];
    NegInvolution(e.key);
    forall v | v in slots.Values && v.wtype == wtype && v.target == rank
      ensures NoLater(u.priority, v.priority)
    {
      var s :| s in slots && slots[s] == v;
      HasEntry(l, slots, h, s, ForRank(rank, wtype), Neg(v.priority));
      KeyOrder(u.priority, v.priority);
    }
  }

  lemma NoTargetedUnit(l: Layout, slots: Slots, h: Heaps, rank: int, wtype: nat, v: Unit)
    requires Indexed(l, slots, h) && MapsHere(l, rank) && NoneLive(l, slots, h, ForRank(rank, wtype))
    requires v in slots.Values && v.accuracy.Rank? && v.wtype == wtype
    ensures v.target != rank
  {
    var s :| s in slots && slots[s] == v;
    if v.target == rank {
      HasEntry(l, slots, h, s, ForRank(rank, wtype), Neg(v.priority));
    }
  }

  lemma UntargetedEntry(l: Layout, slots: Slots, h: Heaps, v: Unit) returns (s: nat)
    requires Indexed(l, slots, h) && v in slots.Values && EntriesMatch(v)
    requires v.target < 0 || v.strictness.Soft?
    ensures Entry(Neg(Effective(v)), s) in HeapOf(h, Untargeted(v.wtype))
    ensures Live(l, slots, Untargeted(v.wtype), Entry(Neg(Effective(v)), s))
  {
    s :| s in slots && slots[s] == v;
    HasEntry(l, slots, h, s, Untargeted(v.wtype), Neg(Effective(v)));
  }

  // With no targeted unit, the least live entry of the type's index is the best eligible unit.
  lemma UntargetedAnswer(l: Layout, slots: Slots, h: Heaps, rank: int, wtype: nat, e: Entry)
    requires Indexed(l, slots, h)
    requires forall v :: v in slots.Values && v.wtype == wtype ==> v.target != rank
    requires LeastLive(l, slots, h, Untargeted(wtype), e)
    ensures RightAnswer(slots.Values, rank, wtype, Some(slots[e.slot]))
  {
    var u := slots[e.slot];
    NegInvolution(e.key);
    forall v | v in slots.Values && EntriesMatch(v) && Eligible(v, rank, wtype)
      ensures NoLater(Effective(u), Effective(v))
    {
      var s := UntargetedEntry(l, slots, h, v);
      KeyOrder(Effective(u), Effective(v));
    }
  }

  lemma NoAnswer(l: Layout, slots: Slots, h: Heaps, rank: int, wtype: nat)
    requires Indexed(l, slots, h) && NoneLive(l, slots, h, Untargeted(wtype))
    requires forall v :: v in slots.Values && v.wtype == wtype ==> v.target != rank
    ensures RightAnswer(slots.Values, rank, wtype, None)
  {
    forall v | v in slots.Values && EntriesMatch(v)
      ensures !Eligible(v, rank, wtype)
    {
      if Eligible(v, rank, wtype) {
        var s := UntargetedEntry(l, slots, h, v);
      }
    }
  }

  // When every unit ever added targets by rank, stale entries never change the
  // answer: the indices give what a search of the stored set would.
  lemma AnswersAreRight(l: Layout, slots: Slots, h: Heaps, rank: int, wtype: nat, r: Option<Unit>)
    requires Indexed(l, slots, h) && MapsHere(l, rank)
    requires forall u :: u in slots.Values ==> u.accuracy.Rank?
    requires forall host, t :: HeapOf(h, ForHost(host, t)) == multiset{}
    requires IndexAnswer(l, slots, h, rank, wtype, r)
    ensures RightAnswer(slots.Values, rank, wtype, r)
  {
    hide Matches, Keys, Indexed, HeapOf, Live, RightAnswer;
    var rx := ForRank(rank, wtype);
    if NoneLive(l, slots, h, rx) {
      forall v | v in slots.Values && v.wtype == wtype
        ensures v.target != rank
      {
        NoTargetedUnit(l, slots, h, rank, wtype, v);
      }
    }
    match r
    case None =>
      NoAnswer(l, slots, h, rank, wtype);
    case Some(u) =>
      var e: Entry :| e.slot in slots && u == slots[e.slot]
               && (LeastLive(l, slots, h, rx, e) ||
                   (NoneLive(l, slots, h, rx) && LeastLive(l, slots, h, Untargeted(wtype), e)));
      if LeastLive(l, slots, h, rx, e) {
        TargetedAnswer(l, slots, h, rank, wtype, e);
      } else {
        UntargetedAnswer(l, slots, h, rank, wtype, e);
      }
  }

  // What a worker may be given when targets may also be accurate to the host.
  predicate EligibleOn(l: Layout, u: Unit, rank: int, wtype: nat) {
    || Eligible(u, rank, wtype)
    || (u.wtype == wtype && u.accuracy.Node? && u.target >= 0 && l.hostOf(u.target) == l.hostOf(rank))
  }

  // A unit for one other worker and no one else.
  predicate ForAnother(u: Unit, rank: int) {
    u.target >= 0 && u.target != rank && u.accuracy.Rank? && u.strictness.Hard?
  }

  // Targets on other servers are soft.
  predicate Placed(l: Layout, u: Unit) {
    u.target >= 0 && !MapsHere(l, u.target) ==> u.strictness.Soft?
  }

  // A unit found through the host index is not for the worker exactly when it is
  // for another one alone; the entry that found it is then none of its own but
  // left behind by an earlier unit in its slot.
  lemma HostEntryWrongExactlyWhen(l: Layout, u: Unit, rank: int, wtype: nat, key: int32)
    requires Matches(l, u, ForHost(l.hostOf(rank), wtype), key)
    ensures !EligibleOn(l, u, rank, wtype) <==> ForAnother(u, rank)
    ensures ForAnother(u, rank) ==> (ForHost(l.hostOf(rank), wtype), key) !in Keys(l, u)
  {
  }

  // The answer to a request over units of either accuracy.
  ghost predicate MixedAnswer(l: Layout, slots: Slots, h: Heaps, rank: int, wtype: nat, r: Option<Unit>) {
    match r
    case None => forall v :: v in slots.Values && EntriesMatch(v) ==> !EligibleOn(l, v, rank, wtype)
    case Some(u) =>
      && u in slots.Values
      && (EligibleOn(l, u, rank, wtype) <==> !ForAnother(u, rank))
      && (ForAnother(u, rank) ==> exists e :: LeftBehind(l, slots, h, ForHost(l.hostOf(rank), wtype), e) && slots[e.slot] == u)
  }

  // A live entry that was not made for the unit it finds.
  predicate LeftBehind(l: Layout, slots: Slots, h: Heaps, ix: Index, e: Entry) {
    e in HeapOf(h, ix) && Live(l, slots, ix, e) && (ix, e.key) !in Keys(l, slots[e.slot])
  }

  /** Nothing only if no findable unit is eligible; and something ineligible only through an entry left behind. */
  lemma MixedAnswers(l: Layout, slots: Slots, h: Heaps, rank: int, wtype: nat, r: Option<Unit>)
    requires Indexed(l, slots, h) && MapsHere(l, rank)
    requires forall u :: u in slots.Values ==> Placed(l, u)
    requires IndexAnswer(l, slots, h, rank, wtype, r)
    ensures MixedAnswer(l, slots, h, rank, wtype, r)
  {
    hide MapsHere, Neg, SoftPriority;
    if r.None? {
      forall v | v in slots.Values && EntriesMatch(v)
        ensures !EligibleOn(l, v, rank, wtype)
      {
        var s :| s in slots && slots[s] == v;
        NotFoundNotEligible(l, slots, h, rank, wtype, s);
      }
    } else {
      var rx, hx, ux := ForRank(rank, wtype), ForHost(l.hostOf(rank), wtype), Untargeted(wtype);
      var e: Entry :|
        && e.slot in slots && r.value == slots[e.slot]
        && (|| LeastLive(l, slots, h, rx, e)
            || (NoneLive(l, slots, h, rx) && LeastLive(l, slots, h, hx, e))
            || (NoneLive(l, slots, h, rx) && NoneLive(l, slots, h, hx) && LeastLive(l, slots, h, ux, e)));
      if LeastLive(l, slots, h, hx, e) {
        HostEntryWrongExactlyWhen(l, r.value, rank, wtype, e.key);
        if ForAnother(r.value, rank) {
          assert LeftBehind(l, slots, h, hx, e);
        }
      }
    }
  }

  // Nothing is found for the worker itself, and what its host's index would give
  // first is a unit for another worker alone.
  ghost predicate Misdirects(l: Layout, slots: Slots, h: Heaps, rank: int, wtype: nat) {
    && NoneLive(l, slots, h, ForRank(rank, wtype))
    && exists e :: LeastLive(l, slots, h, ForHost(l.hostOf(rank), wtype), e) && ForAnother(slots[e.slot], rank)
  }

  // Answers from the other two indices are always eligible.
  lemma OtherEntriesAreRight(l: Layout, u: Unit, rank: int, wtype: nat, ix: Index, key: int32)
    requires ix == ForRank(rank, wtype) || ix == Untargeted(wtype)
    requires Matches(l, u, ix, key)
    ensures EligibleOn(l, u, rank, wtype)
  {
  }

  lemma IneligibleMisdirects(l: Layout, slots: Slots, h: Heaps, rank: int, wtype: nat, u: Unit)
    requires IndexAnswer(l, slots, h, rank, wtype, Some(u)) && !EligibleOn(l, u, rank, wtype)
    ensures Misdirects(l, slots, h, rank, wtype)
  {
    hide Matches, HeapOf, EligibleOn, ForAnother, Keys;
    var rx, hx, ux := ForRank(rank, wtype), ForHost(l.hostOf(rank), wtype), Untargeted(wtype);
    var e: Entry :|
      && e.slot in slots && u == slots[e.slot]
      && (|| LeastLive(l, slots, h, rx, e)
          || (NoneLive(l, slots, h, rx) && LeastLive(l, slots, h, hx, e))
          || (NoneLive(l, slots, h, rx) && NoneLive(l, slots, h, hx) && LeastLive(l, slots, h, ux, e)));
    if LeastLive(l, slots, h, rx, e) {
      OtherEntriesAreRight(l, u, rank, wtype, rx, e.key);
    } else if NoneLive(l, slots, h, rx) && LeastLive(l, slots, h, hx, e) {
      HostEntryWrongExactlyWhen(l, u, rank, wtype, e.key);
    } else {
      OtherEntriesAreRight(l, u, rank, wtype, ux, e.key);
    }
  }

  /**
    A request may be given a unit that is not for the worker exactly when, before
    it, nothing live is kept for the worker itself and a least live entry for its
    host leads to a unit for another worker alone.
   */
  lemma MisdeliversExactlyWhen(l: Layout, slots: Slots, h: Heaps, rank: int, wtype: nat)
    ensures (exists u :: IndexAnswer(l, slots, h, rank, wtype, Some(u)) && !EligibleOn(l, u, rank, wtype)) <==>
            Misdirects(l, slots, h, rank, wtype)
  {
    hide Matches, HeapOf, EligibleOn, ForAnother, Keys;
    if u :| IndexAnswer(l, slots, h, rank, wtype, Some(u)) && !EligibleOn(l, u, rank, wtype) {
      IneligibleMisdirects(l, slots, h, rank, wtype, u);
    }
    if Misdirects(l, slots, h, rank, wtype) {
      var e :| LeastLive(l, slots, h, ForHost(l.hostOf(rank), wtype), e) && ForAnother(slots[e.slot], rank);
      HostEntryWrongExactlyWhen(l, slots[e.slot], rank, wtype, e.key);
      assert IndexAnswer(l, slots, h, rank, wtype, Some(slots[e.slot]));
    }
  }

  lemma NotFoundNotEligible(l: Layout, slots: Slots, h: Heaps, rank: int, wtype: nat, s: nat)
    requires Indexed(l, slots, h) && MapsHere(l, rank) && s in slots && EntriesMatch(slots[s]) && Placed(l, slots[s])
    requires IndexAnswer(l, slots, h, rank, wtype, None)
    ensures !EligibleOn(l, slots[s], rank, wtype)
  {
    hide MapsHere, Neg, SoftPriority, HeapOf;
    var u := slots[s];
    if EligibleOn(l, u, rank, wtype) {
      var k := if u.target < 0 then (Untargeted(wtype), Neg(u.priority))
               else if u.strictness.Soft? then (Untargeted(wtype), Neg(SoftPriority(u.priority)))
               else if u.accuracy.Rank? then (ForRank(rank, wtype), Neg(u.priority))
               else (ForHost(l.hostOf(rank), wtype), Neg(u.priority));
      assert k in Keys(l, u);
      KeysMatchExactlyWhen(l, u);
    }
  }

  /**
    And it happens: a soft unit for a host is stolen, its host entry stays behind,
    its slot is used again for a hard unit of another worker on that host, of the
    same type and priority, and the next request from the host gets that unit.
   */
  method StaleHostEntryMisdelivers() returns (q: WorkQueue, r: Option<Unit>)
    ensures r.Some? && ForAnother(r.value, 0) && !EligibleOn(q.layout, r.value, 0, 0)
  {
    hide HeapOf, Matches, Keys, EntriesAdded, IndexAnswer, MixedAnswer, RightAnswer, EligibleOn, ForAnother, Placed,
      MapsHere, WorkQueue.Valid, WorkQueue.RankOnly;
    var l := Layout(1, 2, 2, worker => 7);
    var first, second := Unit(1, 0, 0, Soft, Node, 0), Unit(2, 0, 1, Hard, Rank, 0);
    var stale, taken := Entry(0, 0), Entry(65536, 0);
    q := new WorkQueue(l);
    OnOneHost(l, first, second);
    q.Add(first, 0);
    ghost var h1 := q.heaps;
    AddedEntry(l, map[], h1, first, 0, ForHost(7, 0), 0);
    AddedEntry(l, map[], h1, first, 0, Untargeted(0), 65536);
    r := q.StealOne(0, taken);
    HeapOfUpdate(h1, Untargeted(0), HeapOf(h1, Untargeted(0)) - multiset{taken});
    ghost var h2 := q.heaps;
    assert q.slots == map[];
    q.Add(second, 0);
    KeptEntry(l, h2, q.heaps, second, 0, ForHost(7, 0), stale);
    ghost var slots, h := q.slots, q.heaps;
    r := q.Get(0, 0);
    SomethingLive(l, slots, h, 0, 0, stale, r);
    assert slots.Values == {second};
  }

  lemma AddedEntry(l: Layout, h: Heaps, h': Heaps, u: Unit, slot: nat, ix: Index, key: int32)
    requires EntriesAdded(l, h, h', u, slot) && (ix, key) in Keys(l, u)
    ensures Entry(key, slot) in HeapOf(h', ix)
  {
    hide Keys, HeapOf;
  }

  lemma KeptEntry(l: Layout, h: Heaps, h': Heaps, u: Unit, slot: nat, ix: Index, e: Entry)
    requires EntriesAdded(l, h, h', u, slot) && e in HeapOf(h, ix)
    ensures e in HeapOf(h', ix)
  {
    hide Keys, HeapOf;
  }

  lemma SomethingLive(l: Layout, slots: Slots, h: Heaps, rank: int, wtype: nat, e: Entry, r: Option<Unit>)
    requires IndexAnswer(l, slots, h, rank, wtype, r)
    requires e in HeapOf(h, ForHost(l.hostOf(rank), wtype)) && Live(l, slots, ForHost(l.hostOf(rank), wtype), e)
    ensures r.Some?
  {
    hide HeapOf, Live;
  }

  lemma OnOneHost(l: Layout, first: Unit, second: Unit)
    requires l.servers == 1 && l.workers == 2 && l.rank == 2 && l.hostOf(0) == 7 && l.hostOf(1) == 7
    requires first == Unit(1, 0, 0, Soft, Node, 0) && second == Unit(2, 0, 1, Hard, Rank, 0)
    ensures MapsHere(l, 0) && Placed(l, first) && Placed(l, second)
    ensures (ForHost(7, 0), 0) in Keys(l, first) && (Untargeted(0), 65536) in Keys(l, first)
    ensures Matches(l, first, Untargeted(0), 65536) && Matches(l, second, ForHost(7, 0), 0)
    ensures ForAnother(second, 0) && !EligibleOn(l, second, 0, 0)
  {
  }

  // `stolen` are the units the entries `done` have taken out of `slots0`.
  ghost predicate Stolen(l: Layout, slots0: Slots, slots: Slots, wtype: nat, done: seq<Entry>, stolen: seq<Unit>) {
    && (forall i, j :: 0 <= i < j < |stolen| ==> stolen[i] != stolen[j])
    && (forall u :: u in stolen ==> u in slots0.Values && u.wtype == wtype && (u.target < 0 || u.strictness.Soft?))
    && (forall s :: s in slots <==> s in slots0 && slots0[s] !in stolen)
    && (forall s :: s in slots ==> slots[s] == slots0[s])
    && (forall e :: e in done && Live(l, slots0, Untargeted(wtype), e) ==> slots0[e.slot] in stolen)
  }

  lemma NoneStolen(l: Layout, slots: Slots, wtype: nat)
    ensures Stolen(l, slots, slots, wtype, [], [])
  {
  }

  lemma StolenUnits(l: Layout, slots0: Slots, slots: Slots, wtype: nat, done: seq<Entry>, stolen: seq<Unit>)
    requires Stolen(l, slots0, slots, wtype, done, stolen)
    ensures forall i, j :: 0 <= i < j < |stolen| ==> stolen[i] != stolen[j]
    ensures forall u :: u in stolen ==> u in slots0.Values && u.wtype == wtype && (u.target < 0 || u.strictness.Soft?)
    ensures forall e :: e in done && Live(l, slots0, Untargeted(wtype), e) ==> slots0[e.slot] in stolen
  {
  }

  lemma PicksLeft(picks: seq<Entry>, i: nat, h: multiset<Entry>)
    requires i < |picks| && multiset(picks[i..]) <= h
    ensures picks[i] in h && multiset(picks[i + 1..]) <= h - multiset{picks[i]}
    ensures picks[..i + 1] == picks[..i] + [picks[i]]
  {
    assert picks[i..] == [picks[i]] + picks[i + 1..];
  }

  lemma StealNext(l: Layout, slots0: Slots, slots: Slots, wtype: nat, done: seq<Entry>, stolen: seq<Unit>, e: Entry)
    requires Stolen(l, slots0, slots, wtype, done, stolen)
    requires forall s, t :: s in slots0 && t in slots0 && slots0[s] == slots0[t] ==> s == t
    ensures Live(l, slots, Untargeted(wtype), e) ==>
              Stolen(l, slots0, slots - {e.slot}, wtype, done + [e], stolen + [slots[e.slot]])
    ensures !Live(l, slots, Untargeted(wtype), e) ==> Stolen(l, slots0, slots, wtype, done + [e], stolen)
  {
    hide SoftPriority, Neg;
  }

  lemma StolenStored(l: Layout, slots0: Slots, slots: Slots, wtype: nat, done: seq<Entry>, stolen: seq<Unit>)
    requires Stolen(l, slots0, slots, wtype, done, stolen)
    ensures forall u :: u in slots.Values <==> u in slots0.Values && u !in stolen
  {
    hide Live;
    forall u | u in slots0.Values && u !in stolen
      ensures u in slots.Values
    {
      var s :| s in slots0 && slots0[s] == u;
      assert slots[s] == u;
    }
  }

  lemma HostsStayEmpty(h: Heaps, h': Heaps)
    requires forall j, e :: e in HeapOf(h', j) ==> e in HeapOf(h, j)
    ensures (forall host, t :: HeapOf(h, ForHost(host, t)) == multiset{}) ==>
              forall host, t :: HeapOf(h', ForHost(host, t)) == multiset{}
  {
    hide HeapOf;
    if forall host, t :: HeapOf(h, ForHost(host, t)) == multiset{} {
      forall host, t
        ensures HeapOf(h', ForHost(host, t)) == multiset{}
      {
        forall e
          ensures e !in HeapOf(h', ForHost(host, t))
        {
          assert e !in HeapOf(h, ForHost(host, t));
        }
      }
    }
  }

  lemma {:induction false} LeastEntry(h: multiset<Entry>) returns (m: Entry)
    requires h != multiset{}
    ensures m in h && forall e :: e in h ==> m.key <= e.key
    decreases |h|
  {
    var x :| x in h;
    var rest := h - multiset{x};
    if rest == multiset{} {
      m := x;
      assert h == multiset{x};
    } else {
      m := LeastEntry(rest);
      if x.key < m.key { m := x; }
      forall e | e in h
        ensures m.key <= e.key
      {
        if e != x { assert e in rest; }
      }
    }
  }

  class WorkQueue {
    const layout: Layout
    var slots: Slots
    var heaps: Heaps
    ghost var added: set<Unit>
    ghost var left: set<Unit>

    ghost function Stored(): set<Unit>
      reads this
    {
      slots.Values
    }

    ghost predicate RankOnly()
      reads this
    {
      forall u :: u in added ==> u.accuracy.Rank?
    }

    // Each unit ever added is stored in one slot, or has left, never both.
    ghost predicate Ledger()
      reads this
    {
      && (forall s, t :: s in slots && t in slots && slots[s] == slots[t] ==> s == t)
      && Stored() !! left
      && Stored() + left == added
    }

    ghost predicate Valid()
      reads this
    {
      && Indexed(layout, slots, heaps)
      && Ledger()
      && (RankOnly() ==> forall host, t :: HeapOf(heaps, ForHost(host, t)) == multiset{})
      && (forall u :: u in added ==> Placed(layout, u))
    }

    constructor (layout: Layout)
      ensures Valid() && slots == map[] && heaps == map[] && added == {} && left == {}
      ensures this.layout == layout
    {
      this.layout := layout;
      slots, heaps, added, left := map[], map[], {}, {};
    }

    method AddEntry(ix: Index, e: Entry)
      modifies this`heaps
      ensures forall j, f :: f in HeapOf(heaps, j) <==> f in HeapOf(old(heaps), j) || (j == ix && f == e)
    {
      heaps := heaps[ix := HeapOf(heaps, ix) + multiset{e}];
    }

    // Enter a unit into its indices.
    method AddEntries(u: Unit, slot: nat)
      modifies this`heaps
      ensures EntriesAdded(layout, old(heaps), heaps, u, slot)
    {
      hide HeapOf, MapsHere, Neg, SoftPriority;
      if u.target >= 0 {
        if MapsHere(layout, u.target) {
          if u.accuracy.Rank? {
            AddEntry(ForRank(u.target, u.wtype), Entry(Neg(u.priority), slot));
          } else {
            AddEntry(ForHost(layout.hostOf(u.target), u.wtype), Entry(Neg(u.priority), slot));
          }
        }
        if u.strictness.Soft? {
          AddEntry(Untargeted(u.wtype), Entry(Neg(SoftPriority(u.priority)), slot));
        }
      } else {
        AddEntry(Untargeted(u.wtype), Entry(Neg(u.priority), slot));
      }
    }

    // Store a unit in a slot the array has free.
    method Add(u: Unit, slot: nat)
      requires Valid() && slot !in slots && u !in added
      requires Placed(layout, u)
      modifies this
      ensures Valid() && slots == old(slots)[slot := u]
      ensures added == old(added) + {u} && left == old(left)
      ensures EntriesAdded(layout, old(heaps), heaps, u, slot)
    {
      hide Indexed, EntriesAdded, HeapOf, Keys;
      AddEntries(u, slot);
      AddedIndexed(layout, slots, old(heaps), heaps, u, slot);
      slots := slots[slot := u];
      added := added + {u};
      ValuesWith(old(slots), slot, u);
    }

    // Pop entries of one index until one is live; returns its unit.
    method Pop(ix: Index) returns (r: Option<Unit>, ghost from: Entry)
      modifies this`slots, this`heaps
      ensures KeepsLive(layout, slots, old(heaps), heaps)
      ensures forall j, e :: e in HeapOf(heaps, j) ==> e in HeapOf(old(heaps), j)
      ensures r.None? ==> slots == old(slots) && NoneLive(layout, slots, old(heaps), ix)
      ensures r.Some? ==>
                && LeastLive(layout, old(slots), old(heaps), ix, from)
                && from.slot in old(slots) && r.value == old(slots)[from.slot] && slots == old(slots) - {from.slot}
    {
      hide Matches, HeapOf, KeepsLive;
      from := Entry(0, 0);
      while HeapOf(heaps, ix) != multiset{}
        invariant slots == old(slots)
        invariant StaleDropped(layout, slots, old(heaps), heaps, ix)
        decreases |HeapOf(heaps, ix)|
      {
        var h := HeapOf(heaps, ix);
        ghost var least := LeastEntry(h);
        var root :| root in h && forall e :: e in h ==> root.key <= e.key;
        ghost var h0 := heaps;
        heaps := heaps[ix := h - multiset{root}];
        if Live(layout, slots, ix, root) {
          DropLive(layout, slots, old(heaps), h0, ix, root);
          r, from := Some(slots[root.slot]), root;
          slots := slots - {root.slot};
          return;
        }
        DropStale(layout, slots, old(heaps), h0, ix, root);
        HeapOfUpdate(h0, ix, h - multiset{root});
      }
      AllDropped(layout, slots, old(heaps), heaps, ix);
      r := None;
    }

    // Take the best unit of one index out of the queue.
    method Take(ix: Index) returns (r: Option<Unit>, ghost from: Entry)
      requires Valid()
      modifies this`slots, this`heaps, this`left
      ensures Valid()
      ensures KeepsLive(layout, slots, old(heaps), heaps)
      ensures forall j, e :: e in HeapOf(heaps, j) ==> e in HeapOf(old(heaps), j)
      ensures r.None? ==> slots == old(slots) && left == old(left) && NoneLive(layout, slots, old(heaps), ix)
      ensures r.Some? ==>
                && LeastLive(layout, old(slots), old(heaps), ix, from)
                && from.slot in old(slots) && r.value == old(slots)[from.slot] && r.value in old(Stored())
                && slots == old(slots) - {from.slot}
                && Stored() == old(Stored()) - {r.value}
                && left == old(left) + {r.value}
    {
      hide Matches, Keys, KeepsLive, Indexed, HeapOf, NoneLive, LeastLive;
      r, from := Pop(ix);
      IndexedStays(layout, old(slots), slots, old(heaps), heaps);
      HostsStayEmpty(old(heaps), heaps);
      if r.Some? {
        ValuesWithout(old(slots), from.slot);
        assert r.value in old(slots).Values;
        left := left + {r.value};
      }
    }

    // The next unit for one of this server's workers.
    method Get(rank: int, wtype: nat) returns (r: Option<Unit>)
      requires Valid() && MapsHere(layout, rank)
      modifies this`slots, this`heaps, this`left
      ensures Valid()
      ensures r.None? ==> slots == old(slots) && left == old(left)
      ensures r.Some? ==> r.value in old(Stored()) && Stored() == old(Stored()) - {r.value}
                          && left == old(left) + {r.value}
      ensures IndexAnswer(layout, old(slots), old(heaps), rank, wtype, r)
      ensures MixedAnswer(layout, old(slots), old(heaps), rank, wtype, r)
      ensures r.Some? && !EligibleOn(layout, r.value, rank, wtype) ==>
                Misdirects(layout, old(slots), old(heaps), rank, wtype)
      ensures RankOnly() ==> RightAnswer(old(Stored()), rank, wtype, r)
    {
      hide Matches, Keys, KeepsLive, Indexed, HeapOf, Live, RightAnswer, MixedAnswer, NoneLive, LeastLive, Placed,
        EligibleOn, Misdirects;
      ghost var from;
      r, from := Take(ForRank(rank, wtype));
      if r.None? {
        ghost var h1 := heaps;
        SameLive(layout, slots, old(heaps), h1, ForHost(layout.hostOf(rank), wtype));
        SameLive(layout, slots, old(heaps), h1, Untargeted(wtype));
        r, from := Take(ForHost(layout.hostOf(rank), wtype));
        if r.None? {
          SameLive(layout, slots, h1, heaps, Untargeted(wtype));
          r, from := Take(Untargeted(wtype));
        }
      }
      MixedAnswers(layout, old(slots), old(heaps), rank, wtype, r);
      if r.Some? && !EligibleOn(layout, r.value, rank, wtype) {
        IneligibleMisdirects(layout, old(slots), old(heaps), rank, wtype, r.value);
      }
      if RankOnly() {
        AnswersAreRight(layout, old(slots), old(heaps), rank, wtype, r);
      }
    }

    // Remove one entry of a type's index, and its unit if the entry is live.
    method StealOne(wtype: nat, e: Entry) returns (r: Option<Unit>)
      requires Valid() && e in HeapOf(heaps, Untargeted(wtype))
      modifies this`slots, this`heaps, this`left
      ensures Valid()
      ensures heaps == old(heaps)[Untargeted(wtype) := HeapOf(old(heaps), Untargeted(wtype)) - multiset{e}]
      ensures r == if Live(layout, old(slots), Untargeted(wtype), e) then Some(old(slots)[e.slot]) else None
      ensures r.None? ==> slots == old(slots) && left == old(left)
      ensures r.Some? ==>
                && r.value in old(Stored()) && slots == old(slots) - {e.slot}
                && Stored() == old(Stored()) - {r.value} && left == old(left) + {r.value}
    {
      hide Matches, Keys, KeepsLive, Indexed, HeapOf, StaleDropped;
      var ix := Untargeted(wtype);
      ghost var h0 := heaps;
      heaps := heaps[ix := HeapOf(heaps, ix) - multiset{e}];
      NothingDropped(layout, slots, h0, ix);
      if Live(layout, slots, ix, e) {
        DropLive(layout, slots, h0, h0, ix, e);
        r := Some(slots[e.slot]);
        slots := slots - {e.slot};
        ValuesWithout(old(slots), e.slot);
        assert r.value in old(slots).Values;
        left := left + {r.value};
      } else {
        DropStale(layout, slots, h0, h0, ix, e);
        AllDropped(layout, slots, h0, heaps, ix);
        r := None;
      }
      IndexedStays(layout, old(slots), slots, h0, heaps);
      HostsStayEmpty(h0, heaps);
    }

    // Give away work of one type: `picks` are the entries the random draw hits,
    // in the order it hits them.
    method Steal(wtype: nat, picks: seq<Entry>) returns (stolen: seq<Unit>)
      requires Valid() && multiset(picks) <= HeapOf(heaps, Untargeted(wtype))
      modifies this`slots, this`heaps, this`left
      ensures Valid()
      ensures forall i, j :: 0 <= i < j < |stolen| ==> stolen[i] != stolen[j]
      ensures forall u :: u in stolen ==>
                            u in old(Stored()) && u.wtype == wtype && (u.target < 0 || u.strictness.Soft?)
      ensures forall u :: u in Stored() <==> u in old(Stored()) && u !in stolen
      ensures forall u :: u in left <==> u in old(left) || u in stolen
      ensures forall e :: e in picks && Live(layout, old(slots), Untargeted(wtype), e) ==> old(slots)[e.slot] in stolen
    {
      hide Keys, KeepsLive, Indexed, HeapOf, StaleDropped, Stolen, Live, Matches;
      stolen := [];
      NoneStolen(layout, slots, wtype);
      var i := 0;
      while i < |picks|
        invariant 0 <= i <= |picks|
        invariant Valid()
        invariant multiset(picks[i..]) <= HeapOf(heaps, Untargeted(wtype))
        invariant Stolen(layout, old(slots), slots, wtype, picks[..i], stolen)
        invariant forall u :: u in left <==> u in old(left) || u in stolen
      {
        var e := picks[i];
        ghost var h0 := heaps;
        PicksLeft(picks, i, HeapOf(h0, Untargeted(wtype)));
        StealNext(layout, old(slots), slots, wtype, picks[..i], stolen, e);
        var r := StealOne(wtype, e);
        HeapOfUpdate(h0, Untargeted(wtype), HeapOf(h0, Untargeted(wtype)) - multiset{e});
        if r.Some? {
          stolen := stolen + [r.value];
        }
        i := i + 1;
      }
      assert picks[..|picks|] == picks;
      StolenStored(layout, old(slots), slots, wtype, picks, stolen);
      StolenUnits(layout, old(slots), slots, wtype, picks, stolen);
    }
  }
}
