/** The closed-inputs bit vector of a transform, eight inputs to a byte. */
module BitVector {

  function Size(n: nat): nat {
    if n == 0 then 0 else (n - 1) / 8 + 1
  }

  function Empty(n: nat): seq<bv8> {
    seq(Size(n), _ => 0)
  }

  predicate Get(v: seq<bv8>, i: nat)
    requires i / 8 < |v|
  {
    (v[i / 8] >> (i % 8)) & 1 == 1
  }

  function Set(v: seq<bv8>, i: nat): seq<bv8>
    requires i / 8 < |v|
  {
    v[i / 8 := v[i / 8] | (1 << (i % 8))]
  }

  lemma Fits(n: nat, i: nat)
    requires i < n
    ensures i / 8 < Size(n)
  {
  }

  // Setting bit a of a byte sets that bit and no other.
  lemma ByteSet(f: bv8, a: nat, b: nat)
    requires a < 8 && b < 8
    ensures (((f | (1 << a)) >> b) & 1 == 1) == (a == b || (f >> b) & 1 == 1)
  {
    ByteSetBv(f, a as bv8, b as bv8);
    assert (1 as bv8) << a == (1 as bv8) << (a as bv8);
  }

  lemma ByteSetBv(f: bv8, a: bv8, b: bv8)
    requires a < 8 && b < 8
    ensures (((f | (1 << a)) >> b) & 1 == 1) == (a == b || (f >> b) & 1 == 1)
  {
  }

  lemma SetGet(v: seq<bv8>, i: nat, j: nat)
    requires i / 8 < |v| && j / 8 < |v|
    ensures Get(Set(v, i), j) == (i == j || Get(v, j))
  {
    if i / 8 == j / 8 {
      ByteSet(v[i / 8], i % 8, j % 8);
    }
  }
}

/**
  What data-dependent scheduling means, without blocker lists, bit vectors or
  caches.  A waiting unit is known by its ticket (its position among all puts)
  and the set of inputs not yet known to be closed.
 */
module EngineSpec {

  datatype Input = Td(id: int) | TdSub(id: int, sub: string)

  type Waiting = map<nat, set<Input>>

  function Elems(inputs: seq<Input>): set<Input> {
    set x | x in inputs
  }

  function PutWaiting(w: Waiting, ticket: nat, open: set<Input>): Waiting {
    if open == {} then w else w[ticket := open]
  }

  // The units a close releases: those waiting for nothing else.
  function Released(w: Waiting, x: Input): set<nat> {
    set t | t in w && w[t] == {x}
  }

  function CloseWaiting(w: Waiting, x: Input): Waiting {
    map t | t in w && w[t] != {x} :: w[t] - {x}
  }

  /** Runs of puts and closes. */
  datatype Op = Put(inputs: seq<Input>, known: set<Input>) | Close(x: Input)

  datatype State = State(waiting: Waiting, next: nat)

  function Step(s: State, op: Op): State {
    match op
    case Put(inputs, known) => State(PutWaiting(s.waiting, s.next, Elems(inputs) - known), s.next + 1)
    case Close(x) => State(CloseWaiting(s.waiting, x), s.next)
  }

  function StepReleases(s: State, op: Op): set<nat> {
    match op
    case Put(inputs, known) => if Elems(inputs) <= known then {s.next} else {}
    case Close(x) => Released(s.waiting, x)
  }

  function After(ops: seq<Op>): State {
    if ops == [] then State(map[], 0) else Step(After(ops[..|ops| - 1]), ops[|ops| - 1])
  }

  // The tickets released by the j-th operation of a run.
  function ReleasedAt(ops: seq<Op>, j: nat): set<nat>
    requires j < |ops|
  {
    StepReleases(After(ops[..j]), ops[j])
  }

  // The inputs closed by operations lo..hi of a run.
  function ClosedIn(ops: seq<Op>, lo: nat, hi: nat): set<Input>
    requires lo <= hi <= |ops|
  {
    set k | lo <= k < hi && ops[k].Close? :: ops[k].x
  }

  // The inputs of the put at step i that are not known closed after step j.
  function StillOpen(ops: seq<Op>, i: nat, j: nat): set<Input>
    requires i <= j < |ops| && ops[i].Put?
  {
    Elems(ops[i].inputs) - ops[i].known - ClosedIn(ops, i + 1, j + 1)
  }

  lemma NothingLeft(need: set<Input>, known: set<Input>)
    ensures need - known == {} <==> need <= known
  {
    if need - known == {} {
      forall x | x in need
        ensures x in known
      {
        assert x !in need - known;
      }
    }
  }

  lemma ClosedInSnoc(ops: seq<Op>, lo: nat, hi: nat)
    requires lo <= hi < |ops|
    ensures ClosedIn(ops, lo, hi + 1) == ClosedIn(ops, lo, hi) + (if ops[hi].Close? then {ops[hi].x} else {})
  {
    if ops[hi].Close? {
      assert ops[hi].x in ClosedIn(ops, lo, hi + 1);
    }
    forall y | y in ClosedIn(ops, lo, hi)
      ensures y in ClosedIn(ops, lo, hi + 1)
    {
      var k :| lo <= k < hi && ops[k].Close? && ops[k].x == y;
      assert lo <= k < hi + 1;
    }
  }

  lemma {:induction false} TicketsBelowNext(ops: seq<Op>)
    ensures forall t :: t in After(ops).waiting ==> t < After(ops).next
  {
    if ops != [] {
      TicketsBelowNext(ops[..|ops| - 1]);
    }
  }

  lemma AfterSnoc(ops: seq<Op>, j: nat)
    requires j < |ops|
    ensures After(ops[..j + 1]) == Step(After(ops[..j]), ops[j])
  {
    assert ops[..j + 1][..j] == ops[..j];
  }

  // Between its put and its release a unit waits for exactly its open inputs.
  lemma {:induction false} WaitsForOpenInputs(ops: seq<Op>, i: nat, j: nat)
    requires i <= j < |ops| && ops[i].Put?
    ensures var t := After(ops[..i]).next;
            var w := After(ops[..j + 1]).waiting;
            && t < After(ops[..j + 1]).next
            && (t in w <==> StillOpen(ops, i, j) != {})
            && (t in w ==> w[t] == StillOpen(ops, i, j))
    decreases j
  {
    AfterSnoc(ops, j);
    TicketsBelowNext(ops[..j]);
    if i == j {
      hide After, CloseWaiting;
      assert ClosedIn(ops, i + 1, j + 1) == {};
    } else {
      WaitsForOpenInputs(ops, i, j - 1);
      ClosedInSnoc(ops, i + 1, j);
      var t := After(ops[..i]).next;
      StepWaits(After(ops[..j]), ops[j], t);
      hide After, Step, ClosedIn;
      var before, after := StillOpen(ops, i, j - 1), StillOpen(ops, i, j);
      if ops[j].Close? {
        assert after == before - {ops[j].x};
      } else {
        assert after == before;
      }
    }
  }

  // What a step does to a unit put earlier.
  lemma StepWaits(s: State, op: Op, t: nat)
    requires t < s.next
    ensures var w, w' := s.waiting, Step(s, op).waiting;
            && t < Step(s, op).next
            && (op.Put? ==> (t in w' <==> t in w) && (t in w ==> w'[t] == w[t]))
            && (op.Close? ==> (t in w' <==> t in w && w[t] != {op.x}) && (t in w' ==> w'[t] == w[t] - {op.x}))
  {
  }

  // Exactness over every run: the unit put at step i is released at step j if
  // and only if j is the first step after which all its inputs are known
  // closed.  So it is released once, never earlier, and never lost.
  lemma {:induction false} ReleasedExactlyWhenReady(ops: seq<Op>, i: nat, j: nat)
    requires i <= j < |ops| && ops[i].Put?
    ensures After(ops[..i]).next in ReleasedAt(ops, j)
            <==> StillOpen(ops, i, j) == {} && (j > i ==> StillOpen(ops, i, j - 1) != {})
  {
    TicketsBelowNext(ops[..j]);
    if i == j {
      assert ClosedIn(ops, i + 1, j + 1) == {};
      NothingLeft(Elems(ops[i].inputs), ops[i].known);
    } else {
      WaitsForOpenInputs(ops, i, j - 1);
      ClosedInSnoc(ops, i + 1, j);
    }
  }

  // Nothing is released at a step that is not some earlier put's unit.
  lemma {:induction false} OnlyPutUnitsAreReleased(ops: seq<Op>, j: nat, t: nat)
    requires j < |ops| && t in ReleasedAt(ops, j)
    ensures exists i :: 0 <= i <= j && ops[i].Put? && After(ops[..i]).next == t
  {
    if ops[j].Put? {
      assert After(ops[..j]).next == t;
    } else {
      var i := WaitingWasPut(ops, j, t);
    }
  }

  lemma {:induction false} WaitingWasPut(ops: seq<Op>, j: nat, t: nat) returns (i: nat)
    requires j <= |ops| && t in After(ops[..j]).waiting
    ensures i < j && ops[i].Put? && After(ops[..i]).next == t
    decreases j
  {
    AfterSnoc(ops, j - 1);
    if ops[j - 1].Put? && t == After(ops[..j - 1]).next {
      i := j - 1;
    } else {
      i := WaitingWasPut(ops, j - 1, t);
    }
  }
}

/**
  The data-dependency engine: transforms waiting on inputs, blocker lists per
  input, the set of subscribed inputs and the two closed caches.
 */
module Engine {
  import BitVector
  import ClosedCache
  import opened EngineSpec

  datatype Code = Success | Invalid

  const NULL_ID := 0

  // Inputs are the tds followed by the td/subscript pairs, in one index space.
  datatype Record = Record(inputs: seq<Input>, closed: seq<bv8>, blocker: nat)

  type Transform = T: Record |
      |T.closed| == BitVector.Size(|T.inputs|) && T.blocker <= |T.inputs|
    witness Record([], [], 0)

  function InputsOf(tds: seq<int>, subs: seq<(int, string)>): (r: seq<Input>)
    ensures |r| == |tds| + |subs|
  {
    seq(|tds|, i requires 0 <= i < |tds| => Td(tds[i])) +
    seq(|subs|, i requires 0 <= i < |subs| => TdSub(subs[i].0, subs[i].1))
  }

  predicate Closed(T: Transform, i: nat)
    requires i < |T.inputs|
  {
    BitVector.Fits(|T.inputs|, i);
    BitVector.Get(T.closed, i)
  }

  function Mark(T: Transform, i: nat): (r: Transform)
    requires i < |T.inputs|
    ensures r.inputs == T.inputs && r.blocker == T.blocker
    ensures forall j :: 0 <= j < |T.inputs| ==> Closed(r, j) == (i == j || Closed(T, j))
  {
    BitVector.Fits(|T.inputs|, i);
    var r := T.(closed := BitVector.Set(T.closed, i));
    assert forall j :: 0 <= j < |T.inputs| ==> Closed(r, j) == (i == j || Closed(T, j)) by {
      forall j | 0 <= j < |T.inputs|
        ensures Closed(r, j) == (i == j || Closed(T, j))
      {
        BitVector.Fits(|T.inputs|, j);
        BitVector.SetGet(T.closed, i, j);
      }
    }
    r
  }

  function Fresh(inputs: seq<Input>): (r: Transform)
    ensures r.inputs == inputs && r.blocker == 0
    ensures forall i :: 0 <= i < |inputs| ==> !Closed(r, i)
  {
    Record(inputs, BitVector.Empty(|inputs|), 0)
  }

  // The inputs a transform still waits for.
  function Open(T: Transform): set<Input>
  {
    set i | 0 <= i < |T.inputs| && !Closed(T, i) :: T.inputs[i]
  }

  // All occurrences of one input agree.
  ghost predicate Uniform(T: Transform)
  {
    forall i, j :: 0 <= i < |T.inputs| && 0 <= j < |T.inputs| && T.inputs[i] == T.inputs[j] ==>
                     Closed(T, i) == Closed(T, j)
  }

  ghost predicate Waits(T: Transform) {
    && Uniform(T)
    && T.blocker < |T.inputs| && !Closed(T, T.blocker)
    && forall i :: 0 <= i < T.blocker ==> Closed(T, i)
  }

  // Ascending, so several entries of one transform are adjacent.
  ghost predicate Ascending(l: seq<nat>) {
    forall i, j :: 0 <= i < j < |l| ==> l[i] <= l[j]
  }

  ghost predicate StrictlyAscending(l: seq<nat>) {
    forall i, j :: 0 <= i < j < |l| ==> l[i] < l[j]
  }

  lemma SnocAscending(l: seq<nat>, t: nat)
    requires StrictlyAscending(l) && forall u :: u in l ==> u < t
    ensures StrictlyAscending(l + [t])
  {
    assert forall i :: 0 <= i < |l| ==> l[i] in l;
  }

  ghost predicate Listed(blockers: map<Input, seq<nat>>, x: Input, t: nat) {
    x in blockers && t in blockers[x]
  }

  // `T1` is `T0` after input x was closed.
  ghost predicate Updated(T0: Transform, T1: Transform, x: Input)
  {
    && T1.inputs == T0.inputs
    && forall i :: 0 <= i < |T0.inputs| ==> Closed(T1, i) == (Closed(T0, i) || T0.inputs[i] == x)
  }

  lemma UpdatedOpen(T0: Transform, T1: Transform, x: Input)
    requires Uniform(T0) && Updated(T0, T1, x)
    ensures Uniform(T1) && Open(T1) == Open(T0) - {x}
  {
    forall y | y in Open(T0) - {x}
      ensures y in Open(T1)
    {
      var i :| 0 <= i < |T0.inputs| && !Closed(T0, i) && T0.inputs[i] == y;
      assert !Closed(T1, i);
    }
    forall y | y in Open(T1)
      ensures y in Open(T0) - {x}
    {
      var i :| 0 <= i < |T1.inputs| && !Closed(T1, i) && T1.inputs[i] == y;
      assert !Closed(T0, i);
    }
  }

  // Mark every occurrence of x from the blocker on.
  method MarkAll(T: Transform, x: Input) returns (T': Transform)
    requires Waits(T) && x in Open(T)
    ensures Updated(T, T', x) && T'.blocker == T.blocker
  {
    T' := T;
    var i := T.blocker;
    while i < |T.inputs|
      invariant T.blocker <= i <= |T.inputs|
      invariant T'.inputs == T.inputs && T'.blocker == T.blocker
      invariant forall j :: 0 <= j < |T.inputs| ==> Closed(T', j) == (Closed(T, j) || (j < i && T.inputs[j] == x))
    {
      if T.inputs[i] == x {
        T' := Mark(T', i);
      }
      i := i + 1;
    }
  }

  // Advance the blocker over closed inputs.
  method Progress(T: Transform) returns (T': Transform, subscribed: bool)
    requires forall i :: 0 <= i < T.blocker ==> Closed(T, i)
    ensures T'.inputs == T.inputs && Open(T') == Open(T)
    ensures subscribed <==> Open(T) != {}
    ensures subscribed && Uniform(T) ==> Waits(T')
  {
    var b := T.blocker;
    while b < |T.inputs| && Closed(T, b)
      invariant T.blocker <= b <= |T.inputs|
      invariant forall i :: 0 <= i < b ==> Closed(T, i)
    {
      b := b + 1;
    }
    T' := T.(blocker := b);
    assert forall i :: 0 <= i < |T.inputs| ==> Closed(T', i) == Closed(T, i);
    subscribed := b < |T.inputs|;
    if subscribed {
      assert T.inputs[b] in Open(T);
    }
  }

  method UpdateOne(T: Transform, x: Input) returns (T': Transform, subscribed: bool)
    requires Waits(T) && x in Open(T)
    ensures subscribed <==> Open(T) != {x}
    ensures subscribed ==> Waits(T') && Open(T') == Open(T) - {x}
  {
    var T1 := MarkAll(T, x);
    UpdatedOpen(T, T1, x);
    T', subscribed := Progress(T1);
  }

  ghost predicate HeapOk(h: map<nat, Transform>, next: nat) {
    forall t :: t in h ==> t < next && Waits(h[t])
  }

  // A transform is on an input's blocker list exactly while it waits for it.
  ghost predicate Linked(h: map<nat, Transform>, b: map<Input, seq<nat>>)
  {
    forall x, t :: Listed(b, x, t) <==> t in h && x in Open(h[t])
  }

  ghost function WaitingOf(h: map<nat, Transform>): Waiting
  {
    map t | t in h :: Open(h[t])
  }

  // `h` is `h0` after input x was closed in the transforms of l.
  ghost predicate ClosedFor(h0: map<nat, Transform>, h: map<nat, Transform>, l: seq<nat>, x: Input)
  {
    && (forall t :: t in h <==> t in h0 && (t in l ==> Open(h0[t]) != {x}))
    && (forall t :: t in h && t in l ==> Open(h[t]) == Open(h0[t]) - {x})
    && (forall t :: t in h && t !in l ==> h[t] == h0[t])
  }

  function WithBlocker(b: map<Input, seq<nat>>, x: Input, t: nat): map<Input, seq<nat>> {
    b[x := (if x in b then b[x] else []) + [t]]
  }

  ghost predicate ListsOk(b: map<Input, seq<nat>>, subscribed: set<Input>, next: nat) {
    && b.Keys <= subscribed
    && forall x :: x in b ==> Ascending(b[x]) && forall k :: 0 <= k < |b[x]| ==> b[x][k] < next
  }

  // `b` is `b0` with ticket t listed on those of the first i inputs not known closed.
  ghost predicate ListedUpTo(b0: map<Input, seq<nat>>, b: map<Input, seq<nat>>,
                             t: nat, inputs: seq<Input>, known: set<Input>, i: nat)
    requires i <= |inputs|
  {
    forall x, u :: Listed(b, x, u) <==> Listed(b0, x, u) || (u == t && x !in known && x in inputs[..i])
  }

  ghost predicate MarkedUpTo(T: Transform, inputs: seq<Input>, known: set<Input>, i: nat) {
    && T.inputs == inputs && T.blocker == 0
    && forall j :: 0 <= j < |inputs| ==> Closed(T, j) == (j < i && inputs[j] in known)
  }

  lemma NothingDone(b: map<Input, seq<nat>>, t: nat, inputs: seq<Input>, known: set<Input>)
    ensures MarkedUpTo(Fresh(inputs), inputs, known, 0)
    ensures ListedUpTo(b, b, t, inputs, known, 0)
  {
  }

  lemma ListNext(b0: map<Input, seq<nat>>, b: map<Input, seq<nat>>,
                 t: nat, inputs: seq<Input>, known: set<Input>, i: nat)
    requires i < |inputs| && ListedUpTo(b0, b, t, inputs, known, i)
    ensures inputs[i] in known ==> ListedUpTo(b0, b, t, inputs, known, i + 1)
    ensures inputs[i] !in known ==> ListedUpTo(b0, WithBlocker(b, inputs[i], t), t, inputs, known, i + 1)
  {
    assert inputs[..i + 1] == inputs[..i] + [inputs[i]];
    if inputs[i] !in known {
      var b' := WithBlocker(b, inputs[i], t);
      assert forall x, u :: Listed(b', x, u) <==> Listed(b, x, u) || (x == inputs[i] && u == t);
    }
  }

  lemma ListsOkNext(b: map<Input, seq<nat>>, subscribed: set<Input>, x: Input, t: nat)
    requires ListsOk(b, subscribed, t + 1)
    ensures ListsOk(WithBlocker(b, x, t), subscribed + {x}, t + 1)
  {
  }

  lemma MarkNext(T: Transform, inputs: seq<Input>, known: set<Input>, i: nat)
    requires i < |inputs| && MarkedUpTo(T, inputs, known, i)
    ensures T.inputs == inputs
    ensures inputs[i] in known ==> MarkedUpTo(Mark(T, i), inputs, known, i + 1)
    ensures inputs[i] !in known ==> MarkedUpTo(T, inputs, known, i + 1)
  {
  }

  lemma MarkedOpen(T: Transform, inputs: seq<Input>, known: set<Input>)
    requires MarkedUpTo(T, inputs, known, |inputs|)
    ensures T.blocker == 0 && Uniform(T) && Open(T) == Elems(inputs) - known
  {
    forall x | x in Elems(inputs) - known
      ensures x in Open(T)
    {
      var j :| 0 <= j < |inputs| && inputs[j] == x;
      assert !Closed(T, j);
    }
  }

  lemma PutLinks(h: map<nat, Transform>, b0: map<Input, seq<nat>>, b: map<Input, seq<nat>>,
                 t: nat, T: Transform, inputs: seq<Input>, known: set<Input>)
    requires HeapOk(h, t) && Linked(h, b0)
    requires Open(T) == Elems(inputs) - known
    requires ListedUpTo(b0, b, t, inputs, known, |inputs|)
    ensures Open(T) == {} ==> Linked(h, b)
    ensures Open(T) != {} ==> Linked(h[t := T], b) && WaitingOf(h[t := T]) == WaitingOf(h)[t := Open(T)]
  {
    assert inputs[..|inputs|] == inputs;
    if Open(T) == {} {
      forall x, u
        ensures Listed(b, x, u) <==> u in h && x in Open(h[u])
      {
        assert x !in Elems(inputs) - known;
      }
    }
  }

  lemma HeapOkWith(h: map<nat, Transform>, t: nat, T: Transform)
    requires HeapOk(h, t + 1) && Waits(T)
    ensures HeapOk(h[t := T], t + 1)
  {
  }

  // One more transform of the list has been dealt with.
  lemma CloseNext(h0: map<nat, Transform>, h: map<nat, Transform>, l: seq<nat>, t: nat, T: Transform, x: Input)
    requires ClosedFor(h0, h, l, x) && t !in l && t in h0
    ensures Open(h0[t]) == {x} ==> ClosedFor(h0, h - {t}, l + [t], x)
    ensures Open(h0[t]) != {x} && Open(T) == Open(h0[t]) - {x} ==> ClosedFor(h0, h[t := T], l + [t], x)
  {
  }

  lemma NoneClosed(h: map<nat, Transform>, x: Input)
    ensures ClosedFor(h, h, [], x)
  {
  }

  lemma ListsOkWithout(b: map<Input, seq<nat>>, subscribed: set<Input>, next: nat, x: Input)
    requires ListsOk(b, subscribed, next)
    ensures ListsOk(b - {x}, subscribed - {x}, next)
    ensures x in b ==> Ascending(b[x])
  {
  }

  lemma ListedWait(h: map<nat, Transform>, b: map<Input, seq<nat>>, x: Input)
    requires Linked(h, b)
    ensures x in b ==> forall t :: t in b[x] ==> t in h && x in Open(h[t])
  {
    if x in b {
      assert forall t :: t in b[x] ==> Listed(b, x, t);
    }
  }

  lemma NextGrows(h: map<nat, Transform>, b: map<Input, seq<nat>>, subscribed: set<Input>, next: nat)
    requires HeapOk(h, next) && ListsOk(b, subscribed, next)
    ensures HeapOk(h, next + 1) && ListsOk(b, subscribed, next + 1)
  {
  }

  lemma CloseAgain(h0: map<nat, Transform>, h: map<nat, Transform>, l: seq<nat>, t: nat, x: Input)
    requires ClosedFor(h0, h, l, x) && t in l
    ensures ClosedFor(h0, h, l + [t], x)
  {
    assert forall u :: u in l + [t] <==> u in l;
  }

  lemma Untouched(h0: map<nat, Transform>, h: map<nat, Transform>, l: seq<nat>, t: nat, x: Input)
    requires ClosedFor(h0, h, l, x) && t !in l && t in h0
    ensures t in h && h[t] == h0[t]
  {
  }

  lemma CloseOpens(h0: map<nat, Transform>, h: map<nat, Transform>, b: map<Input, seq<nat>>, x: Input)
    requires Linked(h0, b)
    requires ClosedFor(h0, h, if x in b then b[x] else [], x)
    ensures forall t :: t in h <==> t in h0 && Open(h0[t]) != {x}
    ensures forall t :: t in h ==> Open(h[t]) == Open(h0[t]) - {x}
  {
    var l := if x in b then b[x] else [];
    forall t | t in h0
      ensures t in l <==> x in Open(h0[t])
    {
      assert Listed(b, x, t) <==> t in l;
    }
  }

  lemma CloseLinks(h0: map<nat, Transform>, h: map<nat, Transform>, b: map<Input, seq<nat>>, x: Input)
    requires Linked(h0, b)
    requires ClosedFor(h0, h, if x in b then b[x] else [], x)
    ensures Linked(h, b - {x})
    ensures WaitingOf(h) == CloseWaiting(WaitingOf(h0), x)
    ensures forall t :: t in Released(WaitingOf(h0), x) <==> t in h0 && Open(h0[t]) == {x}
    ensures forall t :: t in Released(WaitingOf(h0), x) ==> Listed(b, x, t)
  {
    hide Open, ClosedFor;
    CloseOpens(h0, h, b, x);
    forall y, t
      ensures Listed(b - {x}, y, t) <==> t in h && y in Open(h[t])
    {
      assert Listed(b - {x}, y, t) <==> y != x && Listed(b, y, t);
      if t in h0 && y != x && y in Open(h0[t]) {
        assert Open(h0[t]) != {x};
      }
    }
  }

  // The state is the one this history leads to.
  ghost predicate Recorded(history: seq<Op>, w: Waiting, next: nat) {
    After(history) == State(w, next)
  }

  lemma RecordPut(history: seq<Op>, w: Waiting, next: nat, inputs: seq<Input>, known: set<Input>)
    requires Recorded(history, w, next)
    ensures var longer := history + [Op.Put(inputs, known)];
            && Recorded(longer, PutWaiting(w, next, Elems(inputs) - known), next + 1)
            && (next in ReleasedAt(longer, |history|) <==> Elems(inputs) <= known)
  {
    assert (history + [Op.Put(inputs, known)])[..|history|] == history;
  }

  lemma RecordClose(history: seq<Op>, w: Waiting, next: nat, x: Input)
    requires Recorded(history, w, next)
    ensures var longer := history + [Op.Close(x)];
            && Recorded(longer, CloseWaiting(w, x), next)
            && ReleasedAt(longer, |history|) == Released(w, x)
  {
    assert (history + [Op.Close(x)])[..|history|] == history;
  }

  class Engine {
    const isLocal: int -> bool
    var next: nat
    var heap: map<nat, Transform>
    var blockers: map<Input, seq<nat>>
    var subscribed: set<Input>
    const idCache: ClosedCache.Cache<Input>
    const subCache: ClosedCache.Cache<Input>
    ghost var closedEver: set<Input>

    // The puts and closes so far.
    ghost var history: seq<Op>

    function Cached(): set<Input>
      reads idCache, subCache
    {
      idCache.table + subCache.table
    }

    ghost predicate CachesValid()
      reads this`subscribed, this`closedEver, idCache, subCache
    {
      && idCache != subCache && idCache.Valid() && subCache.Valid()
      && (forall x :: x in idCache.table ==> x.Td?)
      && (forall x :: x in subCache.table ==> x.TdSub?)
      && Cached() !! subscribed
      && (forall x :: x in Cached() ==> x in closedEver && !isLocal(x.id))
    }

    ghost predicate Core()
      reads this, idCache, subCache
    {
      && CachesValid()
      && HeapOk(heap, next)
      && ListsOk(blockers, subscribed, next)
      && Linked(heap, blockers)
    }

    ghost predicate Valid()
      reads this, idCache, subCache
    {
      Core() && Recorded(history, Waiting(), next)
    }

    ghost function Waiting(): Waiting
      reads this
      requires HeapOk(heap, next)
    {
      WaitingOf(heap)
    }

    // An input a put finds closed: by the local store, or by a cache hit.
    ghost predicate IsKnown(x: Input, closedLocal: set<Input>)
      reads this`subscribed, idCache, subCache
    {
      x !in subscribed && if isLocal(x.id) then x in closedLocal else x in Cached()
    }

    ghost function Known(inputs: seq<Input>, closedLocal: set<Input>): set<Input>
      reads this`subscribed, idCache, subCache
    {
      set x | x in inputs && IsKnown(x, closedLocal)
    }

    constructor (isLocal: int -> bool, cacheSize: nat)
      requires cacheSize >= 1
      ensures Valid() && Waiting() == map[] && next == 0 && history == []
      ensures fresh(idCache) && fresh(subCache)
    {
      this.isLocal := isLocal;
      next, heap, blockers, subscribed := 0, map[], map[], {};
      idCache := new ClosedCache.Cache(cacheSize);
      subCache := new ClosedCache.Cache(cacheSize);
      closedEver, history := {}, [];
    }

    method Subscribe(x: Input, closedLocal: set<Input>) returns (code: Code, subbed: bool)
      requires CachesValid()
      modifies this`subscribed, idCache, subCache
      ensures code.Success? <==> x.id != NULL_ID
      ensures code.Success? ==> CachesValid()
      ensures Cached() == old(Cached())
      ensures code.Success? ==> (subbed <==> !old(IsKnown(x, closedLocal)))
      ensures code.Success? ==> subscribed == if subbed then old(subscribed) + {x} else old(subscribed)
    {
      if x.id == NULL_ID {
        return Invalid, false;
      }
      code := Success;
      if x in subscribed {
        subbed := true;
      } else {
        if isLocal(x.id) {
          subbed := x !in closedLocal;
        } else {
          var hit;
          if x.Td? {
            hit := idCache.Check(x);
          } else {
            hit := subCache.Check(x);
          }
          subbed := !hit;
        }
        if subbed {
          subscribed := subscribed + {x};
        }
      }
    }

    method AddBlocker(x: Input, t: nat)
      modifies this`blockers
      ensures blockers == WithBlocker(old(blockers), x, t)
    {
      if x !in blockers {
        blockers := blockers[x := []];
      }
      blockers := blockers[x := blockers[x] + [t]];
    }

    // Subscribe to every input, listing ticket t on each that is still open.
    method InitInputs(t: nat, inputs: seq<Input>, closedLocal: set<Input>) returns (code: Code, T: Transform)
      requires CachesValid() && ListsOk(blockers, subscribed, t + 1)
      modifies this`subscribed, this`blockers, idCache, subCache
      ensures code.Success? <==> forall j :: 0 <= j < |inputs| ==> inputs[j].id != NULL_ID
      ensures code.Success? ==> CachesValid() && ListsOk(blockers, subscribed, t + 1)
      ensures code.Success? ==> MarkedUpTo(T, inputs, old(Known(inputs, closedLocal)), |inputs|)
      ensures code.Success? ==> ListedUpTo(old(blockers), blockers, t, inputs, old(Known(inputs, closedLocal)), |inputs|)
    {
      hide MarkedUpTo, ListedUpTo, ListsOk, Mark, Fresh, WithBlocker, Closed;
      ghost var known := Known(inputs, closedLocal);
      code := Success;
      T := Fresh(inputs);
      NothingDone(blockers, t, inputs, known);
      var i := 0;
      while i < |inputs|
        invariant 0 <= i <= |inputs|
        invariant code.Success?
        invariant forall j :: 0 <= j < i ==> inputs[j].id != NULL_ID
        invariant CachesValid() && Cached() == old(Cached())
        invariant forall x :: x in subscribed <==> x in old(subscribed) || (x in inputs[..i] && x !in known)
        invariant MarkedUpTo(T, inputs, known, i)
        invariant ListsOk(blockers, subscribed, t + 1)
        invariant ListedUpTo(old(blockers), blockers, t, inputs, known, i)
      {
        var subbed;
        var x := inputs[i];
        ghost var before := subscribed;
        code, subbed := Subscribe(x, closedLocal);
        if code.Invalid? {
          return;
        }
        assert subbed <==> x !in known;
        assert inputs[..i + 1] == inputs[..i] + [x];
        ListNext(old(blockers), blockers, t, inputs, known, i);
        MarkNext(T, inputs, known, i);
        ListsOkNext(blockers, before, x, t);
        if subbed {
          AddBlocker(x, t);
        } else {
          T := Mark(T, i);
        }
        i := i + 1;
      }
    }

    method PutUnit(tds: seq<int>, subs: seq<(int, string)>, closedLocal: set<Input>)
      returns (code: Code, ready: bool)
      requires Core()
      modifies this`next, this`heap, this`blockers, this`subscribed, idCache, subCache
      ensures code.Success? <==> forall i :: 0 <= i < |tds| + |subs| ==> InputsOf(tds, subs)[i].id != NULL_ID
      ensures code.Success? ==> Core() && next == old(next) + 1 && closedEver == old(closedEver)
      ensures code.Success? ==>
                var inputs := InputsOf(tds, subs);
                var known := old(Known(inputs, closedLocal));
                && (ready <==> Elems(inputs) <= known)
                && Waiting() == PutWaiting(old(Waiting()), old(next), Elems(inputs) - known)
                && known <= closedLocal + closedEver
    {
      hide Closed, ListedUpTo, MarkedUpTo, ListsOk, Linked, Open, Waits, Uniform, WaitingOf, InputsOf, HeapOk;
      var inputs := InputsOf(tds, subs);
      ghost var known := Known(inputs, closedLocal);
      var t := next;
      next := next + 1;
      var T, subbed;
      NextGrows(heap, blockers, subscribed, t);
      code, T := InitInputs(t, inputs, closedLocal);
      if code.Invalid? {
        return code, false;
      }
      MarkedOpen(T, inputs, known);
      NothingLeft(Elems(inputs), known);
      T, subbed := Progress(T);
      PutLinks(heap, old(blockers), blockers, t, T, inputs, known);
      if subbed {
        HeapOkWith(heap, t, T);
        heap := heap[t := T];
      }
      ready := !subbed;
    }

    // Register a data-dependent unit; `ready` means it need not wait.
    method Put(tds: seq<int>, subs: seq<(int, string)>, closedLocal: set<Input>)
      returns (code: Code, ready: bool)
      requires Valid()
      modifies this, idCache, subCache
      ensures code.Success? <==> forall i :: 0 <= i < |tds| + |subs| ==> InputsOf(tds, subs)[i].id != NULL_ID
      ensures code.Success? ==> Valid() && next == old(next) + 1 && closedEver == old(closedEver)
      ensures code.Success? ==>
                var inputs := InputsOf(tds, subs);
                var known := old(Known(inputs, closedLocal));
                && (ready <==> Elems(inputs) <= known)
                && Waiting() == PutWaiting(old(Waiting()), old(next), Elems(inputs) - known)
                && known <= closedLocal + closedEver
                && history == old(history) + [Op.Put(inputs, known)]
                && (ready <==> old(next) in ReleasedAt(history, |old(history)|))
    {
      hide HeapOk, ListsOk, Linked, Engine.CachesValid, WaitingOf, InputsOf, Recorded, ReleasedAt;
      ghost var inputs := InputsOf(tds, subs);
      ghost var w, t, known := Waiting(), next, Known(inputs, closedLocal);
      code, ready := PutUnit(tds, subs, closedLocal);
      if code.Success? {
        RecordPut(history, w, t, inputs, known);
        history := history + [Op.Put(inputs, known)];
      }
    }

    // Close x in every transform of its former blocker list, in list order,
    // collecting those that became ready.
    method CloseUpdate(l: seq<nat>, x: Input) returns (ready: seq<nat>)
      requires HeapOk(heap, next) && Ascending(l)
      requires forall t :: t in l ==> t in heap && x in Open(heap[t])
      modifies this`heap
      ensures HeapOk(heap, next) && ClosedFor(old(heap), heap, l, x)
      ensures StrictlyAscending(ready)
      ensures forall t :: t in ready <==> t in l && Open(old(heap)[t]) == {x}
    {
      hide Closed, Open, ClosedFor, Waits, Updated, Uniform;
      NoneClosed(heap, x);
      ready := [];
      var k := 0;
      while k < |l|
        invariant 0 <= k <= |l|
        invariant HeapOk(heap, next) && ClosedFor(old(heap), heap, l[..k], x)
        invariant StrictlyAscending(ready)
        invariant forall t :: t in ready <==> t in l[..k] && Open(old(heap)[t]) == {x}
      {
        var t := l[k];
        assert l[..k + 1] == l[..k] + [t];
        if k > 0 && t == l[k - 1] {
          assert t in l[..k];
          CloseAgain(old(heap), heap, l[..k], t, x);
        } else {
          assert forall u :: u in l[..k] ==> u < t;
          SnocAscending(ready, t);
          Untouched(old(heap), heap, l[..k], t, x);
          var T, subbed := UpdateOne(heap[t], x);
          CloseNext(old(heap), heap, l[..k], t, T, x);
          if subbed {
            heap := heap[t := T];
          } else {
            heap := heap - {t};
            ready := ready + [t];
          }
        }
        k := k + 1;
      }
      assert l[..|l|] == l;
    }

    // No longer subscribed to x; remember it was closed if it is remote.
    method Unsubscribe(x: Input, remote: bool)
      requires CachesValid() && x in subscribed && (remote ==> !isLocal(x.id))
      modifies this`subscribed, this`closedEver, idCache, subCache
      ensures CachesValid()
      ensures subscribed == old(subscribed) - {x} && closedEver == old(closedEver) + {x}
      ensures remote ==> x in Cached()
    {
      subscribed := subscribed - {x};
      closedEver := closedEver + {x};
      if remote {
        if x.Td? {
          idCache.Add(x);
        } else {
          subCache.Add(x);
        }
      }
    }

    method CloseUnits(x: Input, remote: bool) returns (ready: seq<nat>)
      requires Core() && x in subscribed && (remote ==> !isLocal(x.id))
      modifies this`heap, this`blockers, this`subscribed, this`closedEver, idCache, subCache
      ensures Core() && next == old(next) && closedEver == old(closedEver) + {x}
      ensures subscribed == old(subscribed) - {x}
      ensures remote ==> x in Cached()
      ensures Waiting() == CloseWaiting(old(Waiting()), x)
      ensures StrictlyAscending(ready)
      ensures forall t :: t in ready <==> t in Released(old(Waiting()), x)
    {
      hide Closed, ClosedFor, Open, Waits, WaitingOf, CloseWaiting, Linked, ListsOk, HeapOk, Released;
      ghost var b0 := blockers;
      ListsOkWithout(blockers, subscribed, next, x);
      ListedWait(heap, blockers, x);
      Unsubscribe(x, remote);
      if x !in blockers {
        ready := [];
        NoneClosed(heap, x);
        assert b0 - {x} == b0;
      } else {
        var l := blockers[x];
        blockers := blockers - {x};
        ready := CloseUpdate(l, x);
      }
      CloseLinks(old(heap), heap, b0, x);
    }

    // x was closed: stop waiting for it and release what waited for nothing else.
    method Close(x: Input, remote: bool) returns (ready: seq<nat>)
      requires Valid() && x in subscribed && (remote ==> !isLocal(x.id))
      modifies this, idCache, subCache
      ensures Valid() && next == old(next) && closedEver == old(closedEver) + {x}
      ensures subscribed == old(subscribed) - {x}
      ensures remote ==> x in Cached()
      ensures Waiting() == CloseWaiting(old(Waiting()), x)
      ensures StrictlyAscending(ready)
      ensures forall t :: t in ready <==> t in Released(old(Waiting()), x)
      ensures history == old(history) + [Op.Close(x)]
      ensures forall t :: t in ready <==> t in ReleasedAt(history, |old(history)|)
    {
      hide HeapOk, ListsOk, Linked, Engine.CachesValid, WaitingOf, Recorded, ReleasedAt, Released, CloseWaiting;
      ghost var w := Waiting();
      ready := CloseUnits(x, remote);
      RecordClose(history, w, next, x);
      history := history + [Op.Close(x)];
    }

    /**
      What the class does is what the runs of `EngineSpec` do: the unit put at
      step i of its history was released at step j exactly when that was the first
      step after which its inputs were known closed, and waits now exactly if none was.
     */
    lemma HistoryIsExact(i: nat, j: nat)
      requires Valid() && i <= j < |history| && history[i].Put?
      ensures var t := After(history[..i]).next;
              && (t in ReleasedAt(history, j) <==>
                    StillOpen(history, i, j) == {} && (j > i ==> StillOpen(history, i, j - 1) != {}))
              && (t in Waiting() <==> StillOpen(history, i, |history| - 1) != {})
              && (t in Waiting() ==> Waiting()[t] == StillOpen(history, i, |history| - 1))
    {
      hide HeapOk, ListsOk, Linked, WaitingOf;
      ReleasedExactlyWhenReady(history, i, j);
      WaitsForOpenInputs(history, i, |history| - 1);
      assert history[..|history|] == history;
    }
  }
}
