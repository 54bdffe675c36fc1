/**
  A condition on the store under which working notifications off goes through:
  no listed change and no value on its way is refused, however long the cascade.
 */
module Completion {
  import opened Options
  import opened Refcount
  import opened Values
  import opened DataStore
  import opened StoreOps
  import opened ClientOps
  import opened Cascade
  import opened StoreRuns
  import opened WorkedOff

  // A value for a datum kept here goes to its root and brings a write count.
  predicate Placed(refs: seq<RefSet>, local: int -> bool) {
    forall i :: 0 <= i < |refs| && local(refs[i].id) ==> refs[i].sub.None? && refs[i].writeDecr > 0
  }

  // No write counts are to be added to data kept here.
  predicate NoWritesAdded(cs: seq<Change>, local: int -> bool) {
    forall i :: 0 <= i < |cs| && local(cs[i].id) ==> cs[i].rc.w <= 0
  }

  /**
    Clients own what they have dropped, counts are added before any are taken,
    and every value on its way here is a scalar or reference for the root of an
    unset datum, with a write count to close it.
   */
  ghost predicate Settleable(s: State, local: int -> bool) {
    && Solvent(s, local) && Ordered(s, local) && Tidy(s, local)
    && Placed(s.refs, local) && NoWritesAdded(s.refcs, local)
  }

  lemma {:induction false} PendingWrites(cs: seq<Change>, local: int -> bool, x: int)
    requires NoWritesAdded(cs, local) && local(x)
    ensures Pending(cs, x, Write) <= 0
  {
    if cs != [] {
      assert forall i :: 0 <= i < |cs| - 1 ==> cs[1..][i] == cs[i + 1];
      PendingWrites(cs[1..], local, x);
    }
  }

  // The target of a value is there, unset, with the write counts the value drops.
  lemma TargetIsOpen(s: State, local: int -> bool, i: nat)
    requires Settleable(s, local) && i < |s.refs| && local(s.refs[i].id)
    ensures var r := s.refs[i];
            r.id in s.tds && s.tds[r.id].value.None? && s.tds[r.id].write >= r.writeDecr > 0
  {
    hide Cells, InFlight, Pending, Solvent, Ordered, KeysOk, LeafRefs, WritesOk, RootDemand;
    var x := s.refs[i].id;
    CountCovers(s, local, x, Write);
    PendingWrites(s.refcs, local, x);
    InFlightAtLeast(s.refs, x, Write);
    assert RootDemand(s, x) <= 1 && (RootDemand(s, x) == 1 && x in s.tds ==> s.tds[x].value.None?);
    RootDemandAtLeast(s, i);
  }

  // Storing a scalar or reference at the root of an unset datum, and dropping write counts it has.
  lemma RootSet(s: State, r: RefSet)
    requires Valid(s) && !r.value.Compound? && r.sub.None?
    requires r.id in s.tds && s.tds[r.id].value.None? && s.tds[r.id].write >= r.writeDecr > 0
    ensures SetRef(s, r).Done?
    ensures var s', n := SetRef(s, r).state, |s.refcs|;
            && s'.refs == s.refs && s'.sentChanges == s.sentChanges
            && s.refcs <= s'.refcs && OnlyTakes(s'.refcs[n..])
            && forall y :: Count(s'.tds, y, Read) == Count(s.tds, y, Read)
  {
    var drop := Refc(0, r.writeDecr);
    LeafAtRoot(s, r.id, r.value, r.read, r.write);
    AssignValid(s, r.id, None, r.value, r.read, r.write);
    var s1 := Assign(s, r.id, None, r.value, r.read, r.write).state;
    assert s1 == s.(tds := s.tds[r.id := s.tds[r.id].(value := Some(Stamp(r.value, r.read, r.write)))]);
    assert DrainAll(s1, r.id, []) == Some(s1);
    hide Assign, Items, Stamp, Valid;
    AllowedOnlyTakes(s1, r.id, Refc(-drop.r, -drop.w));
    RefcIncrFrame(s1, r.id, Refc(-drop.r, -drop.w), NO_ACQUIRE);
    hide RefcIncr;
    forall y
      ensures Count(SetRef(s, r).state.tds, y, Read) == Count(s.tds, y, Read)
    {
      CountsAfter(s1, r.id, Refc(-drop.r, -drop.w), y);
    }
  }

  lemma TakesNoWrites(cs: seq<Change>, ds: seq<Change>, local: int -> bool)
    requires NoWritesAdded(cs, local) && cs <= ds && OnlyTakes(ds[|cs|..])
    ensures NoWritesAdded(ds, local)
  {
    forall i | |cs| <= i < |ds|
      ensures ds[i].rc.w <= 0
    {
      assert ds[i] == ds[|cs|..][i - |cs|];
    }
  }

  // The lists of changes after a value has been stored.
  lemma SetKeepsOrder(s: State, s': State, local: int -> bool)
    requires Ordered(s, local) && NoWritesAdded(s.refcs, local)
    requires s'.sentChanges == s.sentChanges && s.refcs <= s'.refcs && OnlyTakes(s'.refcs[|s.refcs|..])
    requires forall y :: Count(s'.tds, y, Read) == Count(s.tds, y, Read)
    ensures Ordered(s', local) && NoWritesAdded(s'.refcs, local)
  {
    TakesNoWrites(s.refcs, s'.refcs, local);
    hide Count;
    StaysOrdered(s, s', local);
  }

  lemma TakenOffPlaced(refs: seq<RefSet>, i: nat, local: int -> bool)
    requires i < |refs| && Placed(refs, local)
    ensures Placed(TakenOff(refs, i), local)
  {
  }

  lemma TakenSettles(s: State, i: nat, local: int -> bool)
    requires Valid(s) && Settleable(s, local) && i < |s.refs| && local(s.refs[i].id)
    ensures RefTaken(s, i).Some?
    ensures var s' := RefTaken(s, i).value;
            Ordered(s', local) && Placed(s'.refs, local) && NoWritesAdded(s'.refcs, local)
  {
    TargetIsOpen(s, local, i);
    RootSet(s, s.refs[i]);
    hide SetRef, Valid, Solvent, Ordered, Tidy, Count;
    TakenOffPlaced(s.refs, i, local);
    SetKeepsOrder(s, RefTaken(s, i).value, local);
  }

  lemma FrontSettles(s: State, local: int -> bool)
    requires Valid(s) && Settleable(s, local) && s.refs != [] && local(s.refs[0].id)
    ensures FrontSet(s).Some?
    ensures var s' := FrontSet(s).value;
            Ordered(s', local) && Placed(s'.refs, local) && NoWritesAdded(s'.refcs, local)
  {
    TargetIsOpen(s, local, 0);
    assert Valid(WithoutFirst(s));
    RootSet(WithoutFirst(s), s.refs[0]);
    hide SetRef, Valid, Solvent, Ordered, Tidy, Count;
    assert forall i :: 0 <= i < |s.refs[1..]| ==> s.refs[1..][i] == s.refs[i + 1];
    SetKeepsOrder(s, FrontSet(s).value, local);
  }

  lemma ForwardedSettles(s: State, local: int -> bool)
    requires Settleable(s, local) && s.refs != []
    ensures var s' := FrontForwarded(s).value;
            Ordered(s', local) && Placed(s'.refs, local) && NoWritesAdded(s'.refcs, local)
  {
    hide Solvent, Tidy, Backed;
    assert forall i :: 0 <= i < |s.refs[1..]| ==> s.refs[1..][i] == s.refs[i + 1];
  }

  lemma ChangeKeepsWrites(s: State, op: Op, local: int -> bool, all: bool)
    requires Valid(s) && Settleable(s, local) && OnChanges(op) && Due(s, op, local, all) && Step(s, op).Some?
    ensures NoWritesAdded(Step(s, op).value.refcs, local) && Step(s, op).value.refs == s.refs
  {
    hide Solvent, Tidy, Ordered;
    match op
    case AppliesChange(i) =>
      var c := s.refcs[i];
      NextChangeAllowed(s, local, i);
      AllowedOnlyTakes(s, c.id, c.rc);
      RefcIncrFrame(s, c.id, c.rc, NO_ACQUIRE);
      hide RefcIncr, Valid;
      TakesNoWrites(s.refcs, RefcIncr(s, c.id, c.rc, NO_ACQUIRE).value.refcs, local);
    case SendsChange(_) =>
    case CompactsChanges =>
      NonzeroPending(s.refcs, 0, Read);
      forall i | 0 <= i < |Nonzero(s.refcs)| && local(Nonzero(s.refcs)[i].id)
        ensures Nonzero(s.refcs)[i].rc.w <= 0
      {
        assert Nonzero(s.refcs)[i] in s.refcs;
      }
    case _ =>
  }

  lemma StepGoesThrough(s: State, op: Op, local: int -> bool, all: bool)
    requires Inv(s) && Settleable(s, local) && Due(s, op, local, all)
    ensures Step(s, op).Some?
    ensures var s' := Step(s, op).value;
            Ordered(s', local) && Placed(s'.refs, local) && NoWritesAdded(s'.refcs, local)
  {
    InvValid(s);
    hide Inv, Valid, Solvent, Ordered, Tidy, Placed, NoWritesAdded, RefTaken, FrontSet, FrontForwarded, ChangeApplied,
      ChangeSent, Compacted;
    match op
    case SetsRef(i) => TakenSettles(s, i, local);
    case SetsFirstRef => FrontSettles(s, local);
    case ForwardsFirstRef =>
      ForwardedSettles(s, local);
      ForwardedSome(s);
    case _ =>
      ChangeStepOrdered(s, op, local, all);
      ChangeKeepsWrites(s, op, local, all);
  }

  lemma ForwardedSome(s: State)
    requires s.refs != []
    ensures FrontForwarded(s).Some?
  {
  }

  // Nothing a due step does takes counts of data kept here from clients.
  lemma StepStaysSolvent(s: State, op: Op, local: int -> bool, all: bool)
    requires Inv(s) && Settleable(s, local) && Due(s, op, local, all) && Step(s, op).Some?
    ensures Solvent(Step(s, op).value, local)
  {
    DueIsAdmissible(s, op, local, all);
    hide Inv, Step, HandedOver, Clients, Tidy, Ordered;
    forall x: int, k: Access | local(x)
      ensures Clients(Step(s, op).value, x, k) >= 0
    {
      assert Clients(s, x, k) >= 0;
      StepBalances(s, op, x, k);
      TidyStepIsExact(s, op, local, all, x, k);
    }
  }

  /** From such a state no run of due steps is refused, and it leads to such a state. */
  lemma {:induction false} WorkGoesThrough(s: State, ops: seq<Op>, local: int -> bool, all: bool)
    requires Inv(s) && Settleable(s, local) && WorkRun(s, ops, local, all)
    ensures RunFrom(s, ops).Some? && Inv(RunFrom(s, ops).value) && Settleable(RunFrom(s, ops).value, local)
    decreases |ops|
  {
    hide Inv, Due, Step, Solvent, Ordered, Tidy, Placed, NoWritesAdded;
    if ops != [] {
      var front, op := ops[..|ops| - 1], ops[|ops| - 1];
      WorkFront(s, ops, local, all);
      WorkGoesThrough(s, front, local, all);
      var t := RunFrom(s, front).value;
      DueIsAdmissible(t, op, local, all);
      StepGoesThrough(t, op, local, all);
      StepKeeps(t, op);
      StepStaysSolvent(t, op, local, all);
      TidyStepKeeps(t, op, local, all);
    }
  }
}
