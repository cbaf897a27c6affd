/**
 The whole execution plan of one read, booked together: what the executor's orders do to the book the plan was made on. The
 executor leaves out what a mute shape stands beside and books every pair at the whole of its smaller live leg, so its orders
 are a plan of their own; where that plan takes a leg past flat, and how far, is decided by the planned quantities.
 */
module ContraExecuted {
  import opened Prelude
  import opened Netting
  import opened ContraClose
  import opened ContraFlatten
  import opened ContraPlanProofs
  import opened ContraWholeBook
  import opened ContraExecute
  import opened ContraExecuteProofs
  import opened ContraFresh

  // ---- what survives of a plan ---------------------------------------------------------------

  /** The pair at the whole of its smaller leg. */
  function Wholly(pair: ContraPair): ContraPair {
    pair.(quantity := Min(Abs(pair.longQty), Abs(pair.shortQty)))
  }

  predicate MutePair(r: Read, pair: ContraPair) {
    || (pair.instrument, pair.longStrategy) in MuteKeys(r.positions)
    || (pair.instrument, pair.shortStrategy) in MuteKeys(r.positions)
  }

  predicate MuteIn(r: Read, instrument: string) {
    MuteOn(Unchanged(r), instrument)
  }

  function Executable(r: Read, pairs: seq<ContraPair>): seq<ContraPair> {
    if pairs == [] then []
    else (if MutePair(r, pairs[0]) then [] else [Wholly(pairs[0])]) + Executable(r, pairs[1..])
  }

  function KeptEvictions(r: Read, evictions: seq<Eviction>): seq<Eviction> {
    if evictions == [] then []
    else
      var n := |evictions| - 1;
      KeptEvictions(r, evictions[..n]) + (if MuteIn(r, evictions[n].instrument) then [] else [evictions[n]])
  }

  function KeptSurplus(r: Read, surplus: seq<SurplusEviction>): seq<SurplusEviction> {
    if surplus == [] then []
    else
      var n := |surplus| - 1;
      KeptSurplus(r, surplus[..n]) + (if MuteIn(r, surplus[n].instrument) then [] else [surplus[n]])
  }

  /** The plan as the executor books it on the book it was made on. */
  function Surviving(r: Read, plan: ContraPlan): ContraPlan {
    ContraPlan(Executable(r, plan.pairs), plan.refused, KeptEvictions(r, plan.evictions), KeptSurplus(r, plan.surplus))
  }

  lemma {:induction false} ExecutableConcat(r: Read, a: seq<ContraPair>, b: seq<ContraPair>)
    ensures Executable(r, a + b) == Executable(r, a) + Executable(r, b)
  {
    if a == [] {
      assert a + b == b;
    } else {
      assert (a + b)[1..] == a[1..] + b;
      ExecutableConcat(r, a[1..], b);
    }
  }

  // ---- the executor's orders -----------------------------------------------------------------

  /** The planned quantity of a pair has no part in what the executor decides. */
  lemma {:induction false} DecideIgnoresQuantity(f: Fresh, pair: ContraPair)
    ensures DecidePair(f, pair) == DecidePair(f, Wholly(pair))
  {
  }

  lemma {:induction false} PlannedPairExecutes(r: Read, pair: ContraPair)
    requires NettingBook(r.positions)
    requires OutcomeAt(r, pair.instrument).Paired? && pair in OutcomeAt(r, pair.instrument).pairs
    ensures DecidePair(Unchanged(r), pair).Ok? <==> !MutePair(r, pair)
    ensures DecidePair(Unchanged(r), pair).Ok? ==> DecidePair(Unchanged(r), pair).value.legs == Wholly(pair).Legs()
  {
    hide DecidePair, OutcomeAt, NettingBook;
    var long, short := PlannedPair(r, pair.instrument, pair);
    LegsOfMembers(r.positions, pair.instrument);
    DecideIgnoresQuantity(Unchanged(r), pair);
    PairAgrees(r, pair.instrument, long, short, Min(Abs(long.Signed()), Abs(short.Signed())));
  }

  /** The pairs, evictions and surplus evictions are those of their instruments' own outcomes. */
  ghost predicate FromOutcomes(r: Read, plan: ContraPlan) {
    && (forall x :: x in plan.pairs ==> OutcomeAt(r, x.instrument).Paired? && x in OutcomeAt(r, x.instrument).pairs)
    && (forall x :: x in plan.evictions ==> OutcomeAt(r, x.instrument) == Evicted(x))
    && (forall x :: x in plan.surplus ==> OutcomeAt(r, x.instrument) == SurplusEvicted(x))
  }

  lemma {:induction false} PrefixFromOutcomes(r: Read, instruments: seq<string>)
    requires forall i :: i in instruments ==> i in OpenInstruments(r.positions)
    ensures FromOutcomes(r, PlanPrefix(r, instruments))
    decreases |instruments|
  {
    hide PlanInstrument;
    if instruments != [] {
      var n := |instruments| - 1;
      var i := instruments[n];
      assert instruments == instruments[..n] + [i];
      PrefixFromOutcomes(r, instruments[..n]);
      if i !in Blocked(r.positions) {
        OutcomeInstrument(r, i);
        assert OutcomeAt(r, i) == Decision(r, i);
      }
    }
  }

  lemma {:induction false} PlanFromOutcomes(r: Read)
    ensures FromOutcomes(r, PlanOf(r))
  {
    hide PlanInstrument, Sort;
    SortMembers(OpenInstruments(r.positions), StrLe);
    PrefixFromOutcomes(r, Sort(OpenInstruments(r.positions), StrLe));
  }

  lemma {:induction false} PairsExecuted(r: Read, pairs: seq<ContraPair>)
    requires NettingBook(r.positions)
    requires forall x :: x in pairs ==> OutcomeAt(r, x.instrument).Paired? && x in OutcomeAt(r, x.instrument).pairs
    ensures OrderLegs(OverPairs(Unchanged(r), pairs).orders) == PairLegs(Executable(r, pairs))
    decreases |pairs|
  {
    hide DecidePair, OutcomeAt, NettingBook, Unchanged, MutePair;
    if pairs != [] {
      var n := |pairs| - 1;
      var f, x := Unchanged(r), pairs[n];
      assert pairs == pairs[..n] + [x];
      assert forall y :: y in pairs[..n] ==> y in pairs;
      PairsExecuted(r, pairs[..n]);
      PlannedPairExecutes(r, x);
      ExecutableConcat(r, pairs[..n], [x]);
      ExecutableOne(r, x);
      PairLegsConcat(Executable(r, pairs[..n]), Executable(r, [x]));
      var d, init := DecidePair(f, x), OverPairs(f, pairs[..n]).orders;
      if d.Ok? {
        OrderLegsAppend(init, d.value);
      }
    }
  }

  lemma {:induction false} ExecutableOne(r: Read, pair: ContraPair)
    ensures Executable(r, [pair]) == if MutePair(r, pair) then [] else [Wholly(pair)]
    ensures PairLegs(Executable(r, [pair])) == if MutePair(r, pair) then [] else Wholly(pair).Legs()
  {
    hide MutePair;
    assert [pair][1..] == [] && [Wholly(pair)][1..] == [];
    assert Executable(r, []) == [] && PairLegs([]) == [];
    assert Wholly(pair).Legs() + [] == Wholly(pair).Legs();
  }

  lemma {:induction false} EvictionsExecuted(r: Read, pairs: seq<ContraPair>, evictions: seq<Eviction>)
    requires NettingBook(r.positions)
    requires forall x :: x in evictions ==> OutcomeAt(r, x.instrument) == Evicted(x)
    ensures OrderLegs(OverEvictions(Unchanged(r), pairs, evictions).orders)
         == OrderLegs(OverPairs(Unchanged(r), pairs).orders) + EvictionLegs(KeptEvictions(r, evictions))
    decreases |evictions|
  {
    hide DecideEviction, OutcomeAt, NettingBook, Unchanged, MuteOn;
    var f := Unchanged(r);
    if evictions == [] {
      assert OverEvictions(f, pairs, evictions) == OverPairs(f, pairs);
      assert EvictionLegs(KeptEvictions(r, evictions)) == [];
    } else {
      var n := |evictions| - 1;
      var x := evictions[n];
      assert x in evictions && forall y :: y in evictions[..n] ==> y in evictions;
      EvictionsExecuted(r, pairs, evictions[..n]);
      PlannedEvictionAgrees(r, x.instrument);
      var d, init := DecideEviction(f, x), OverEvictions(f, pairs, evictions[..n]).orders;
      var kept := KeptEvictions(r, evictions[..n]);
      if d.Ok? {
        OrderLegsAppend(init, d.value);
        EvictionLegsAppend(kept, x);
        Regroup(OrderLegs(OverPairs(f, pairs).orders), EvictionLegs(kept), x.legs);
      } else {
        assert kept + [] == kept;
      }
    }
  }

  lemma {:induction false} SurplusExecuted(r: Read, plan: ContraPlan, surplus: seq<SurplusEviction>)
    requires NettingBook(r.positions)
    requires forall x :: x in surplus ==> OutcomeAt(r, x.instrument) == SurplusEvicted(x)
    ensures OrderLegs(OverSurplus(Unchanged(r), plan.pairs, plan.evictions, surplus).orders)
         == OrderLegs(OverEvictions(Unchanged(r), plan.pairs, plan.evictions).orders) + SurplusLegs(KeptSurplus(r, surplus))
    decreases |surplus|
  {
    hide DecideSurplus, OutcomeAt, NettingBook, Unchanged, MuteOn;
    var f := Unchanged(r);
    if surplus == [] {
      assert OverSurplus(f, plan.pairs, plan.evictions, surplus) == OverEvictions(f, plan.pairs, plan.evictions);
      assert SurplusLegs(KeptSurplus(r, surplus)) == [];
    } else {
      var n := |surplus| - 1;
      var x := surplus[n];
      assert x in surplus && forall y :: y in surplus[..n] ==> y in surplus;
      SurplusExecuted(r, plan, surplus[..n]);
      PlannedSurplusAgrees(r, x.instrument);
      var d, init := DecideSurplus(f, x), OverSurplus(f, plan.pairs, plan.evictions, surplus[..n]).orders;
      var kept := KeptSurplus(r, surplus[..n]);
      if d.Ok? {
        OrderLegsAppend(init, d.value);
        SurplusLegsAppend(kept, x);
        Regroup(OrderLegs(OverEvictions(f, plan.pairs, plan.evictions).orders), SurplusLegs(kept), [x.leg]);
      } else {
        assert kept + [] == kept;
      }
    }
  }

  /**
   On the book the plan was made on, the executor's orders are exactly the plan without what a mute shape stands beside,
   and with every pair at the whole of its smaller leg.
   */
  lemma {:induction false} PlanExecuted(r: Read)
    requires NettingBook(r.positions)
    ensures OrderLegs(Prepare(Unchanged(r), PlanOf(r)).orders) == PlanLegs(Surviving(r, PlanOf(r)))
  {
    var plan := PlanOf(r);
    PlanFromOutcomes(r);
    hide NettingBook, OutcomeAt, Unchanged, PlanOf, OrderLegs, OverPairs, OverEvictions, OverSurplus;
    PairsExecuted(r, plan.pairs);
    EvictionsExecuted(r, plan.pairs, plan.evictions);
    SurplusExecuted(r, plan, plan.surplus);
  }

  // ---- one instrument ------------------------------------------------------------------------

  /** What the executor makes of one instrument's outcome. */
  function Survived(r: Read, o: Outcome): Outcome {
    match o
    case Paired(pairs) => Paired(Executable(r, pairs))
    case Evicted(e) => if MuteIn(r, e.instrument) then Silent else o
    case SurplusEvicted(s) => if MuteIn(r, s.instrument) then Silent else o
    case Silent => o
    case Refused(_) => o
  }

  function ExecutedAt(r: Read, instrument: string): Outcome {
    Survived(r, OutcomeAt(r, instrument))
  }

  lemma {:induction false} SurvivingAdd(r: Read, plan: ContraPlan, instrument: string, o: Outcome)
    ensures Surviving(r, Add(plan, instrument, o)) == Add(Surviving(r, plan), instrument, Survived(r, o))
  {
    hide MuteIn, MutePair;
    match o
    case Paired(pairs) =>
      ExecutableConcat(r, plan.pairs, pairs);
    case Evicted(e) =>
      assert (plan.evictions + [e])[..|plan.evictions|] == plan.evictions;
      assert KeptEvictions(r, plan.evictions) + [] == KeptEvictions(r, plan.evictions);
    case SurplusEvicted(s) =>
      assert (plan.surplus + [s])[..|plan.surplus|] == plan.surplus;
      assert KeptSurplus(r, plan.surplus) + [] == KeptSurplus(r, plan.surplus);
    case Silent =>
    case Refused(_) =>
  }

  // ---- the whole plan ------------------------------------------------------------------------

  function ExecutedPrefix(r: Read, instruments: seq<string>): ContraPlan {
    Surviving(r, PlanPrefix(r, instruments))
  }

  lemma {:induction false} ExecutedStep(r: Read, instruments: seq<string>)
    requires instruments != [] && instruments[|instruments| - 1] in OpenInstruments(r.positions)
    ensures var n := |instruments| - 1;
            var init := ExecutedPrefix(r, instruments[..n]);
            ExecutedPrefix(r, instruments) == (if instruments[n] in Blocked(r.positions) then init
                                               else Add(init, instruments[n], ExecutedAt(r, instruments[n])))
  {
    hide PlanInstrument, Surviving, Survived, Add;
    var n := |instruments| - 1;
    PrefixStep(r, instruments);
    SurvivingAdd(r, PlanPrefix(r, instruments[..n]), instruments[n], Decision(r, instruments[n]));
  }

  lemma {:induction false} ExecutedNothing(r: Read)
    ensures PlanLegs(ExecutedPrefix(r, [])) == []
    ensures forall id :: SignedAt([], id) == 0.0
    ensures forall i :: SignedOn([], i) == 0.0
  {
    assert PlanPrefix(r, []) == ContraPlan([], Unreadable(r.positions), [], []);
    assert Executable(r, []) == [] && KeptEvictions(r, []) == [] && KeptSurplus(r, []) == [];
  }

  /** The book after every order of the execution plan is booked on the book it was made on. */
  function AfterOrders(r: Read): seq<Holding> {
    ApplyAll(Book(OpenOf(r.positions)), OrderLegs(Prepare(Unchanged(r), PlanOf(r)).orders))
  }

  /** What the executed plan adds to one position. */
  function MovedBy(r: Read, h: Holding): real {
    SignedAt(OutcomeLegs(ExecutedAt(r, h.instrument)), h.id)
  }

  lemma {:induction false} SurvivingIsPrefix(r: Read)
    ensures Surviving(r, PlanOf(r)) == ExecutedPrefix(r, Sort(OpenInstruments(r.positions), StrLe))
  {
    hide PlanInstrument, Surviving;
  }

  /** On the book the plan was made on, what the executor makes of an outcome is what survives of it. */
  lemma {:induction false} RebuiltSurvives(r: Read, instrument: string)
    requires NettingBook(r.positions)
    ensures Rebuilt(Unchanged(r), OutcomeAt(r, instrument)) == OutcomeLegs(ExecutedAt(r, instrument))
  {
    hide NettingBook, OutcomeAt, DecideEviction, DecideSurplus, OrderLegs, OverPairs, MuteOn, Unchanged, Executable;
    OutcomeNames(r, instrument);
    match OutcomeAt(r, instrument)
    case Paired(pairs) =>
      OutcomePairs(r, instrument);
      PairsExecuted(r, pairs);
    case Evicted(e) =>
      PlannedEvictionAgrees(r, instrument);
    case SurplusEvicted(s) =>
      PlannedSurplusAgrees(r, instrument);
    case Silent =>
    case Refused(_) =>
  }

  /**
   The whole execution plan booked at once, on the book it was made on: no position appears, no basis moves, nothing is
   realized; each position moves by exactly the executed legs of its own instrument, and each instrument's net by theirs.
   */
  lemma {:induction false} ExecutedPlanMoves(r: Read)
    requires NettingBook(r.positions)
    ensures var book, after := Book(OpenOf(r.positions)), AfterOrders(r);
            && |after| == |book|
            && (forall i :: 0 <= i < |book| ==> after[i] == book[i].(qty := book[i].qty + MovedBy(r, book[i])))
            && (forall i :: 0 <= i < |book| ==>
                  NetOn(after, book[i].instrument) == NetOn(book, book[i].instrument)
                    + SignedOn(OutcomeLegs(ExecutedAt(r, book[i].instrument)), book[i].instrument))
  {
    hide NettingBook, PlanOf, Prepare, OrderLegs, OutcomeAt, ExecutedAt, OutcomeLegs, Rebuilt, SignedAt, SignedOn, ApplyAll, NetOn;
    FreshPlanMoves(r, r.positions, Unchanged(r));
    var book := Book(OpenOf(r.positions));
    forall i | 0 <= i < |book|
      ensures Rebuilt(Unchanged(r), OutcomeAt(r, book[i].instrument)) == OutcomeLegs(ExecutedAt(r, book[i].instrument))
    {
      RebuiltSurvives(r, book[i].instrument);
    }
  }
}
