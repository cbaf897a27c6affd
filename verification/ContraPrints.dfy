/**
 No two orders of one execution plan stand under the same fingerprint: the matching joins a long and a short at most once, an
 instrument has at most one eviction or surplus, and whatever the executor accepts keeps the fingerprint it was planned under.
 So the one-pass blindness of the aim check never shows on the node's own plans.
 */
module ContraPrints {
  import opened Prelude
  import opened Netting
  import opened ContraClose
  import opened ContraFlatten
  import opened ContraPlanProofs
  import opened ContraWholeBook
  import opened ContraExecute
  import opened ContraExecuteProofs
  import opened ContraExecuted
  import opened ContraLedger
  import opened ContraRuns

  // ---- the matching --------------------------------------------------------------------------

  predicate SamePair(a: Take, b: Take) {
    a.long.id == b.long.id && a.short.id == b.short.id
  }

  ghost predicate EachOnce(takes: seq<Take>) {
    forall i, j :: 0 <= i < j < |takes| ==> !SamePair(takes[i], takes[j])
  }

  /** Every step passes a leg, so no long and short are joined twice. */
  lemma {:induction false} MatchedOnce(longs: seq<Slot>, shorts: seq<Slot>, tol: real)
    requires tol >= 0.0
    requires DistinctSlots(longs) && NonNegative(longs) && DistinctSlots(shorts) && NonNegative(shorts)
    ensures EachOnce(Match(longs, shorts, tol))
    decreases |longs| + |shorts|
  {
    if longs != [] && shorts != [] {
      assert longs[0] in longs && shorts[0] in shorts;
      var take := Min(longs[0].rem, shorts[0].rem);
      var ls, ss := Advance(longs, take, tol), Advance(shorts, take, tol);
      AdvanceKeeps(longs, take, tol);
      AdvanceKeeps(shorts, take, tol);
      MatchedOnce(ls, ss, tol);
      TakesAreFromSlots(ls, ss, tol);
      var rest := Match(ls, ss, tol);
      forall t | t in rest
        ensures !SamePair(Take(longs[0].pos, shorts[0].pos, take), t)
      {
        var a :| a in ls && a.pos == t.long;
        var b :| b in ss && b.pos == t.short;
        assert a.pos.id in Ids(ls) && b.pos.id in Ids(ss);
      }
      OnceMore(ContraFlatten.Step(longs, shorts, tol), rest);
    }
  }

  lemma {:induction false} OnceMore(head: seq<Take>, rest: seq<Take>)
    requires |head| <= 1 && EachOnce(rest) && forall h, t :: h in head && t in rest ==> !SamePair(h, t)
    ensures EachOnce(head + rest)
  {
    forall i, j | 0 <= i < j < |head + rest|
      ensures !SamePair((head + rest)[i], (head + rest)[j])
    {
      if i < |head| {
        assert head[i] in head && (head + rest)[j] in rest;
      }
    }
  }

  // ---- the plan ------------------------------------------------------------------------------

  ghost predicate PrintsDiffer(pairs: seq<ContraPair>) {
    forall i, j :: 0 <= i < j < |pairs| ==> pairs[i].Print() != pairs[j].Print()
  }

  lemma {:induction false} FlattenPrints(instrument: string, legs: seq<Position>, venue: real)
    requires Distinct(legs)
    ensures PrintsDiffer(PairsOf(instrument, FlattenTakes(legs), venue))
  {
    hide FlattenTakes, SideSlots, Distinct;
    SortedSide(legs, true);
    SortedSide(legs, false);
    var takes := FlattenTakes(legs);
    assert takes == Match(SideSlots(legs, true), SideSlots(legs, false), QTY_TOLERANCE) by {
      FlattenIsMatch(legs);
    }
    MatchedOnce(SideSlots(legs, true), SideSlots(legs, false), QTY_TOLERANCE);
    var pairs := PairsOf(instrument, takes, venue);
    forall i, j | 0 <= i < j < |pairs|
      ensures pairs[i].Print() != pairs[j].Print()
    {
      assert !SamePair(takes[i], takes[j]);
    }
  }

  lemma {:induction false} FlattenIsMatch(legs: seq<Position>)
    ensures FlattenTakes(legs) == Match(SideSlots(legs, true), SideSlots(legs, false), QTY_TOLERANCE)
  {
  }

  lemma {:induction false} DecisionPrints(r: Read, instrument: string)
    requires Ready(r)
    ensures var o := Decision(r, instrument);
            o.Paired? ==> PrintsDiffer(o.pairs) && forall x :: x in o.pairs ==> x.instrument == instrument
  {
    hide PlanInstrument, Distinct, FlattenTakes;
    var legs := LegsOf(r.positions, instrument);
    UniqueIsDistinct(OpenOf(r.positions));
    LegsOfBook(r.positions, instrument);
    OutcomeInstrument(r, instrument);
    ActingFacts(instrument, legs, r.broker, r.resting, r.complete);
    if Decision(r, instrument).Paired? && |legs| > 2 {
      FlattenPrints(instrument, legs, BrokerOrZero(r.broker, instrument).v);
    }
  }

  /** The pairs of a plan differ in their fingerprints, its evictions and its surplus evictions in their instruments. */
  ghost predicate PlanDiffers(plan: ContraPlan) {
    && PrintsDiffer(plan.pairs)
    && (forall i, j :: 0 <= i < j < |plan.evictions| ==> plan.evictions[i].instrument != plan.evictions[j].instrument)
    && (forall i, j :: 0 <= i < j < |plan.surplus| ==> plan.surplus[i].instrument != plan.surplus[j].instrument)
  }

  ghost predicate StaysIn(plan: ContraPlan, instruments: seq<string>) {
    && (forall x :: x in plan.pairs ==> x.instrument in instruments)
    && (forall x :: x in plan.evictions ==> x.instrument in instruments)
    && (forall x :: x in plan.surplus ==> x.instrument in instruments)
  }

  lemma {:induction false} AddDiffers(plan: ContraPlan, instruments: seq<string>, i: string, o: Outcome)
    requires PlanDiffers(plan) && StaysIn(plan, instruments) && i !in instruments
    requires o.Paired? ==> PrintsDiffer(o.pairs) && forall x :: x in o.pairs ==> x.instrument == i
    requires o.Evicted? ==> o.eviction.instrument == i
    requires o.SurplusEvicted? ==> o.surplus.instrument == i
    ensures PlanDiffers(Add(plan, i, o)) && StaysIn(Add(plan, i, o), instruments + [i])
  {
    match o {
      case Paired(pairs) =>
        var all := plan.pairs + pairs;
        forall a, b | 0 <= a < b < |all|
          ensures all[a].Print() != all[b].Print()
        {
          if a < |plan.pairs| && b >= |plan.pairs| {
            assert plan.pairs[a] in plan.pairs && pairs[b - |plan.pairs|] in pairs;
          }
        }
      case Evicted(e) =>
        assert forall x :: x in plan.evictions ==> x.instrument != i;
      case SurplusEvicted(s) =>
        assert forall x :: x in plan.surplus ==> x.instrument != i;
      case Silent =>
      case Refused(_) =>
    }
  }

  lemma {:induction false} PrefixDiffers(r: Read, instruments: seq<string>)
    requires Ready(r)
    requires forall a, b :: 0 <= a < b < |instruments| ==> instruments[a] != instruments[b]
    ensures PlanDiffers(PlanPrefix(r, instruments)) && StaysIn(PlanPrefix(r, instruments), instruments)
    decreases |instruments|
  {
    hide PlanInstrument, Decision, Add, Ready, PlanDiffers, StaysIn;
    if instruments == [] {
      NothingDiffers(r);
    } else {
      var n := |instruments| - 1;
      var i := instruments[n];
      assert instruments == instruments[..n] + [i];
      PrefixDiffers(r, instruments[..n]);
      PrefixStep(r, instruments);
      if i in Blocked(r.positions) {
        StillStaysIn(PlanPrefix(r, instruments), instruments[..n], i);
      } else {
        DecisionPrints(r, i);
        OutcomeInstrument(r, i);
        AddDiffers(PlanPrefix(r, instruments[..n]), instruments[..n], i, Decision(r, i));
      }
    }
  }

  lemma {:induction false} NothingDiffers(r: Read)
    ensures PlanDiffers(PlanPrefix(r, [])) && StaysIn(PlanPrefix(r, []), [])
  {
  }

  lemma {:induction false} StillStaysIn(plan: ContraPlan, instruments: seq<string>, i: string)
    requires StaysIn(plan, instruments)
    ensures StaysIn(plan, instruments + [i])
  {
  }

  lemma {:induction false} PlanPrintsDiffer(r: Read)
    requires Ready(r)
    ensures PlanDiffers(PlanOf(r))
  {
    hide PlanInstrument, Sort, PlanDiffers, Ready;
    OpenInstrumentsMembers(r.positions);
    SortedNamesDistinct(OpenInstruments(r.positions));
    PrefixDiffers(r, Sort(OpenInstruments(r.positions), StrLe));
  }

  // ---- the execution plan --------------------------------------------------------------------

  /** Whatever book it reads, an order the executor emits stands under the fingerprint of what it was planned from. */
  lemma {:induction false} AcceptedPrint(f: Fresh, pair: ContraPair)
    requires DecidePair(f, pair).Ok?
    ensures DecidePair(f, pair).value.fingerprint == pair.Print()
  {
    hide SymbolPart;
  }

  lemma {:induction false} AcceptedEvictionPrint(f: Fresh, ev: Eviction)
    requires DecideEviction(f, ev).Ok?
    ensures DecideEviction(f, ev).value.fingerprint == ev.Print()
  {
    hide Sort;
  }

  lemma {:induction false} AcceptedSurplusPrint(f: Fresh, se: SurplusEviction)
    requires DecideSurplus(f, se).Ok?
    ensures DecideSurplus(f, se).value.fingerprint == se.Print()
  {
    hide SurplusShape;
  }

  ghost predicate FromPairs(orders: seq<RepairOrder>, pairs: seq<ContraPair>) {
    forall o :: o in orders ==> exists x :: x in pairs && o.fingerprint == x.Print()
  }

  lemma {:induction false} DistinctMore(orders: seq<RepairOrder>, o: RepairOrder)
    requires DistinctOrders(orders) && forall x :: x in orders ==> x.fingerprint != o.fingerprint
    ensures DistinctOrders(orders + [o])
  {
  }

  lemma {:induction false} PairOrdersDiffer(f: Fresh, pairs: seq<ContraPair>)
    requires PrintsDiffer(pairs)
    ensures DistinctOrders(OverPairs(f, pairs).orders) && FromPairs(OverPairs(f, pairs).orders, pairs)
    decreases |pairs|
  {
    hide DecidePair;
    if pairs != [] {
      var n := |pairs| - 1;
      var x := pairs[n];
      PairOrdersDiffer(f, pairs[..n]);
      var init, d := OverPairs(f, pairs[..n]).orders, DecidePair(f, x);
      assert pairs == pairs[..n] + [x];
      assert forall y :: y in pairs[..n] ==> y in pairs && y.Print() != x.Print();
      if d.Ok? {
        AcceptedPrint(f, x);
        DistinctMore(init, d.value);
      }
    }
  }

  ghost predicate EvictionsNamed(orders: seq<RepairOrder>, evictions: seq<Eviction>) {
    forall o :: o in orders && o.fingerprint.EvictPrint? ==>
      exists x :: x in evictions && o.fingerprint.instrument == x.instrument
  }

  lemma {:induction false} EvictionOrdersDiffer(f: Fresh, pairs: seq<ContraPair>, evictions: seq<Eviction>)
    requires PrintsDiffer(pairs)
    requires forall i, j :: 0 <= i < j < |evictions| ==> evictions[i].instrument != evictions[j].instrument
    ensures DistinctOrders(OverEvictions(f, pairs, evictions).orders)
    ensures EvictionsNamed(OverEvictions(f, pairs, evictions).orders, evictions)
    ensures forall o :: o in OverEvictions(f, pairs, evictions).orders ==> !o.fingerprint.SurplusPrint?
    decreases |evictions|
  {
    hide DecideEviction, PrintsDiffer;
    if evictions == [] {
      PairOrdersDiffer(f, pairs);
    } else {
      var n := |evictions| - 1;
      var x := evictions[n];
      EvictionOrdersDiffer(f, pairs, evictions[..n]);
      var init, d := OverEvictions(f, pairs, evictions[..n]).orders, DecideEviction(f, x);
      assert evictions == evictions[..n] + [x];
      assert forall y :: y in evictions[..n] ==> y in evictions && y.instrument != x.instrument;
      if d.Ok? {
        AcceptedEvictionPrint(f, x);
        DistinctMore(init, d.value);
      }
    }
  }

  ghost predicate SurplusNamed(orders: seq<RepairOrder>, surplus: seq<SurplusEviction>) {
    forall o :: o in orders && o.fingerprint.SurplusPrint? ==>
      exists x :: x in surplus && o.fingerprint.instrument == x.instrument
  }

  lemma {:induction false} SurplusOrdersDiffer(f: Fresh, pairs: seq<ContraPair>, evictions: seq<Eviction>,
                                               surplus: seq<SurplusEviction>)
    requires PrintsDiffer(pairs)
    requires forall i, j :: 0 <= i < j < |evictions| ==> evictions[i].instrument != evictions[j].instrument
    requires forall i, j :: 0 <= i < j < |surplus| ==> surplus[i].instrument != surplus[j].instrument
    ensures DistinctOrders(OverSurplus(f, pairs, evictions, surplus).orders)
    ensures SurplusNamed(OverSurplus(f, pairs, evictions, surplus).orders, surplus)
    decreases |surplus|
  {
    hide DecideSurplus, PrintsDiffer;
    if surplus == [] {
      EvictionOrdersDiffer(f, pairs, evictions);
    } else {
      var n := |surplus| - 1;
      var x := surplus[n];
      SurplusOrdersDiffer(f, pairs, evictions, surplus[..n]);
      var init, d := OverSurplus(f, pairs, evictions, surplus[..n]).orders, DecideSurplus(f, x);
      assert surplus == surplus[..n] + [x];
      assert forall y :: y in surplus[..n] ==> y in surplus && y.instrument != x.instrument;
      if d.Ok? {
        AcceptedSurplusPrint(f, x);
        DistinctMore(init, d.value);
      }
    }
  }

  /** Whatever book the executor reads, no two of its orders for a planner's plan stand under one fingerprint. */
  lemma {:induction false} OrdersDiffer(r: Read, f: Fresh)
    requires Ready(r)
    ensures DistinctOrders(Prepare(f, PlanOf(r)).orders)
  {
    hide PlanOf, Ready, OverSurplus, PrintsDiffer;
    PlanPrintsDiffer(r);
    var plan := PlanOf(r);
    SurplusOrdersDiffer(f, plan.pairs, plan.evictions, plan.surplus);
  }

  // ---- the node's own ticks ------------------------------------------------------------------

  /** Where a tick's orders come from: a plan of the planner, or the one pair an operator named. */
  ghost predicate FromNode(t: Tick) {
    || (exists r: Read, f: Fresh :: Ready(r) && t.orders == Prepare(f, PlanOf(r)).orders)
    || (exists f: Fresh, pair: ContraPair :: t.orders == Prepare(f, ContraPlan([pair], [], [], [])).orders)
  }

  lemma {:induction false} NodeOrdersDiffer(t: Tick)
    requires FromNode(t)
    ensures DistinctOrders(t.orders)
  {
    hide PlanOf, Ready, Prepare, DistinctOrders;
    if r: Read, f: Fresh :| Ready(r) && t.orders == Prepare(f, PlanOf(r)).orders {
      OrdersDiffer(r, f);
    } else {
      var f: Fresh, pair: ContraPair :| t.orders == Prepare(f, ContraPlan([pair], [], [], [])).orders;
      OnePairOneOrder(f, pair);
    }
  }

  lemma {:induction false} OnePairOneOrder(f: Fresh, pair: ContraPair)
    ensures DistinctOrders(Prepare(f, ContraPlan([pair], [], [], [])).orders)
  {
    SurplusOrdersDiffer(f, [pair], [], []);
  }

  /**
   Over any run of the node's own ticks and restarts, a repair is booked to the end at most once in each boot, and the ledger
   says exactly which have been.
   */
  lemma {:induction false} NodeRepairsAtMostOnce(events: seq<Event>, f: Fingerprint)
    requires forall i :: 0 <= i < |events| && events[i].Repair? ==> FromNode(events[i].tick)
    ensures multiset(Run(events).bookings)[f] == (if IsBooked(Run(events).ledger, f) then 1 else 0)
    ensures multiset(Run(events).Ever())[f] <= 1 + Restarts(events)
  {
    hide FromNode, DistinctOrders, Run, Restarts;
    forall i | 0 <= i < |events| && events[i].Repair?
      ensures DistinctOrders(events[i].tick.orders)
    {
      NodeOrdersDiffer(events[i].tick);
    }
    RepairedAtMostOnce(events, f);
  }
}
