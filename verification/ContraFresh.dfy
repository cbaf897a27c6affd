/**
 The whole execution plan against whatever the book has become. A plan made on one read is prepared and booked on another: the
 two books share nothing but the fingerprints the executor insists on.
 */
module ContraFresh {
  import opened Prelude
  import opened Netting
  import opened ContraClose
  import opened ContraFlatten
  import opened ContraPlanProofs
  import opened ContraWholeBook
  import opened ContraExecute
  import opened ContraExecuteProofs

  function OrderLegs(orders: seq<RepairOrder>): seq<Leg> {
    if orders == [] then [] else OrderLegs(orders[..|orders| - 1]) + orders[|orders| - 1].legs
  }

  lemma {:induction false} OrderLegsAppend(orders: seq<RepairOrder>, o: RepairOrder)
    ensures OrderLegs(orders + [o]) == OrderLegs(orders) + o.legs
  {
    assert (orders + [o])[..|orders|] == orders;
  }

  /** The fresh read is of this book. */
  ghost predicate OnBook(positions: seq<Position>, f: Fresh) {
    NettingBook(positions) && f.byKey == ByKey(positions) && f.mute == MuteKeys(positions)
  }

  function PairedLegs(f: Fresh, pairs: seq<ContraPair>): seq<Leg> {
    OrderLegs(OverPairs(f, pairs).orders)
  }

  /** What the executor makes, on the fresh book, of one instrument's outcome. */
  function Rebuilt(f: Fresh, o: Outcome): seq<Leg> {
    match o
    case Paired(pairs) => PairedLegs(f, pairs)
    case Evicted(e) => if DecideEviction(f, e).Ok? then DecideEviction(f, e).value.legs else []
    case SurplusEvicted(s) => if DecideSurplus(f, s).Ok? then DecideSurplus(f, s).value.legs else []
    case Silent => []
    case Refused(_) => []
  }

  // ---- one instrument ------------------------------------------------------------------------

  /** The legs booked for an instrument stay on it, name its own positions and stand at their bases. */
  ghost predicate OnOwn(legs: seq<Position>, instrument: string, moves: seq<Leg>) {
    forall l :: l in moves ==>
      && l.instrument == instrument && Aimed(Book(legs), l)
      && forall p :: p in legs && p.id == l.positionId ==> l.price == p.avgPx
  }

  lemma {:induction false} WithinOnOwn(legs: seq<Position>, instrument: string, moves: seq<Leg>)
    requires forall l :: l in moves ==> l.instrument == instrument && Aimed(Book(legs), l)
    requires forall p :: p in legs ==> Within(moves, HoldingOf(p))
    ensures OnOwn(legs, instrument, moves)
  {
    hide Aimed, SignedAt;
    forall l, p | l in moves && p in legs && p.id == l.positionId
      ensures l.price == p.avgPx
    {
      assert Within(moves, HoldingOf(p));
      assert ClosesAtBasis(l, HoldingOf(p));
    }
  }

  lemma {:induction false} OnOwnConcat(legs: seq<Position>, instrument: string, a: seq<Leg>, b: seq<Leg>)
    requires OnOwn(legs, instrument, a) && OnOwn(legs, instrument, b)
    ensures OnOwn(legs, instrument, a + b)
    ensures SignedOn(a + b, instrument) == SignedOn(a, instrument) + SignedOn(b, instrument)
  {
    hide Aimed;
    SignedOnConcat(a, b, instrument);
  }

  lemma {:induction false} PairOnOwn(positions: seq<Position>, f: Fresh, pair: ContraPair)
    requires OnBook(positions, f) && DecidePair(f, pair).Ok? && pair.longQty > 0.0 && pair.shortQty < 0.0
    ensures OnOwn(LegsOf(positions, pair.instrument), pair.instrument, DecidePair(f, pair).value.legs)
    ensures SignedOn(DecidePair(f, pair).value.legs, pair.instrument) == 0.0
  {
    hide DecidePair, NettingBook, LegsOf, ByKey, MuteKeys, Distinct, OnOwn, Within, Aimed;
    var long, short := AcceptedPair(positions, f, pair);
    var live := LegsOf(positions, pair.instrument);
    LegsReady(positions, pair.instrument);
    PairRepairs(pair.instrument, live, long, short, Min(Abs(pair.longQty), Abs(pair.shortQty)), pair.brokerQty);
    WithinOnOwn(live, pair.instrument, DecidePair(f, pair).value.legs);
  }

  ghost predicate OwnSigned(instrument: string, pairs: seq<ContraPair>) {
    forall x :: x in pairs ==> x.instrument == instrument && x.longQty > 0.0 && x.shortQty < 0.0
  }

  /** Every accepted pair names the instrument's live positions at their bases, and none moves its net. */
  lemma {:induction false} PairsOnOwn(positions: seq<Position>, f: Fresh, instrument: string, pairs: seq<ContraPair>)
    requires OnBook(positions, f) && OwnSigned(instrument, pairs)
    ensures OnOwn(LegsOf(positions, instrument), instrument, PairedLegs(f, pairs))
    ensures SignedOn(PairedLegs(f, pairs), instrument) == 0.0
    decreases |pairs|
  {
    hide DecidePair, OnBook, LegsOf, OnOwn, SignedOn, OrderLegs;
    if pairs == [] {
      NoOrders(LegsOf(positions, instrument), instrument);
    } else {
      var n := |pairs| - 1;
      var x, init := pairs[n], OverPairs(f, pairs[..n]).orders;
      assert x in pairs && forall y :: y in pairs[..n] ==> y in pairs;
      PairsOnOwn(positions, f, instrument, pairs[..n]);
      if DecidePair(f, x).Ok? {
        PairOnOwn(positions, f, x);
        OrderLegsAppend(init, DecidePair(f, x).value);
        OnOwnConcat(LegsOf(positions, instrument), instrument, OrderLegs(init), DecidePair(f, x).value.legs);
      }
    }
  }

  lemma {:induction false} NoOrders(legs: seq<Position>, instrument: string)
    ensures OrderLegs([]) == [] && OnOwn(legs, instrument, []) && SignedOn([], instrument) == 0.0
  {
  }

  lemma {:induction false} EvictionOnOwn(positions: seq<Position>, f: Fresh, ev: Eviction)
    requires OnBook(positions, f) && DecideEviction(f, ev).Ok?
    ensures var legs := DecideEviction(f, ev).value.legs;
            && OnOwn(LegsOf(positions, ev.instrument), ev.instrument, legs)
            && (forall p :: p in LegsOf(positions, ev.instrument) ==> p.Signed() + SignedAt(legs, p.id) == 0.0)
            && NearZero(VenueRead(f, ev.instrument))
  {
    hide DecideEviction, NettingBook, LegsOf, ByKey, MuteKeys, Distinct, OnOwn, Within, Aimed, SumBy, SignedOn, SignedAt;
    AcceptedEviction(positions, f, ev);
    var live := LegsOf(positions, ev.instrument);
    LegsReady(positions, ev.instrument);
    VenueReadsZero(VenueRead(f, ev.instrument));
    EvictionRepairs(ev.instrument, live, VenueRead(f, ev.instrument).v);
    WithinOnOwn(live, ev.instrument, DecideEviction(f, ev).value.legs);
  }

  lemma {:induction false} SurplusOnOwn(positions: seq<Position>, f: Fresh, se: SurplusEviction)
    requires OnBook(positions, f) && DecideSurplus(f, se).Ok?
    ensures var legs := DecideSurplus(f, se).value.legs;
            var live := LegsOf(positions, se.instrument);
            && OnOwn(live, se.instrument, legs)
            && (forall p :: p in live ==> p.Signed() + SignedAt(legs, p.id) >= 0.0)
            && VenueStated(f, se.instrument).Known?
            && Abs(SumBy(live, SignedOf) + SignedOn(legs, se.instrument) - VenueStated(f, se.instrument).v) <= QTY_TOLERANCE
  {
    hide DecideSurplus, NettingBook, LegsOf, ByKey, MuteKeys, Distinct, OnOwn, Within, Aimed, SumBy, SignedOn, SignedAt,
      SurplusShape, VenueStated;
    AcceptedSurplus(positions, f, se);
    var live := LegsOf(positions, se.instrument);
    LegsReady(positions, se.instrument);
    SurplusRepairs(se.instrument, live, VenueStated(f, se.instrument));
    WithinOnOwn(live, se.instrument, DecideSurplus(f, se).value.legs);
  }

  lemma {:induction false} OutcomePairs(r: Read, instrument: string)
    requires NettingBook(r.positions) && OutcomeAt(r, instrument).Paired?
    ensures OwnSigned(instrument, OutcomeAt(r, instrument).pairs)
  {
    hide OutcomeAt, NettingBook;
    forall x | x in OutcomeAt(r, instrument).pairs
      ensures x.instrument == instrument && x.longQty > 0.0 && x.shortQty < 0.0
    {
      var long, short := PlannedPair(r, instrument, x);
    }
  }

  lemma {:induction false} OutcomeNames(r: Read, instrument: string)
    ensures OutcomeAt(r, instrument).Evicted? ==> OutcomeAt(r, instrument).eviction.instrument == instrument
    ensures OutcomeAt(r, instrument).SurplusEvicted? ==> OutcomeAt(r, instrument).surplus.instrument == instrument
  {
    hide PlanInstrument, Decision;
    OutcomeInstrument(r, instrument);
  }

  /** Whatever became of an instrument, what the executor makes of its outcome names its live positions, at their bases. */
  lemma {:induction false} RebuiltOnOwn(r: Read, positions: seq<Position>, f: Fresh, instrument: string)
    requires NettingBook(r.positions) && OnBook(positions, f)
    ensures OnOwn(LegsOf(positions, instrument), instrument, Rebuilt(f, OutcomeAt(r, instrument)))
  {
    hide NettingBook, OnBook, OutcomeAt, PairedLegs, DecideEviction, DecideSurplus, LegsOf, OnOwn;
    var o := OutcomeAt(r, instrument);
    OutcomeNames(r, instrument);
    NoOrders(LegsOf(positions, instrument), instrument);
    match o
    case Paired(pairs) =>
      OutcomePairs(r, instrument);
      PairsOnOwn(positions, f, instrument, pairs);
    case Evicted(e) =>
      if DecideEviction(f, e).Ok? {
        EvictionOnOwn(positions, f, e);
      }
    case SurplusEvicted(s) =>
      if DecideSurplus(f, s).Ok? {
        SurplusOnOwn(positions, f, s);
      }
    case Silent =>
    case Refused(_) =>
  }

  /** Legs on one instrument touch no open position of another, and are aimed in the whole book. */
  lemma {:induction false} OwnInBook(positions: seq<Position>, instrument: string, moves: seq<Leg>, p: Position)
    requires NettingBook(positions) && OnOwn(LegsOf(positions, instrument), instrument, moves)
    requires p in positions && IsOpen(p) && p.instrument != instrument
    ensures SignedAt(moves, p.id) == 0.0 && SignedOn(moves, p.instrument) == 0.0
  {
    hide LegsOf, Distinct;
    NettingDistinct(positions);
    hide NettingBook;
    LegsOfMembers(positions, instrument);
    forall l | l in moves
      ensures l.positionId != p.id
    {
      var q := AimNames(LegsOf(positions, instrument), l);
      if q.id == p.id {
        SameId(OpenOf(positions), p, q);
      }
    }
    SignedAtAbsent(moves, p.id);
    OtherInstrument(moves, instrument, p.instrument);
  }

  /** The legs name open positions of the book, at their bases. */
  ghost predicate AtLive(positions: seq<Position>, moves: seq<Leg>) {
    forall l :: l in moves ==>
      && Aimed(Book(OpenOf(positions)), l)
      && forall p :: p in OpenOf(positions) && p.id == l.positionId ==> l.price == p.avgPx
  }

  lemma {:induction false} OwnAtLive(positions: seq<Position>, instrument: string, moves: seq<Leg>)
    requires NettingBook(positions) && OnOwn(LegsOf(positions, instrument), instrument, moves)
    ensures AtLive(positions, moves)
  {
    hide Aimed, Distinct, LegsOf;
    NettingDistinct(positions);
    hide NettingBook;
    LegsOfMembers(positions, instrument);
    forall l | l in moves
      ensures Aimed(Book(OpenOf(positions)), l)
      ensures forall p :: p in OpenOf(positions) && p.id == l.positionId ==> l.price == p.avgPx
    {
      var q := AimNames(LegsOf(positions, instrument), l);
      AimedAt(OpenOf(positions), q, l);
      forall p | p in OpenOf(positions) && p.id == l.positionId
        ensures l.price == p.avgPx
      {
        SameId(OpenOf(positions), p, q);
      }
    }
  }

  // ---- the orders of a plan ------------------------------------------------------------------

  function EvictedLegs(f: Fresh, evictions: seq<Eviction>): seq<Leg> {
    if evictions == [] then []
    else EvictedLegs(f, evictions[..|evictions| - 1]) + Rebuilt(f, Evicted(evictions[|evictions| - 1]))
  }

  function SurplusClosed(f: Fresh, surplus: seq<SurplusEviction>): seq<Leg> {
    if surplus == [] then []
    else SurplusClosed(f, surplus[..|surplus| - 1]) + Rebuilt(f, SurplusEvicted(surplus[|surplus| - 1]))
  }

  function FreshLegs(f: Fresh, plan: ContraPlan): seq<Leg> {
    PairedLegs(f, plan.pairs) + EvictedLegs(f, plan.evictions) + SurplusClosed(f, plan.surplus)
  }

  lemma {:induction false} EvictionOrders(f: Fresh, pairs: seq<ContraPair>, evictions: seq<Eviction>)
    ensures OrderLegs(OverEvictions(f, pairs, evictions).orders) == PairedLegs(f, pairs) + EvictedLegs(f, evictions)
    decreases |evictions|
  {
    hide DecideEviction, OrderLegs;
    if evictions != [] {
      var n := |evictions| - 1;
      var d, init := DecideEviction(f, evictions[n]), OverEvictions(f, pairs, evictions[..n]).orders;
      EvictionOrders(f, pairs, evictions[..n]);
      if d.Ok? {
        OrderLegsAppend(init, d.value);
      }
    }
  }

  lemma {:induction false} SurplusOrders(f: Fresh, plan: ContraPlan, surplus: seq<SurplusEviction>)
    ensures OrderLegs(OverSurplus(f, plan.pairs, plan.evictions, surplus).orders)
         == PairedLegs(f, plan.pairs) + EvictedLegs(f, plan.evictions) + SurplusClosed(f, surplus)
    decreases |surplus|
  {
    hide DecideSurplus, OrderLegs, PairedLegs, EvictedLegs;
    if surplus == [] {
      EvictionOrders(f, plan.pairs, plan.evictions);
    } else {
      var n := |surplus| - 1;
      var d, init := DecideSurplus(f, surplus[n]), OverSurplus(f, plan.pairs, plan.evictions, surplus[..n]).orders;
      SurplusOrders(f, plan, surplus[..n]);
      if d.Ok? {
        OrderLegsAppend(init, d.value);
      }
    }
  }

  lemma {:induction false} PairedConcat(f: Fresh, a: seq<ContraPair>, b: seq<ContraPair>)
    ensures PairedLegs(f, a + b) == PairedLegs(f, a) + PairedLegs(f, b)
    decreases |b|
  {
    hide DecidePair;
    if b == [] {
      assert a + b == a;
      assert PairedLegs(f, b) == [];
    } else {
      var n := |b| - 1;
      assert (a + b)[..|a + b| - 1] == a + b[..n] && (a + b)[|a + b| - 1] == b[n];
      PairedConcat(f, a, b[..n]);
      PairedLast(f, a + b);
      PairedLast(f, b);
    }
  }

  lemma {:induction false} PairedLast(f: Fresh, pairs: seq<ContraPair>)
    requires pairs != []
    ensures var n := |pairs| - 1;
            PairedLegs(f, pairs) == PairedLegs(f, pairs[..n])
              + (if DecidePair(f, pairs[n]).Ok? then DecidePair(f, pairs[n]).value.legs else [])
  {
    hide DecidePair, OrderLegs;
    var n := |pairs| - 1;
    if DecidePair(f, pairs[n]).Ok? {
      OrderLegsAppend(OverPairs(f, pairs[..n]).orders, DecidePair(f, pairs[n]).value);
    }
  }

  /** Adding one instrument's outcome to the plan adds exactly what the executor makes of it. */
  lemma {:induction false} FreshAdd(f: Fresh, plan: ContraPlan, instrument: string, o: Outcome)
    ensures forall l :: l in FreshLegs(f, Add(plan, instrument, o)) <==> l in FreshLegs(f, plan) || l in Rebuilt(f, o)
    ensures forall id :: SignedAt(FreshLegs(f, Add(plan, instrument, o)), id)
                      == SignedAt(FreshLegs(f, plan), id) + SignedAt(Rebuilt(f, o), id)
    ensures forall i :: SignedOn(FreshLegs(f, Add(plan, instrument, o)), i)
                     == SignedOn(FreshLegs(f, plan), i) + SignedOn(Rebuilt(f, o), i)
  {
    hide PairedLegs, DecideEviction, DecideSurplus;
    var P, E, S := PairedLegs(f, plan.pairs), EvictedLegs(f, plan.evictions), SurplusClosed(f, plan.surplus);
    var L := Rebuilt(f, o);
    match o {
      case Paired(pairs) =>
        PairedConcat(f, plan.pairs, pairs);
        Totals(P + L, E, S);
      case Evicted(e) =>
        assert (plan.evictions + [e])[..|plan.evictions|] == plan.evictions;
        Totals(P, E + L, S);
      case SurplusEvicted(s) =>
        assert (plan.surplus + [s])[..|plan.surplus|] == plan.surplus;
        Totals(P, E, S + L);
      case Silent =>
      case Refused(_) =>
    }
    Totals(P, E, S);
    Joined(P, L);
    Joined(E, L);
    Joined(S, L);
  }

  lemma {:induction false} FreshNothing(r: Read, f: Fresh)
    ensures FreshLegs(f, PlanPrefix(r, [])) == []
    ensures forall id :: SignedAt([], id) == 0.0
    ensures forall i :: SignedOn([], i) == 0.0
  {
    assert PlanPrefix(r, []) == ContraPlan([], Unreadable(r.positions), [], []);
    assert PairedLegs(f, []) == [];
  }

  // ---- the whole plan ------------------------------------------------------------------------

  function FreshMine(r: Read, f: Fresh, instruments: seq<string>, instrument: string): seq<Leg> {
    if instrument in instruments && instrument !in Blocked(r.positions) then Rebuilt(f, OutcomeAt(r, instrument)) else []
  }

  lemma {:induction false} FreshStep(r: Read, f: Fresh, instruments: seq<string>)
    requires instruments != [] && instruments[|instruments| - 1] in OpenInstruments(r.positions)
    ensures var n := |instruments| - 1;
            var init := PlanPrefix(r, instruments[..n]);
            PlanPrefix(r, instruments) == (if instruments[n] in Blocked(r.positions) then init
                                           else Add(init, instruments[n], OutcomeAt(r, instruments[n])))
  {
    hide PlanInstrument, Add, Decision;
    PrefixStep(r, instruments);
  }

  /** What the plan over some instruments does to one live position and to its instrument's net. */
  lemma {:induction false} FreshTotals(r: Read, positions: seq<Position>, f: Fresh, instruments: seq<string>, p: Position)
    requires NettingBook(r.positions) && OnBook(positions, f) && p in positions && IsOpen(p)
    requires forall a, b :: 0 <= a < b < |instruments| ==> instruments[a] != instruments[b]
    requires forall i :: i in instruments ==> i in OpenInstruments(r.positions)
    ensures var moves := FreshLegs(f, PlanPrefix(r, instruments));
            && SignedAt(moves, p.id) == SignedAt(FreshMine(r, f, instruments, p.instrument), p.id)
            && SignedOn(moves, p.instrument) == SignedOn(FreshMine(r, f, instruments, p.instrument), p.instrument)
    decreases |instruments|
  {
    hide PlanPrefix, OutcomeAt, Rebuilt, SignedAt, SignedOn, FreshLegs, OpenInstruments, NettingBook, Add, OnBook, LegsOf;
    FreshNothing(r, f);
    if instruments != [] {
      var n := |instruments| - 1;
      var i := instruments[n];
      assert instruments == instruments[..n] + [i];
      FreshStep(r, f, instruments);
      FreshTotals(r, positions, f, instruments[..n], p);
      if i !in Blocked(r.positions) {
        FreshAdd(f, PlanPrefix(r, instruments[..n]), i, OutcomeAt(r, i));
        if i != p.instrument {
          RebuiltElsewhere(r, positions, f, i, p);
        }
      }
    }
  }

  lemma {:induction false} RebuiltElsewhere(r: Read, positions: seq<Position>, f: Fresh, i: string, p: Position)
    requires NettingBook(r.positions) && OnBook(positions, f) && p in positions && IsOpen(p) && p.instrument != i
    ensures var moves := Rebuilt(f, OutcomeAt(r, i));
            SignedAt(moves, p.id) == 0.0 && SignedOn(moves, p.instrument) == 0.0
  {
    hide Rebuilt, OutcomeAt, NettingBook, LegsOf, OnOwn;
    RebuiltOnOwn(r, positions, f, i);
    OwnInBook(positions, i, Rebuilt(f, OutcomeAt(r, i)), p);
  }

  lemma {:induction false} FreshAims(r: Read, positions: seq<Position>, f: Fresh, instruments: seq<string>)
    requires NettingBook(r.positions) && OnBook(positions, f)
    requires forall i :: i in instruments ==> i in OpenInstruments(r.positions)
    ensures AtLive(positions, FreshLegs(f, PlanPrefix(r, instruments)))
    decreases |instruments|
  {
    hide PlanPrefix, OutcomeAt, Rebuilt, FreshLegs, OpenInstruments, NettingBook, Add, Aimed, LegsOf, OnOwn;
    FreshNothing(r, f);
    if instruments != [] {
      var n := |instruments| - 1;
      var i := instruments[n];
      assert instruments == instruments[..n] + [i];
      FreshStep(r, f, instruments);
      FreshAims(r, positions, f, instruments[..n]);
      if i !in Blocked(r.positions) {
        FreshAdd(f, PlanPrefix(r, instruments[..n]), i, OutcomeAt(r, i));
        RebuiltOnOwn(r, positions, f, i);
        OwnAtLive(positions, i, Rebuilt(f, OutcomeAt(r, i)));
      }
    }
  }

  lemma {:induction false} SortedOpen(r: Read)
    ensures var order := Sort(OpenInstruments(r.positions), StrLe);
            && (forall a, b :: 0 <= a < b < |order| ==> order[a] != order[b])
            && (forall i :: i in order <==> i in OpenInstruments(r.positions))
            && (forall p :: p in r.positions && IsOpen(p) ==> p.instrument in order)
  {
    var names := OpenInstruments(r.positions);
    OpenInstrumentsMembers(r.positions);
    SortMembers(names, StrLe);
    SortedNamesDistinct(names);
  }

  /** The fresh book once every order prepared on it for a plan is booked. */
  function AfterFresh(positions: seq<Position>, f: Fresh, plan: ContraPlan): seq<Holding> {
    ApplyAll(Book(OpenOf(positions)), OrderLegs(Prepare(f, plan).orders))
  }

  lemma {:induction false} FreshOrders(r: Read, positions: seq<Position>, f: Fresh)
    requires NettingBook(r.positions) && OnBook(positions, f)
    ensures var moves := OrderLegs(Prepare(f, PlanOf(r)).orders);
            && AtLive(positions, moves)
            && forall p :: p in positions && IsOpen(p) ==>
                 && SignedAt(moves, p.id) == SignedAt(Rebuilt(f, OutcomeAt(r, p.instrument)), p.id)
                 && SignedOn(moves, p.instrument) == SignedOn(Rebuilt(f, OutcomeAt(r, p.instrument)), p.instrument)
  {
    hide OrderLegs, PlanOf, NettingBook, OnBook, SignedAt, SignedOn, Sort, OpenInstruments, PairedLegs, EvictedLegs, SurplusClosed,
      AtLive, OverSurplus, PlanPrefix, Decision;
    var plan, order := PlanOf(r), Sort(OpenInstruments(r.positions), StrLe);
    SortedOpen(r);
    PlanIsPrefix(r);
    SurplusOrders(f, plan, plan.surplus);
    FreshAims(r, positions, f, order);
    FreshNothing(r, f);
    forall p | p in positions && IsOpen(p)
      ensures SignedAt(FreshLegs(f, plan), p.id) == SignedAt(Rebuilt(f, OutcomeAt(r, p.instrument)), p.id)
      ensures SignedOn(FreshLegs(f, plan), p.instrument) == SignedOn(Rebuilt(f, OutcomeAt(r, p.instrument)), p.instrument)
    {
      FreshTotals(r, positions, f, order, p);
    }
  }

  lemma {:induction false} PlanIsPrefix(r: Read)
    ensures PlanOf(r) == PlanPrefix(r, Sort(OpenInstruments(r.positions), StrLe))
  {
    hide PlanInstrument;
  }

  /**
   All the orders prepared on a fresh book for a plan made on any other, booked together: no position appears, no basis moves and
   nothing is realized; each position moves by exactly what the executor made of its own instrument's outcome, and so does each
   instrument's net.
   */
  lemma {:induction false} FreshPlanMoves(r: Read, positions: seq<Position>, f: Fresh)
    requires NettingBook(r.positions) && OnBook(positions, f)
    ensures var book, after := Book(OpenOf(positions)), AfterFresh(positions, f, PlanOf(r));
            && |after| == |book|
            && (forall i :: 0 <= i < |book| ==>
                  var moves := Rebuilt(f, OutcomeAt(r, book[i].instrument));
                  && after[i] == book[i].(qty := book[i].qty + SignedAt(moves, book[i].id))
                  && NetOn(after, book[i].instrument) == NetOn(book, book[i].instrument) + SignedOn(moves, book[i].instrument))
  {
    hide OrderLegs, Prepare, PlanOf, SignedAt, SignedOn, OutcomeAt, Rebuilt, Aimed, ApplyAll, NetOn, Distinct, OnBook;
    var open := OpenOf(positions);
    var book, moves := Book(open), OrderLegs(Prepare(f, PlanOf(r)).orders);
    FreshOrders(r, positions, f);
    FreshIsNetting(positions, f);
    NettingDistinct(positions);
    hide NettingBook;
    UniqueIsDistinct(open);
    LiveAtBasis(positions, moves);
    ApplyAllAtBasis(book, moves);
    forall i | 0 <= i < |book|
      ensures var own := Rebuilt(f, OutcomeAt(r, book[i].instrument));
              && SignedAt(moves, book[i].id) == SignedAt(own, book[i].id)
              && NetOn(ApplyAll(book, moves), book[i].instrument)
                 == NetOn(book, book[i].instrument) + SignedOn(own, book[i].instrument)
    {
      assert open[i] in open;
      NetAfterAll(book, moves, book[i].instrument);
    }
  }

  lemma {:induction false} FreshIsNetting(positions: seq<Position>, f: Fresh)
    requires OnBook(positions, f)
    ensures NettingBook(positions)
  {
  }

  lemma {:induction false} LiveAtBasis(positions: seq<Position>, moves: seq<Leg>)
    requires AtLive(positions, moves)
    ensures AtBasis(Book(OpenOf(positions)), moves)
    ensures forall l :: l in moves ==> Aimed(Book(OpenOf(positions)), l)
  {
    hide Aimed;
    var open := OpenOf(positions);
    forall l, i | l in moves && 0 <= i < |open| && l.positionId == Book(open)[i].id
      ensures l.price == Book(open)[i].avgPx
    {
      assert open[i] in open;
    }
  }

  /** Where the plan leaves one position of the fresh book, by what was decided for its instrument on the other. */
  ghost predicate FreshlyLands(r: Read, f: Fresh, before: Holding, after: Holding, netBefore: real, netAfter: real) {
    var i := before.instrument;
    match OutcomeAt(r, i)
    case Paired(_) => netAfter == netBefore
    case Evicted(e) =>
      if DecideEviction(f, e).Ok? then NearZero(VenueRead(f, i)) && after.qty == 0.0 else after == before && netAfter == netBefore
    case SurplusEvicted(s) =>
      if DecideSurplus(f, s).Ok? then
        && VenueStated(f, i).Known? && Abs(netAfter - VenueStated(f, i).v) <= QTY_TOLERANCE && after.qty >= 0.0
      else after == before && netAfter == netBefore
    case Silent => after == before && netAfter == netBefore
    case Refused(_) => after == before && netAfter == netBefore
  }

  /**
   So a stale plan is safe as a whole: on whatever book it is prepared and booked, pairs leave their instrument's net where it
   was, an accepted eviction leaves its instrument flat at a venue re-read as zero, an accepted surplus eviction leaves it at
   the re-read quantity with no short, and everything else, refused orders included, is as it was.
   */
  lemma {:induction false} FreshPlanLands(r: Read, positions: seq<Position>, f: Fresh)
    requires NettingBook(r.positions) && OnBook(positions, f)
    ensures var book, after := Book(OpenOf(positions)), AfterFresh(positions, f, PlanOf(r));
            && |after| == |book|
            && forall i :: 0 <= i < |book| ==>
                 FreshlyLands(r, f, book[i], after[i], NetOn(book, book[i].instrument), NetOn(after, book[i].instrument))
  {
    hide NettingBook, OnBook, PlanOf, AfterFresh, SignedAt, SignedOn, OutcomeAt, Rebuilt, NetOn, FreshlyLands;
    FreshPlanMoves(r, positions, f);
    var open := OpenOf(positions);
    forall i | 0 <= i < |open|
      ensures var book, after := Book(open), AfterFresh(positions, f, PlanOf(r));
              FreshlyLands(r, f, book[i], after[i], NetOn(book, book[i].instrument), NetOn(after, book[i].instrument))
    {
      assert open[i] in open;
      OneLands(r, positions, f, open[i]);
    }
  }

  lemma {:induction false} OneLands(r: Read, positions: seq<Position>, f: Fresh, p: Position)
    requires NettingBook(r.positions) && OnBook(positions, f) && p in positions && IsOpen(p)
    ensures var moves, h, net := Rebuilt(f, OutcomeAt(r, p.instrument)), HoldingOf(p), NetOn(Book(OpenOf(positions)), p.instrument);
            FreshlyLands(r, f, h, h.(qty := h.qty + SignedAt(moves, h.id)), net, net + SignedOn(moves, p.instrument))
  {
    hide OutcomeAt, PairedLegs, DecideEviction, DecideSurplus, LegsOf, OnOwn, SumBy, NetOn, ByKey, MuteKeys, VenueRead,
      VenueStated, Distinct;
    NettingDistinct(positions);
    LegsOfBook(positions, p.instrument);
    hide NettingBook;
    LegsOfMembers(positions, p.instrument);
    OutcomeNames(r, p.instrument);
    FreshNothing(r, f);
    match OutcomeAt(r, p.instrument)
    case Paired(pairs) =>
      OutcomePairs(r, p.instrument);
      PairsOnOwn(positions, f, p.instrument, pairs);
    case Evicted(e) =>
      if DecideEviction(f, e).Ok? {
        EvictionOnOwn(positions, f, e);
      }
    case SurplusEvicted(s) =>
      if DecideSurplus(f, s).Ok? {
        SurplusOnOwn(positions, f, s);
      }
    case Silent =>
    case Refused(_) =>
  }
}
