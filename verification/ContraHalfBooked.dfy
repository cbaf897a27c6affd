/**
 A booking that raised half-way, seen from the node's next tick: the fingerprint of every order holds what the positions it
 closes held, so once any of its legs has been booked nothing the executor accepts on the book as it then is stands under it.
 */
module ContraHalfBooked {
  import opened Prelude
  import opened Netting
  import opened ContraClose
  import opened ContraPlanProofs
  import opened ContraWholeBook
  import opened ContraExecute
  import opened ContraExecuteProofs
  import opened ContraLedger
  import opened ContraRuns
  import opened ContraPrints
  import opened ContraPipeline

  /** What the executor decides on, one at a time. */
  datatype Item = PairItem(pair: ContraPair) | EvictionItem(ev: Eviction) | SurplusItem(se: SurplusEviction)

  function DecideItem(f: Fresh, x: Item): Result<RepairOrder, Reason> {
    match x
    case PairItem(pair) => DecidePair(f, pair)
    case EvictionItem(ev) => DecideEviction(f, ev)
    case SurplusItem(se) => DecideSurplus(f, se)
  }

  /** A pair joins a long and a short, as every pair of the planner and of an operator does. */
  predicate TwoSided(x: Item) {
    x.PairItem? ==> x.pair.longQty > 0.0 && x.pair.shortQty < 0.0
  }

  /** The fingerprint says that this position held this quantity. */
  predicate Pins(mark: Fingerprint, id: string, qty: Qty) {
    match mark
    case PairPrint(_, _, _, longId, shortId, longQty, shortQty, _, _, _, _, _) =>
      (id == longId && qty == longQty) || (id == shortId && qty == shortQty)
    case EvictPrint(_, _, lines) => exists n :: 0 <= n < |lines| && lines[n].id == id && lines[n].signed == qty
    case SurplusPrint(_, _, _, line) => id == line.id && qty == line.signed
  }

  /** Whatever an accepted order's fingerprint says a position holds, a live one does. */
  lemma {:induction false} PinnedIsLive(f: Fresh, x: Item, id: string, qty: Qty) returns (p: Position)
    requires DecideItem(f, x).Ok? && Pins(DecideItem(f, x).value.fingerprint, id, qty)
    ensures p in f.byKey && p.id == id && p.qty == qty
  {
    match x
    case PairItem(pair) =>
      p := PinnedPair(f, pair, id, qty);
    case EvictionItem(ev) =>
      p := PinnedEviction(f, ev, id, qty);
    case SurplusItem(se) =>
      p := PinnedSurplus(f, se, id, qty);
  }

  lemma {:induction false} PinnedPair(f: Fresh, pair: ContraPair, id: string, qty: Qty) returns (p: Position)
    requires DecidePair(f, pair).Ok? && Pins(DecidePair(f, pair).value.fingerprint, id, qty)
    ensures p in f.byKey && p.id == id && p.qty == qty
  {
    var long := Lookup(f.byKey, (pair.instrument, pair.longStrategy)).value;
    var short := Lookup(f.byKey, (pair.instrument, pair.shortStrategy)).value;
    AcceptedPrint(f, pair);
    p := if id == long.id && qty == long.qty then long else short;
  }

  lemma {:induction false} PinnedEviction(f: Fresh, ev: Eviction, id: string, qty: Qty) returns (p: Position)
    requires DecideEviction(f, ev).Ok? && Pins(DecideEviction(f, ev).value.fingerprint, id, qty)
    ensures p in f.byKey && p.id == id && p.qty == qty
  {
    hide ByKey, MuteOn, Rests, VenueRead;
    var live := LiveLegs(f, ev.instrument);
    var legs := Sort(live, ByLane);
    SortMembers(live, ByLane);
    AcceptedEvictionPrint(f, ev);
    var lines := LiveLines(legs);
    var n :| 0 <= n < |lines| && lines[n].id == id && lines[n].signed == qty;
    p := legs[n];
    assert p in legs && p in live;
  }

  lemma {:induction false} PinnedSurplus(f: Fresh, se: SurplusEviction, id: string, qty: Qty) returns (p: Position)
    requires DecideSurplus(f, se).Ok? && Pins(DecideSurplus(f, se).value.fingerprint, id, qty)
    ensures p in f.byKey && p.id == id && p.qty == qty
  {
    hide SurplusShape, MuteOn, Rests, VenueStated;
    var live, venue := LiveLegs(f, se.instrument), VenueStated(f, se.instrument);
    SurplusFacts(live, venue);
    AcceptedSurplusPrint(f, se);
    p := SurplusShape(live, venue).leg;
  }

  // ---- the order that was booked in part -----------------------------------------------------

  /** A leg closes a live position of known quantity, which the fingerprint pins. */
  ghost predicate ClosesPinned(positions: seq<Position>, o: RepairOrder, l: Leg) {
    && l.quantity > 0.0 && Aimed(Book(positions), l)
    && exists p :: p in positions && p.id == l.positionId && p.qty.Known? && Pins(o.fingerprint, p.id, p.qty)
  }

  lemma {:induction false} LegPinned(positions: seq<Position>, o: RepairOrder, l: Leg, p: Position)
    requires IdsUnique(positions) && p in positions && p.qty.Known? && Pins(o.fingerprint, p.id, p.qty) && l.quantity > 0.0
    requires l.positionId == p.id && l.strategy == p.strategy && l.instrument == p.instrument
    ensures ClosesPinned(positions, o, l)
  {
    hide IdsUnique, Pins;
    IdsAreUnique(positions, []);
    AimedInBook(positions, p, l);
  }

  ghost predicate DistinctLegs(legs: seq<Leg>) {
    forall i, j :: 0 <= i < j < |legs| ==> legs[i].positionId != legs[j].positionId
  }

  lemma {:induction false} PairPins(positions: seq<Position>, f: Fresh, pair: ContraPair)
    requires OneBook(positions, f) && TwoSided(PairItem(pair)) && DecidePair(f, pair).Ok?
    ensures var o := DecidePair(f, pair).value;
            DistinctLegs(o.legs) && forall l :: l in o.legs ==> ClosesPinned(positions, o, l)
  {
    hide DecidePair, NettingBook, IdsUnique, LegsOf, ByKey, MuteKeys, Distinct, ClosesPinned;
    var o := DecidePair(f, pair).value;
    var long, short := AcceptedPair(positions, f, pair);
    LegsOfMembers(positions, pair.instrument);
    LegsReady(positions, pair.instrument);
    if long.id == short.id {
      SameId(LegsOf(positions, pair.instrument), long, short);
    }
    KnownBySign(long, short);
    LegPinned(positions, o, o.legs[0], short);
    LegPinned(positions, o, o.legs[1], long);
  }

  lemma {:induction false} KnownBySign(long: Position, short: Position)
    requires long.Signed() > 0.0 && short.Signed() < 0.0
    ensures long.qty == Known(long.Signed()) && short.qty == Known(short.Signed())
  {
  }

  lemma {:induction false} EvictionPins(positions: seq<Position>, f: Fresh, ev: Eviction)
    requires OneBook(positions, f) && DecideEviction(f, ev).Ok? && AllAimed(positions, DecideEviction(f, ev).value.legs)
    ensures var o := DecideEviction(f, ev).value;
            DistinctLegs(o.legs) && forall l :: l in o.legs ==> ClosesPinned(positions, o, l)
  {
    hide NettingBook, IdsUnique, LegsOf, ByKey, MuteKeys, ClosesPinned, Sort, VenueRead, LiveLegs, AllAimed, MuteOn, Rests,
      Distinct;
    var live := LegsOf(positions, ev.instrument);
    var legs := Sort(live, ByLane);
    AcceptedEviction(positions, f, ev);
    AcceptedEvictionPrint(f, ev);
    LegsOfMembers(positions, ev.instrument);
    LegsReady(positions, ev.instrument);
    SortMembers(live, ByLane);
    SortDistinct(live, ByLane);
    ClosingDistinct(ev.instrument, legs);
    var o := DecideEviction(f, ev).value;
    hide DecideEviction;
    forall l | l in o.legs
      ensures ClosesPinned(positions, o, l)
    {
      var n :| 0 <= n < |o.legs| && o.legs[n] == l;
      assert legs[n] in legs && LiveLines(legs)[n].id == l.positionId;
      ClosingIsAimed(positions, ev.instrument, legs[n], o.legs);
      LegPinned(positions, o, l, legs[n]);
    }
  }

  lemma {:induction false} ClosingDistinct(instrument: string, legs: seq<Position>)
    requires Distinct(legs)
    ensures DistinctLegs(ClosingLegs(instrument, legs))
  {
    hide Distinct;
    UniqueIsDistinct(legs);
    assert UniqueIds(Book(legs));
    forall i, j | 0 <= i < j < |legs|
      ensures legs[i].id != legs[j].id
    {
      assert Book(legs)[i].id != Book(legs)[j].id;
    }
  }

  /** What passes the aim check closes something. */
  lemma {:induction false} ClosingIsAimed(positions: seq<Position>, instrument: string, p: Position, legs: seq<Leg>)
    requires IdsUnique(positions) && p in positions && p.qty.Known?
    requires AllAimed(positions, legs) && ClosingLeg(instrument, p) in legs
    ensures ClosingLeg(instrument, p).quantity > 0.0
  {
    hide IdsUnique, AllById;
    ByIdFinds(positions, p);
    ClosingIsAimedIff(AllById(positions), instrument, p);
  }

  lemma {:induction false} SurplusPins(positions: seq<Position>, f: Fresh, se: SurplusEviction)
    requires OneBook(positions, f) && DecideSurplus(f, se).Ok?
    ensures var o := DecideSurplus(f, se).value;
            DistinctLegs(o.legs) && forall l :: l in o.legs ==> ClosesPinned(positions, o, l)
  {
    hide NettingBook, IdsUnique, LegsOf, ByKey, MuteKeys, ClosesPinned, SurplusShape, VenueStated, MuteOn, Rests, LiveLegs;
    AcceptedSurplus(positions, f, se);
    AcceptedSurplusPrint(f, se);
    var live, venue := LegsOf(positions, se.instrument), VenueStated(f, se.instrument);
    SurplusFacts(live, venue);
    LegsOfMembers(positions, se.instrument);
    var o := DecideSurplus(f, se).value;
    LegPinned(positions, o, o.legs[0], SurplusShape(live, venue).leg);
  }

  /** An accepted order the aim check lets through is one the statements about half-booked orders are about. */
  lemma {:induction false} ItemPins(positions: seq<Position>, f: Fresh, x: Item)
    requires OneBook(positions, f) && TwoSided(x) && DecideItem(f, x).Ok? && AllAimed(positions, DecideItem(f, x).value.legs)
    ensures var o := DecideItem(f, x).value;
            OrderOn(positions, o.legs) && forall l :: l in o.legs ==> ClosesPinned(positions, o, l)
  {
    hide DecidePair, DecideEviction, DecideSurplus, NettingBook, IdsUnique, ByKey, MuteKeys, AllAimed, ClosesPinned, TwoSided;
    match x {
      case PairItem(pair) =>
        PairPins(positions, f, pair);
      case EvictionItem(ev) =>
        EvictionPins(positions, f, ev);
      case SurplusItem(se) =>
        SurplusPins(positions, f, se);
    }
    PinnedOrderOn(positions, DecideItem(f, x).value);
  }

  lemma {:induction false} PinnedOrderOn(positions: seq<Position>, o: RepairOrder)
    requires IdsUnique(positions) && AllAimed(positions, o.legs) && DistinctLegs(o.legs)
    requires forall l :: l in o.legs ==> ClosesPinned(positions, o, l)
    ensures OrderOn(positions, o.legs)
  {
    hide IdsUnique, AllById, Aimed, WellAimed, Pins;
    forall l | l in o.legs
      ensures l.positionId in AllById(positions) && AllById(positions)[l.positionId].qty.Known?
    {
      assert ClosesPinned(positions, o, l);
      var p :| p in positions && p.id == l.positionId && p.qty.Known? && Pins(o.fingerprint, p.id, p.qty);
      ByIdFinds(positions, p);
    }
  }

  /**
   An order of any kind, some of whose legs have been booked: nothing the executor accepts on the book as it then is stands
   under its fingerprint.
   */
  lemma {:induction false} HalfBookedIsNotOffered(positions: seq<Position>, f: Fresh, x: Item, k: nat, f': Fresh, x': Item)
    requires OneBook(positions, f) && TwoSided(x) && DecideItem(f, x).Ok? && AllAimed(positions, DecideItem(f, x).value.legs)
    requires 0 < k <= |DecideItem(f, x).value.legs|
    requires f'.byKey == ByKey(Reread(positions, DecideItem(f, x).value.legs[..k])) && DecideItem(f', x').Ok?
    ensures DecideItem(f', x').value.fingerprint != DecideItem(f, x).value.fingerprint
  {
    var o := DecideItem(f, x).value;
    var again := Reread(positions, o.legs[..k]);
    ItemPins(positions, f, x);
    hide OneBook, IdsUnique, AllById, ByKey, Reread, DecideItem, Pins, AllAimed, OrderOn, Aimed;
    assert o.legs[0] in o.legs;
    assert ClosesPinned(positions, o, o.legs[0]);
    var p :| p in positions && p.id == o.legs[0].positionId && p.qty.Known? && Pins(o.fingerprint, p.id, p.qty);
    FirstIsMoved(positions, o.legs, k, p);
    if DecideItem(f', x').value.fingerprint == o.fingerprint {
      var p' := PinnedIsLive(f', x', p.id, p.qty);
      IndexFromBook(again);
      ByIdFinds(again, p');
    }
  }

  lemma {:induction false} FirstIsMoved(positions: seq<Position>, legs: seq<Leg>, k: nat, p: Position)
    requires OrderOn(positions, legs) && 0 < k <= |legs| && legs[0].quantity > 0.0
    requires p in positions && p.id == legs[0].positionId && p.qty.Known?
    ensures var again := Reread(positions, legs[..k]);
            && IdsUnique(again)
            && p.id in AllById(again) && AllById(again)[p.id].qty != p.qty
  {
    hide AllById, Reread, IdsUnique, AllAimed;
    RereadAt(positions, legs, k, 0);
    IdsOfOrder(positions, legs, legs[..k]);
    ByIdFinds(positions, p);
  }
}
