/**
 From the executor to the booker to the position book: what the aim check makes of the orders an execution plan emits on the
 same book, what a whole tick of the node puts on it, and what a booking that raised half-way leaves for the next.
 */
module ContraPipeline {
  import opened Prelude
  import opened Netting
  import opened ContraClose
  import opened ContraExecute
  import opened ContraPlanProofs
  import opened ContraWholeBook
  import opened ContraExecuteProofs
  import opened ContraFresh
  import opened ContraExecuted
  import opened ContraLedger
  import opened ContraRuns
  import opened ContraPrints

  /** The cache lists each position once, under an id of its own. */
  predicate IdsUnique(positions: seq<Position>) {
    && (forall p :: p in positions ==> p.id != "")
    && (forall i, j :: 0 <= i < j < |positions| ==> positions[i].id != positions[j].id)
  }

  /** The book as it stands when the executor reads it, and again when the booker does. */
  ghost predicate OneBook(positions: seq<Position>, f: Fresh) {
    NettingBook(positions) && IdsUnique(positions) && f.byKey == ByKey(positions) && f.mute == MuteKeys(positions)
  }

  lemma {:induction false} ByIdFinds(positions: seq<Position>, p: Position)
    requires IdsUnique(positions) && p in positions
    ensures p.id in AllById(positions) && AllById(positions)[p.id] == p
    decreases |positions|
  {
    var n := |positions| - 1;
    assert positions == positions[..n] + [positions[n]];
    if p != positions[n] {
      var i :| 0 <= i < n && positions[i] == p;
      assert positions[..n][i] == p;
      assert forall q :: q in positions[..n] ==> q in positions;
      ByIdFinds(positions[..n], p);
    }
  }

  /** A live position is where the booker looks for it. */
  lemma {:induction false} LiveIsById(positions: seq<Position>, instrument: string, p: Position)
    requires IdsUnique(positions) && p in LegsOf(positions, instrument)
    ensures p.id in AllById(positions) && AllById(positions)[p.id] == p
  {
    hide LegsOf, AllById, IdsUnique;
    LegsOfMembers(positions, instrument);
    ByIdFinds(positions, p);
  }

  lemma {:induction false} ClosingIsAimedIff(byId: map<string, Position>, instrument: string, p: Position)
    requires p.id in byId && byId[p.id] == p && p.qty.Known?
    ensures WellAimed(byId, ClosingLeg(instrument, p)) <==> p.qty.v != 0.0
  {
  }

  lemma {:induction false} AllClosingAimedIff(byId: map<string, Position>, instrument: string, legs: seq<Position>)
    requires forall p :: p in legs ==> p.id in byId && byId[p.id] == p && p.qty.Known?
    ensures FirstProblem(byId, ClosingLegs(instrument, legs)).None? <==> forall p :: p in legs ==> p.qty.v != 0.0
  {
    hide FirstProblem, WellAimed, ClosingLeg;
    var closing := ClosingLegs(instrument, legs);
    NoProblemIsAimed(byId, closing);
    forall i | 0 <= i < |legs|
      ensures WellAimed(byId, closing[i]) <==> legs[i].qty.v != 0.0
    {
      assert legs[i] in legs;
      ClosingIsAimedIff(byId, instrument, legs[i]);
    }
    if forall p :: p in legs ==> p.qty.v != 0.0 {
      forall l | l in closing
        ensures WellAimed(byId, l)
      {
        var i :| 0 <= i < |closing| && closing[i] == l;
        assert legs[i] in legs;
      }
    } else {
      var p :| p in legs && p.qty.v == 0.0;
      var i :| 0 <= i < |legs| && legs[i] == p;
      assert closing[i] in closing;
    }
  }

  /** The whole of what the booker makes of one order that is not in its ledger. */
  lemma {:induction false} VerifyOne(byId: map<string, Position>, o: RepairOrder, done: map<Fingerprint, Entry>)
    requires !IsBooked(done, o.fingerprint)
    ensures var plan := Verify(byId, [o], done);
            && plan.alreadyDone == []
            && plan.book == (if FirstProblem(byId, o.legs).None? then [Booking(o.fingerprint, o.instrument, o.legs)] else [])
            && |plan.refused| == (if FirstProblem(byId, o.legs).None? then 0 else 1)
  {
    hide FirstProblem;
    assert [o][..0] == [];
  }

  /** The booker takes the order whole. */
  predicate Books(positions: seq<Position>, o: RepairOrder, done: map<Fingerprint, Entry>) {
    Verify(AllById(positions), [o], done).book == [Booking(o.fingerprint, o.instrument, o.legs)]
  }

  lemma {:induction false} EvictionAimedIff(positions: seq<Position>, f: Fresh, ev: Eviction)
    requires OneBook(positions, f) && DecideEviction(f, ev).Ok?
    ensures FirstProblem(AllById(positions), DecideEviction(f, ev).value.legs).None?
       <==> forall p :: p in LegsOf(positions, ev.instrument) ==> p.Signed() != 0.0
  {
    hide DecideEviction, NettingBook, IdsUnique, AllById, LegsOf, ByKey, MuteKeys, FirstProblem, Sort, VenueRead, NearZero;
    var live := LegsOf(positions, ev.instrument);
    var ordered := Sort(live, ByLane);
    AcceptedEviction(positions, f, ev);
    SortMembers(live, ByLane);
    forall p | p in ordered
      ensures p.id in AllById(positions) && AllById(positions)[p.id] == p && p.qty.Known?
    {
      LiveIsById(positions, ev.instrument, p);
    }
    AllClosingAimedIff(AllById(positions), ev.instrument, ordered);
  }

  /**
   An eviction the executor accepts is booked on the same book exactly when none of the instrument's open positions is at
   zero: a flat leg closes as a BUY of nothing, which the aim check reads as the wrong side, and the order is refused whole.
   */
  lemma {:induction false} EvictionBooksIff(positions: seq<Position>, f: Fresh, ev: Eviction,
                                            done: map<Fingerprint, Entry>)
    requires OneBook(positions, f) && DecideEviction(f, ev).Ok?
    requires !IsBooked(done, DecideEviction(f, ev).value.fingerprint)
    ensures Books(positions, DecideEviction(f, ev).value, done)
       <==> forall p :: p in LegsOf(positions, ev.instrument) ==> p.Signed() != 0.0
  {
    hide DecideEviction, OneBook, AllById, LegsOf, Verify, FirstProblem, IsBooked;
    EvictionAimedIff(positions, f, ev);
    VerifyOne(AllById(positions), DecideEviction(f, ev).value, done);
  }

  lemma {:induction false} PairAimed(positions: seq<Position>, f: Fresh, pair: ContraPair)
    requires OneBook(positions, f) && DecidePair(f, pair).Ok? && pair.longQty > 0.0 && pair.shortQty < 0.0
    ensures FirstProblem(AllById(positions), DecidePair(f, pair).value.legs).None?
  {
    hide DecidePair, NettingBook, IdsUnique, AllById, LegsOf, ByKey, MuteKeys, FirstProblem;
    var long, short := AcceptedPair(positions, f, pair);
    LiveIsById(positions, pair.instrument, long);
    LiveIsById(positions, pair.instrument, short);
    NoProblemIsAimed(AllById(positions), DecidePair(f, pair).value.legs);
  }

  /** A pair the executor accepts is always booked: both its legs are live, on the side they close, and large enough. */
  lemma {:induction false} PairBooks(positions: seq<Position>, f: Fresh, pair: ContraPair, done: map<Fingerprint, Entry>)
    requires OneBook(positions, f) && DecidePair(f, pair).Ok? && pair.longQty > 0.0 && pair.shortQty < 0.0
    requires !IsBooked(done, DecidePair(f, pair).value.fingerprint)
    ensures Books(positions, DecidePair(f, pair).value, done)
  {
    hide DecidePair, OneBook, AllById, Verify, FirstProblem, IsBooked;
    PairAimed(positions, f, pair);
    VerifyOne(AllById(positions), DecidePair(f, pair).value, done);
  }

  lemma {:induction false} SurplusAimed(positions: seq<Position>, f: Fresh, se: SurplusEviction)
    requires OneBook(positions, f) && DecideSurplus(f, se).Ok?
    ensures FirstProblem(AllById(positions), DecideSurplus(f, se).value.legs).None?
  {
    hide DecideSurplus, NettingBook, IdsUnique, AllById, LegsOf, ByKey, MuteKeys, FirstProblem, SurplusShape, VenueStated;
    var live := LegsOf(positions, se.instrument);
    AcceptedSurplus(positions, f, se);
    SurplusFacts(live, VenueStated(f, se.instrument));
    var x := SurplusShape(live, VenueStated(f, se.instrument)).leg;
    LiveIsById(positions, se.instrument, x);
    NoProblemIsAimed(AllById(positions), DecideSurplus(f, se).value.legs);
  }

  /** So is a surplus eviction. */
  lemma {:induction false} SurplusBooks(positions: seq<Position>, f: Fresh, se: SurplusEviction,
                                        done: map<Fingerprint, Entry>)
    requires OneBook(positions, f) && DecideSurplus(f, se).Ok?
    requires !IsBooked(done, DecideSurplus(f, se).value.fingerprint)
    ensures Books(positions, DecideSurplus(f, se).value, done)
  {
    hide DecideSurplus, OneBook, AllById, Verify, FirstProblem, IsBooked;
    SurplusAimed(positions, f, se);
    VerifyOne(AllById(positions), DecideSurplus(f, se).value, done);
  }

  /** What the aim check refuses as an unknown position is exactly what, booked, would open one instead of closing any. */
  lemma {:induction false} UnknownIsWhatWouldOpen(positions: seq<Position>, leg: Leg)
    requires IdsUnique(positions) && leg.positionId != ""
    ensures LegProblem(AllById(positions), leg) == Some(UnknownPosition)
       <==> |ApplyLeg(Book(positions), leg)| == |positions| + 1
  {
    hide AllById, ApplyLeg;
    MissedAimOpens(Book(positions), leg);
    ByIdFrom(positions, leg.positionId);
    if leg.positionId !in AllById(positions) {
      forall h | h in Book(positions)
        ensures h.id != leg.positionId
      {
        var i :| 0 <= i < |positions| && Book(positions)[i] == h;
        ByIdFinds(positions, positions[i]);
      }
    } else {
      var p := AllById(positions)[leg.positionId];
      var i :| 0 <= i < |positions| && positions[i] == p;
      assert Book(positions)[i] in Book(positions);
    }
  }

  lemma {:induction false} ByIdFrom(positions: seq<Position>, id: string)
    ensures id in AllById(positions) ==> AllById(positions)[id] in positions && AllById(positions)[id].id == id
  {
    if positions != [] {
      ByIdFrom(positions[..|positions| - 1], id);
    }
  }

  // ---- a tick of the node --------------------------------------------------------------------

  ghost predicate AllClear(byId: map<string, Position>, orders: seq<RepairOrder>) {
    forall o :: o in orders ==> FirstProblem(byId, o.legs).None?
  }

  function BookingOf(o: RepairOrder): Booking {
    Booking(o.fingerprint, o.instrument, o.legs)
  }

  /** Orders that are all well aimed and not in the ledger are all booked, in order, and all their legs reach the book. */
  lemma {:induction false} AllReach(byId: map<string, Position>, orders: seq<RepairOrder>, done: map<Fingerprint, Entry>)
    requires AllClear(byId, orders) && forall o :: o in orders ==> !IsBooked(done, o.fingerprint)
    ensures ReachedAll(Verify(byId, orders, done).book, map[]) == OrderLegs(orders)
    decreases |orders|
  {
    hide Verify, FirstProblem, IsBooked, ReachedAll, Reached;
    if orders == [] {
      NoneReach(byId, done);
    } else {
      var n := |orders| - 1;
      assert orders[n] in orders && forall x :: x in orders[..n] ==> x in orders;
      AllReach(byId, orders[..n], done);
      ReachOneMore(byId, orders, done);
    }
  }

  lemma {:induction false} NoneReach(byId: map<string, Position>, done: map<Fingerprint, Entry>)
    ensures ReachedAll(Verify(byId, [], done).book, map[]) == []
  {
  }

  lemma {:induction false} ReachOneMore(byId: map<string, Position>, orders: seq<RepairOrder>, done: map<Fingerprint, Entry>)
    requires orders != [] && FirstProblem(byId, orders[|orders| - 1].legs).None?
    requires !IsBooked(done, orders[|orders| - 1].fingerprint)
    ensures var n := |orders| - 1;
            ReachedAll(Verify(byId, orders, done).book, map[])
            == ReachedAll(Verify(byId, orders[..n], done).book, map[]) + orders[n].legs
  {
    hide FirstProblem, IsBooked;
    var n := |orders| - 1;
    var init, b := Verify(byId, orders[..n], done).book, BookingOf(orders[n]);
    assert Verify(byId, orders, done).book == init + [b];
    assert (init + [b])[..|init|] == init;
  }

  lemma {:induction false} ClearAppend(byId: map<string, Position>, orders: seq<RepairOrder>, o: RepairOrder)
    requires AllClear(byId, orders) && FirstProblem(byId, o.legs).None?
    ensures AllClear(byId, orders + [o])
  {
  }

  lemma {:induction false} PairsClear(r: Read, pairs: seq<ContraPair>)
    requires OneBook(r.positions, Unchanged(r)) && forall x :: x in pairs ==> x.longQty > 0.0 && x.shortQty < 0.0
    ensures AllClear(AllById(r.positions), OverPairs(Unchanged(r), pairs).orders)
    decreases |pairs|
  {
    hide DecidePair, OneBook, AllClear, AllById, Unchanged;
    if pairs == [] {
      assert OverPairs(Unchanged(r), pairs).orders == [];
      ClearNothing(AllById(r.positions));
    } else {
      var n := |pairs| - 1;
      assert pairs[n] in pairs && forall x :: x in pairs[..n] ==> x in pairs;
      PairsClear(r, pairs[..n]);
      if DecidePair(Unchanged(r), pairs[n]).Ok? {
        PairAimed(r.positions, Unchanged(r), pairs[n]);
        ClearAppend(AllById(r.positions), OverPairs(Unchanged(r), pairs[..n]).orders, DecidePair(Unchanged(r), pairs[n]).value);
      }
    }
  }

  lemma {:induction false} ClearNothing(byId: map<string, Position>)
    ensures AllClear(byId, [])
  {
  }

  lemma {:induction false} EvictionsClear(r: Read, pairs: seq<ContraPair>, evictions: seq<Eviction>)
    requires OneBook(r.positions, Unchanged(r)) && forall x :: x in pairs ==> x.longQty > 0.0 && x.shortQty < 0.0
    requires forall x, p :: x in evictions && p in LegsOf(r.positions, x.instrument) ==> p.Signed() != 0.0
    ensures AllClear(AllById(r.positions), OverEvictions(Unchanged(r), pairs, evictions).orders)
    decreases |evictions|
  {
    hide DecideEviction, OneBook, AllClear, AllById, Unchanged, LegsOf;
    if evictions == [] {
      PairsClear(r, pairs);
    } else {
      var n := |evictions| - 1;
      var x := evictions[n];
      assert x in evictions && forall y :: y in evictions[..n] ==> y in evictions;
      EvictionsClear(r, pairs, evictions[..n]);
      if DecideEviction(Unchanged(r), x).Ok? {
        EvictionAimedIff(r.positions, Unchanged(r), x);
        ClearAppend(AllById(r.positions), OverEvictions(Unchanged(r), pairs, evictions[..n]).orders,
                    DecideEviction(Unchanged(r), x).value);
      }
    }
  }

  lemma {:induction false} SurplusClear(r: Read, plan: ContraPlan, surplus: seq<SurplusEviction>)
    requires OneBook(r.positions, Unchanged(r))
    requires AllClear(AllById(r.positions), OverEvictions(Unchanged(r), plan.pairs, plan.evictions).orders)
    ensures AllClear(AllById(r.positions), OverSurplus(Unchanged(r), plan.pairs, plan.evictions, surplus).orders)
    decreases |surplus|
  {
    hide DecideSurplus, OneBook, AllClear, AllById, Unchanged;
    if surplus != [] {
      var n := |surplus| - 1;
      SurplusClear(r, plan, surplus[..n]);
      if DecideSurplus(Unchanged(r), surplus[n]).Ok? {
        SurplusAimed(r.positions, Unchanged(r), surplus[n]);
        ClearAppend(AllById(r.positions), OverSurplus(Unchanged(r), plan.pairs, plan.evictions, surplus[..n]).orders,
                    DecideSurplus(Unchanged(r), surplus[n]).value);
      }
    }
  }

  lemma {:induction false} PlannedSigns(r: Read, pair: ContraPair)
    requires NettingBook(r.positions) && pair in PlanOf(r).pairs
    ensures pair.longQty > 0.0 && pair.shortQty < 0.0
  {
    hide PlanOf, OutcomeAt, NettingBook;
    PlanFromOutcomes(r);
    var long, short := PlannedPair(r, pair.instrument, pair);
  }

  /** The orders of a tick of the node that plans, prepares and books on one read. */
  function NodeOrders(r: Read): seq<RepairOrder> {
    Prepare(Unchanged(r), PlanOf(r)).orders
  }

  function NodeTick(r: Read, now: int): Tick {
    Tick(NodeOrders(r), r.positions, true, map[], now)
  }

  /** No instrument to be evicted has an open position at zero. */
  ghost predicate NoFlatEvicted(r: Read) {
    forall x, p :: x in PlanOf(r).evictions && p in LegsOf(r.positions, x.instrument) ==> p.Signed() != 0.0
  }

  /**
   An armed tick of the node, planned, prepared, verified and booked on one read of the book: every order reaches the position
   book whole, so the book ends as `AfterOrders` describes it. It takes that no instrument to be evicted has a flat leg open
   and that the ledger does not have the orders yet.
   */
  lemma {:induction false} NodeTickBooks(r: Read, ledger: map<Fingerprint, Entry>, now: int)
    requires NettingBook(r.positions) && IdsUnique(r.positions) && NoFlatEvicted(r)
    requires forall o :: o in NodeOrders(r) ==> !IsBooked(ledger, o.fingerprint)
    ensures TickLegs(ledger, NodeTick(r, now)) == OrderLegs(NodeOrders(r))
    ensures ApplyAll(Book(OpenOf(r.positions)), TickLegs(ledger, NodeTick(r, now))) == AfterOrders(r)
  {
    var plan := PlanOf(r);
    assert OneBook(r.positions, Unchanged(r));
    forall x | x in plan.pairs
      ensures x.longQty > 0.0 && x.shortQty < 0.0
    {
      PlannedSigns(r, x);
    }
    hide OneBook, PlanOf, AllById, Verify, IsBooked, OverEvictions, OverSurplus, NettingBook, AllClear, LegsOf;
    EvictionsClear(r, plan.pairs, plan.evictions);
    SurplusClear(r, plan, plan.surplus);
    AllReach(AllById(r.positions), NodeOrders(r), ledger);
  }

  // ---- a booking that raised half-way --------------------------------------------------------

  /** A position as it is read again once its holding is `h`. */
  function Moved(p: Position, h: Holding): Position {
    if p.qty.Unknown? || h == HoldingOf(p) then p
    else p.(qty := Known(h.qty), avgPx := h.avgPx, open := Some(h.qty != 0.0))
  }

  /** The position book, read again after some legs have been booked on it. */
  function Reread(positions: seq<Position>, legs: seq<Leg>): (r: seq<Position>)
    ensures |r| == |positions|
    ensures forall i :: 0 <= i < |positions| ==> r[i].id == positions[i].id && r[i].strategy == positions[i].strategy
  {
    var after := ApplyAll(Book(positions), legs);
    seq(|positions|, i requires 0 <= i < |positions| =>
      if i < |after| then Moved(positions[i], after[i]) else positions[i])
  }

  /** The position holds twice what the leg takes of it, and is not closed by it. */
  predicate Roomy(p: Position, l: Leg) {
    p.qty.Known? && l.quantity < Abs(p.qty.v) && l.quantity + l.quantity <= Abs(p.qty.v) + BOOKING_TOLERANCE
  }

  predicate RoomyAt(positions: seq<Position>, l: Leg) {
    l.positionId in AllById(positions) && Roomy(AllById(positions)[l.positionId], l)
  }

  /** The legs of an order on a book: aimed at positions of known quantity, one leg each. */
  ghost predicate OrderOn(positions: seq<Position>, legs: seq<Leg>) {
    && IdsUnique(positions) && AllAimed(positions, legs)
    && (forall i, j :: 0 <= i < j < |legs| ==> legs[i].positionId != legs[j].positionId)
    && (forall l :: l in legs ==> l.quantity >= 0.0 && Aimed(Book(positions), l)
                                  && AllById(positions)[l.positionId].qty.Known?)
  }

  lemma {:induction false} SignedAtPrefix(legs: seq<Leg>, k: nat, j: nat)
    requires k <= |legs| && j < |legs|
    requires forall i, n :: 0 <= i < n < |legs| ==> legs[i].positionId != legs[n].positionId
    ensures SignedAt(legs[..k], legs[j].positionId) == if j < k then legs[j].Signed() else 0.0
    decreases k
  {
    if k > 0 {
      assert legs[..k] == legs[..k - 1] + [legs[k - 1]];
      SignedAtPrefix(legs, k - 1, j);
      SignedAtConcat(legs[..k - 1], [legs[k - 1]], legs[j].positionId);
      assert [legs[k - 1]][1..] == [];
      assert SignedAt([legs[k - 1]][1..], legs[j].positionId) == 0.0;
      assert j != k - 1 ==> legs[j].positionId != legs[k - 1].positionId;
    }
  }

  lemma {:induction false} IdsAreUnique(positions: seq<Position>, legs: seq<Leg>)
    requires IdsUnique(positions)
    ensures UniqueIds(Book(positions)) && IdsUnique(Reread(positions, legs))
  {
    var again := Reread(positions, legs);
    forall p | p in again
      ensures p.id != ""
    {
      var i :| 0 <= i < |again| && again[i] == p;
      assert positions[i] in positions;
    }
  }

  /** Where the first `k` legs of an order leave the position its `j`th leg names. */
  lemma {:induction false} RereadAt(positions: seq<Position>, legs: seq<Leg>, k: nat, j: nat)
    requires OrderOn(positions, legs) && k <= |legs| && j < |legs|
    ensures var id := legs[j].positionId;
            var again := AllById(Reread(positions, legs[..k]));
            && id in again
            && again[id].strategy == AllById(positions)[id].strategy
            && again[id].qty == Known(AllById(positions)[id].qty.v + (if j < k then legs[j].Signed() else 0.0))
  {
    hide *;
    var i := NamedIndex(positions, legs, j);
    PartQty(positions, legs, k, j, i);
    IdsOfOrder(positions, legs, legs[..k]);
    ByIdFinds(Reread(positions, legs[..k]), Reread(positions, legs[..k])[i]);
  }

  /** Where the position stands that a leg of the order names. */
  lemma {:induction false} NamedIndex(positions: seq<Position>, legs: seq<Leg>, j: nat) returns (i: nat)
    requires OrderOn(positions, legs) && j < |legs|
    ensures i < |positions| && positions[i].id == legs[j].positionId && positions[i].qty.Known?
    ensures legs[j].positionId in AllById(positions) && AllById(positions)[legs[j].positionId] == positions[i]
  {
    hide IdsUnique, AllById;
    assert legs[j] in legs;
    i := Find(Book(positions), legs[j].positionId);
    ByIdFinds(positions, positions[i]);
  }

  lemma {:induction false} IdsOfOrder(positions: seq<Position>, legs: seq<Leg>, part: seq<Leg>)
    requires OrderOn(positions, legs)
    ensures IdsUnique(positions) && UniqueIds(Book(positions)) && IdsUnique(Reread(positions, part))
  {
    hide IdsUnique, AllById, Reread;
    IdsAreUnique(positions, part);
  }

  lemma {:induction false} PartQty(positions: seq<Position>, legs: seq<Leg>, k: nat, j: nat, i: nat)
    requires OrderOn(positions, legs) && k <= |legs| && j < |legs|
    requires i < |positions| && positions[i].id == legs[j].positionId && positions[i].qty.Known?
    ensures Reread(positions, legs[..k])[i].qty == Known(positions[i].qty.v + (if j < k then legs[j].Signed() else 0.0))
  {
    hide AllById, IdsUnique, ApplyAll, SignedAt, Reread, AllAimed, Aimed;
    assert forall x :: x in legs[..k] ==> x in legs;
    IdsOfOrder(positions, legs, legs[..k]);
    ApplyAllMoves(Book(positions), legs[..k]);
    SignedAtPrefix(legs, k, j);
    RereadIs(positions, legs[..k], i);
  }

  lemma {:induction false} RereadIs(positions: seq<Position>, legs: seq<Leg>, i: nat)
    requires i < |positions| && i < |ApplyAll(Book(positions), legs)| && positions[i].qty.Known?
    ensures Reread(positions, legs)[i].qty == Known(ApplyAll(Book(positions), legs)[i].qty)
  {
    hide ApplyAll;
  }

  lemma {:induction false} StillAimedIff(byId: map<string, Position>, again: map<string, Position>, l: Leg, booked: bool)
    requires WellAimed(byId, l) && l.positionId in byId && byId[l.positionId].qty.Known? && l.quantity >= 0.0
    requires l.positionId in again && again[l.positionId].strategy == byId[l.positionId].strategy
    requires again[l.positionId].qty == Known(byId[l.positionId].qty.v + (if booked then l.Signed() else 0.0))
    ensures WellAimed(again, l) <==> (booked ==> Roomy(byId[l.positionId], l))
  {
  }

  /**
   On the book the first `k` legs of an order have been booked on, every leg of it is still well aimed exactly when each of the
   positions already moved still holds what its leg takes again: a position the order closes whole never does.
   */
  lemma {:induction false} AimedAgainIff(positions: seq<Position>, legs: seq<Leg>, k: nat)
    requires OrderOn(positions, legs) && k <= |legs|
    ensures AllAimed(Reread(positions, legs[..k]), legs) <==> forall j :: 0 <= j < k ==> RoomyAt(positions, legs[j])
  {
    hide AllById, Reread, WellAimed, RoomyAt, OrderOn;
    var again := AllById(Reread(positions, legs[..k]));
    forall j: nat | j < |legs|
      ensures WellAimed(again, legs[j]) <==> (j < k ==> RoomyAt(positions, legs[j]))
    {
      LegAimedAgain(positions, legs, k, j);
    }
    forall j: nat | j < |legs|
      ensures legs[j] in legs
    {
    }
    if forall j :: 0 <= j < k ==> RoomyAt(positions, legs[j]) {
      forall l | l in legs
        ensures WellAimed(again, l)
      {
        var j :| 0 <= j < |legs| && legs[j] == l;
      }
    }
  }

  lemma {:induction false} LegAimedAgain(positions: seq<Position>, legs: seq<Leg>, k: nat, j: nat)
    requires OrderOn(positions, legs) && k <= |legs| && j < |legs|
    ensures WellAimed(AllById(Reread(positions, legs[..k])), legs[j]) <==> (j < k ==> RoomyAt(positions, legs[j]))
  {
    hide AllById, Reread, WellAimed, Roomy, Aimed, IdsUnique;
    assert legs[j] in legs;
    RereadAt(positions, legs, k, j);
    AimedIsKnown(AllById(positions), legs[j]);
    StillAimedIff(AllById(positions), AllById(Reread(positions, legs[..k])), legs[j], j < k);
  }

  lemma {:induction false} AimedIsKnown(byId: map<string, Position>, l: Leg)
    requires WellAimed(byId, l)
    ensures l.positionId in byId
  {
  }

  /**
   A booking that raised at leg `k`, seen by an armed tick that reads the book the first `k` legs were booked on and offers the
   same order: it is booked again, every leg, exactly when each position already moved holds as much again. When nothing had
   been booked before the raise, it is booked in full.
   */
  lemma {:induction false} RaisedIsBookedAgainIff(w: World, o: RepairOrder, k: nat, first: Tick, next: Tick)
    requires !IsBooked(w.ledger, o.fingerprint) && k < |o.legs|
    requires first.arm && first.orders == [o] && first.raises == map[o.fingerprint := k]
    requires OrderOn(first.positions, o.legs)
    requires next.arm && next.orders == [o] && next.raises == map[]
    requires next.positions == Reread(first.positions, o.legs[..k])
    ensures var again := Step(Step(w, Repair(first)), Repair(next)).bookings;
            var roomy := forall j :: 0 <= j < k ==> RoomyAt(first.positions, o.legs[j]);
            && TickLegs(w.ledger, first) == o.legs[..k]
            && (roomy <==> again == w.bookings + [o.fingerprint])
            && (!roomy <==> again == w.bookings)
            && (k == 0 ==> again == w.bookings + [o.fingerprint])
  {
    hide *;
    AimedAgainIff(first.positions, o.legs, k);
    OrderIsAimed(first.positions, o.legs);
    RaisedIsOfferedAgain(w, o, k, first, next);
    assert |w.bookings + [o.fingerprint]| == |w.bookings| + 1;
    assert w.bookings + [] == w.bookings;
  }

  lemma {:induction false} OrderIsAimed(positions: seq<Position>, legs: seq<Leg>)
    requires OrderOn(positions, legs)
    ensures AllAimed(positions, legs)
  {
  }

  lemma {:induction false} AimedInBook(positions: seq<Position>, p: Position, l: Leg)
    requires IdsUnique(positions) && p in positions && UniqueIds(Book(positions))
    requires l.positionId == p.id && l.strategy == p.strategy && l.instrument == p.instrument
    ensures Aimed(Book(positions), l)
  {
    hide IdsUnique;
    UniqueIsDistinct(positions);
    AimedAt(positions, p, l);
  }
}
