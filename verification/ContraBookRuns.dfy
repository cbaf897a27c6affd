/**
 Whole runs on one position book: every pass reads the book as the passes before it left it, prepares whatever plan it was given
 against that, and books what passes the aim check, up to a leg that raises. Restarts empty the ledger and leave the book.
 */
module ContraBookRuns {
  import opened Prelude
  import opened Netting
  import opened ContraClose
  import opened ContraPlanProofs
  import opened ContraWholeBook
  import opened ContraExecute
  import opened ContraExecuteProofs
  import opened ContraFresh
  import opened ContraLedger
  import opened ContraRuns
  import opened ContraPipeline
  import opened ContraHalfBooked

  datatype Live = Live(positions: seq<Position>, ledger: map<Fingerprint, Entry>)

  datatype Turn =
    | Pass(plan: ContraPlan, broker: Option<map<string, Qty>>, resting: set<string>, complete: bool, arm: bool,
           raises: map<Fingerprint, nat>, now: int)
    | Reboot

  /** The tick of a pass: its orders are prepared on the book as it stands. */
  function TickOn(s: Live, t: Turn): Tick
    requires t.Pass?
  {
    Tick(Prepare(ReadBook(s.positions, t.broker, t.resting, t.complete), t.plan).orders, s.positions, t.arm, t.raises, t.now)
  }

  /** The legs a turn puts on the book. */
  function PutOnBook(s: Live, t: Turn): seq<Leg> {
    if t.Pass? then TickLegs(s.ledger, TickOn(s, t)) else []
  }

  function Next(s: Live, t: Turn): Live {
    match t
    case Reboot => s.(ledger := map[])
    case Pass(_, _, _, _, _, _, _) =>
      Live(Reread(s.positions, PutOnBook(s, t)), AfterAll(s.ledger, TickEntries(s.ledger, TickOn(s, t))))
  }

  function RunOn(s: Live, turns: seq<Turn>): Live
    decreases |turns|
  {
    if turns == [] then s else Next(RunOn(s, turns[..|turns| - 1]), turns[|turns| - 1])
  }

  /** The cache lists each position once, under its own id, and holds one open position an instrument and lane. */
  ghost predicate GoodBook(positions: seq<Position>) {
    NettingBook(positions) && IdsUnique(positions)
  }

  /** Every pair joins a long and a short, as the planner's and an operator's do. */
  ghost predicate TwoSidedPlan(plan: ContraPlan) {
    forall x :: x in plan.pairs ==> x.longQty > 0.0 && x.shortQty < 0.0
  }

  // ---- what a leg on the book is -------------------------------------------------------------

  /** The leg closes a live position, at its basis, on the side it is on, and the fingerprint pins what it held. */
  ghost predicate ClosesLive(positions: seq<Position>, l: Leg, mark: Fingerprint, p: Position) {
    && p in positions && IsOpen(p) && p.qty.Known? && p.id == l.positionId
    && l.price == p.avgPx && l.quantity > 0.0 && Aimed(Book(positions), l)
    && (if l.side.Buy? then p.Signed() < 0.0 else p.Signed() > 0.0)
    && Pins(mark, p.id, p.qty)
  }

  /** A leg of a booking is a leg of one of the tick's orders, every leg of which passed the aim check. */
  lemma {:induction false} LegOfOrder(ledger: map<Fingerprint, Entry>, t: Tick, l: Leg) returns (o: RepairOrder)
    requires l in TickLegs(ledger, t)
    ensures o in t.orders && l in o.legs && AllAimed(t.positions, o.legs)
  {
    hide Verify, AllById, WellAimed, IsBooked, ReachedAll, Reached;
    var book := TickPlan(ledger, t).book;
    var b := LegOfBooking(book, t.raises, l);
    BookedIffAimed(AllById(t.positions), t.orders, ledger, b);
    o :| o in t.orders && b == Booking(o.fingerprint, o.instrument, o.legs);
  }

  lemma {:induction false} LegOfBooking(book: seq<Booking>, raises: map<Fingerprint, nat>, l: Leg) returns (b: Booking)
    requires l in ReachedAll(book, raises)
    ensures b in book && l in b.legs
    decreases |book|
  {
    var n := |book| - 1;
    if l in Reached(book[n], raises) {
      b := book[n];
    } else {
      b := LegOfBooking(book[..n], raises, l);
    }
  }

  /** An order of a plan, with what it was decided from. */
  lemma {:induction false} OrderOf(f: Fresh, plan: ContraPlan, o: RepairOrder) returns (x: Item)
    requires TwoSidedPlan(plan) && o in Prepare(f, plan).orders
    ensures DecideItem(f, x) == Ok(o) && TwoSided(x)
  {
    hide OverSurplus, DecideItem;
    x := SurplusOrderOf(f, plan, plan.surplus, o);
  }

  lemma {:induction false} PairOrderOf(f: Fresh, pairs: seq<ContraPair>, o: RepairOrder) returns (x: Item)
    requires (forall y :: y in pairs ==> y.longQty > 0.0 && y.shortQty < 0.0) && o in OverPairs(f, pairs).orders
    ensures DecideItem(f, x) == Ok(o) && TwoSided(x)
    decreases |pairs|
  {
    hide DecidePair;
    var n := |pairs| - 1;
    assert pairs[n] in pairs && forall y :: y in pairs[..n] ==> y in pairs;
    if DecidePair(f, pairs[n]) == Ok(o) {
      x := PairItem(pairs[n]);
    } else {
      x := PairOrderOf(f, pairs[..n], o);
    }
  }

  lemma {:induction false} EvictionOrderOf(f: Fresh, pairs: seq<ContraPair>, evictions: seq<Eviction>, o: RepairOrder)
    returns (x: Item)
    requires (forall y :: y in pairs ==> y.longQty > 0.0 && y.shortQty < 0.0)
    requires o in OverEvictions(f, pairs, evictions).orders
    ensures DecideItem(f, x) == Ok(o) && TwoSided(x)
    decreases |evictions|
  {
    hide DecideEviction;
    if evictions == [] {
      x := PairOrderOf(f, pairs, o);
    } else {
      var n := |evictions| - 1;
      if DecideEviction(f, evictions[n]) == Ok(o) {
        x := EvictionItem(evictions[n]);
      } else {
        x := EvictionOrderOf(f, pairs, evictions[..n], o);
      }
    }
  }

  lemma {:induction false} SurplusOrderOf(f: Fresh, plan: ContraPlan, surplus: seq<SurplusEviction>, o: RepairOrder)
    returns (x: Item)
    requires TwoSidedPlan(plan) && o in OverSurplus(f, plan.pairs, plan.evictions, surplus).orders
    ensures DecideItem(f, x) == Ok(o) && TwoSided(x)
    decreases |surplus|
  {
    hide DecideSurplus;
    if surplus == [] {
      x := EvictionOrderOf(f, plan.pairs, plan.evictions, o);
    } else {
      var n := |surplus| - 1;
      if DecideSurplus(f, surplus[n]) == Ok(o) {
        x := SurplusItem(surplus[n]);
      } else {
        x := SurplusOrderOf(f, plan, surplus[..n], o);
      }
    }
  }

  /** The legs of an accepted order are on its instrument, at the bases of its live positions. */
  lemma {:induction false} ItemOnOwn(positions: seq<Position>, f: Fresh, x: Item) returns (instrument: string)
    requires OnBook(positions, f) && TwoSided(x) && DecideItem(f, x).Ok?
    ensures OnOwn(LegsOf(positions, instrument), instrument, DecideItem(f, x).value.legs)
  {
    hide DecidePair, DecideEviction, DecideSurplus, OnOwn, LegsOf, OnBook;
    match x
    case PairItem(pair) =>
      PairOnOwn(positions, f, pair);
      instrument := pair.instrument;
    case EvictionItem(ev) =>
      EvictionOnOwn(positions, f, ev);
      instrument := ev.instrument;
    case SurplusItem(se) =>
      SurplusOnOwn(positions, f, se);
      instrument := se.instrument;
  }

  lemma {:induction false} LegClosesLive(positions: seq<Position>, f: Fresh, x: Item, l: Leg) returns (p: Position)
    requires OneBook(positions, f) && TwoSided(x) && DecideItem(f, x).Ok?
    requires AllAimed(positions, DecideItem(f, x).value.legs) && l in DecideItem(f, x).value.legs
    ensures ClosesLive(positions, l, DecideItem(f, x).value.fingerprint, p)
  {
    var o := DecideItem(f, x).value;
    var instrument := ItemOnOwn(positions, f, x);
    ItemPins(positions, f, x);
    hide DecideItem, NettingBook, IdsUnique, ByKey, MuteKeys, AllById, Pins, OrderOn, LegsOf, TwoSided;
    assert ClosesPinned(positions, o, l);
    p :| p in positions && p.id == l.positionId && p.qty.Known? && Pins(o.fingerprint, p.id, p.qty);
    var q := AimNames(LegsOf(positions, instrument), l);
    LegsOfMembers(positions, instrument);
    ByIdFinds(positions, p);
    ByIdFinds(positions, q);
    SideOfAim(AllById(positions), l);
  }

  lemma {:induction false} SideOfAim(byId: map<string, Position>, l: Leg)
    requires WellAimed(byId, l) && l.positionId in byId && byId[l.positionId].qty.Known?
    ensures if l.side.Buy? then byId[l.positionId].Signed() < 0.0 else byId[l.positionId].Signed() > 0.0
  {
  }

  /** Every leg a pass puts on the book closes a live position of it. */
  lemma {:induction false} PassLeg(s: Live, t: Turn, l: Leg) returns (o: RepairOrder, p: Position)
    requires GoodBook(s.positions) && t.Pass? && TwoSidedPlan(t.plan) && l in PutOnBook(s, t)
    ensures o in TickOn(s, t).orders && l in o.legs && ClosesLive(s.positions, l, o.fingerprint, p)
  {
    hide TickLegs, AllAimed, DecideItem, TwoSidedPlan, TwoSided, ClosesLive, Prepare, GoodBook;
    var f := ReadBook(s.positions, t.broker, t.resting, t.complete);
    o := LegOfOrder(s.ledger, TickOn(s, t), l);
    var x := OrderOf(f, t.plan, o);
    ReadIsOneBook(s.positions, t.broker, t.resting, t.complete);
    p := LegClosesLive(s.positions, f, x, l);
  }

  lemma {:induction false} ReadIsOneBook(positions: seq<Position>, broker: Option<map<string, Qty>>, resting: set<string>,
                                         complete: bool)
    requires GoodBook(positions)
    ensures OneBook(positions, ReadBook(positions, broker, resting, complete))
  {
  }

  // ---- one turn ------------------------------------------------------------------------------

  /** Legs that close live positions of the book. */
  ghost predicate AllClose(positions: seq<Position>, legs: seq<Leg>) {
    forall l :: l in legs ==> exists mark: Fingerprint, p: Position :: ClosesLive(positions, l, mark, p)
  }

  /** The same position, at the same basis: only what it holds and whether it is open may differ, and what was closed stays. */
  predicate SameBasis(p: Position, q: Position) {
    && q == p.(qty := q.qty, open := q.open)
    && (q.qty.Known? <==> p.qty.Known?)
    && (!IsOpen(p) || p.qty.Unknown? ==> q == p)
  }

  lemma {:induction false} ClosingLegsBooked(positions: seq<Position>, legs: seq<Leg>)
    requires IdsUnique(positions) && AllClose(positions, legs)
    ensures var book, after := Book(positions), ApplyAll(Book(positions), legs);
            && |after| == |book|
            && forall i :: 0 <= i < |book| ==> after[i] == book[i].(qty := book[i].qty + SignedAt(legs, book[i].id))
  {
    hide IdsUnique, Aimed, Pins, ApplyAll, SignedAt;
    IdsAreUnique(positions, []);
    var book := Book(positions);
    forall l | l in legs
      ensures Aimed(book, l)
      ensures forall i :: 0 <= i < |book| && l.positionId == book[i].id ==> l.price == book[i].avgPx
    {
      var mark: Fingerprint, p: Position :| ClosesLive(positions, l, mark, p);
      forall i | 0 <= i < |book| && l.positionId == book[i].id
        ensures l.price == book[i].avgPx
      {
        OneOfItsId(positions, p, i);
      }
    }
    ApplyAllAtBasis(book, legs);
  }

  lemma {:induction false} OneOfItsId(positions: seq<Position>, p: Position, i: nat)
    requires IdsUnique(positions) && p in positions && i < |positions| && positions[i].id == p.id
    ensures positions[i] == p
  {
  }

  /** A position no leg names is as it was; one that some leg names has moved, all its legs being on one side. */
  lemma {:induction false} NamedIsMoved(positions: seq<Position>, legs: seq<Leg>, i: nat)
    requires IdsUnique(positions) && AllClose(positions, legs) && i < |positions|
    ensures SignedAt(legs, positions[i].id) != 0.0 <==> exists l :: l in legs && l.positionId == positions[i].id
    ensures SignedAt(legs, positions[i].id) != 0.0 ==> IsOpen(positions[i]) && positions[i].qty.Known?
  {
    hide IdsUnique, Aimed, Pins, SignedAt;
    var p := positions[i];
    if l :| l in legs && l.positionId == p.id {
      var side := if p.Signed() < 0.0 then Buy else Sell;
      forall x | x in legs && x.positionId == p.id
        ensures x.side == side && x.quantity > 0.0 && IsOpen(p) && p.qty.Known?
      {
        var mark: Fingerprint, q: Position :| ClosesLive(positions, x, mark, q);
        OneOfItsId(positions, q, i);
      }
      OneSided(legs, p.id, side);
      assert l.quantity > 0.0;
    } else {
      SignedAtAbsent(legs, p.id);
    }
  }

  lemma {:induction false} RereadKeepsBasis(positions: seq<Position>, legs: seq<Leg>, i: nat)
    requires IdsUnique(positions) && AllClose(positions, legs) && i < |positions|
    ensures SameBasis(positions[i], Reread(positions, legs)[i])
    ensures SignedAt(legs, positions[i].id) != 0.0 ==> Reread(positions, legs)[i].qty != positions[i].qty
  {
    hide IdsUnique, AllClose, ApplyAll, SignedAt;
    ClosingLegsBooked(positions, legs);
    NamedIsMoved(positions, legs, i);
  }

  lemma {:induction false} BasesKeepGood(before: seq<Position>, after: seq<Position>)
    requires GoodBook(before) && |after| == |before| && forall i :: 0 <= i < |before| ==> SameBasis(before[i], after[i])
    ensures GoodBook(after)
  {
    forall p | p in after
      ensures p.id != ""
    {
      var i :| 0 <= i < |after| && after[i] == p;
      assert before[i] in before;
    }
  }

  lemma {:induction false} PassCloses(s: Live, t: Turn)
    requires GoodBook(s.positions) && (t.Pass? ==> TwoSidedPlan(t.plan))
    ensures AllClose(s.positions, PutOnBook(s, t))
  {
    hide GoodBook, TickLegs, ClosesLive, TwoSidedPlan, TickOn;
    forall l | l in PutOnBook(s, t)
      ensures exists mark: Fingerprint, p: Position :: ClosesLive(s.positions, l, mark, p)
    {
      var o, p := PassLeg(s, t, l);
    }
  }

  /** A turn leaves every position where it is, at its basis, and the book a good one. */
  lemma {:induction false} TurnKeepsBases(s: Live, t: Turn)
    requires GoodBook(s.positions) && (t.Pass? ==> TwoSidedPlan(t.plan))
    ensures var after := Next(s, t).positions;
            && |after| == |s.positions| && GoodBook(after)
            && forall i :: 0 <= i < |after| ==> SameBasis(s.positions[i], after[i])
  {
    hide NettingBook, IdsUnique, PutOnBook, AllClose, TickEntries, AfterAll, TwoSidedPlan, TickOn;
    PassCloses(s, t);
    var after := Next(s, t).positions;
    forall i | 0 <= i < |after|
      ensures SameBasis(s.positions[i], after[i])
    {
      if t.Pass? {
        RereadKeepsBasis(s.positions, PutOnBook(s, t), i);
      }
    }
    BasesKeepGood(s.positions, after);
  }

  // ---- whole runs ----------------------------------------------------------------------------

  /**
   Over any run of passes and restarts on one book, whatever the plans, the venue reads and the raises: no position appears or
   moves its basis, none that was closed opens, and the book stays one open position an instrument and lane. Each pass meets the
   book the statements about a single pass ask for.
   */
  lemma {:induction false} RunKeepsBases(s: Live, turns: seq<Turn>)
    requires GoodBook(s.positions) && forall t :: t in turns && t.Pass? ==> TwoSidedPlan(t.plan)
    ensures var after := RunOn(s, turns).positions;
            && |after| == |s.positions| && GoodBook(after)
            && forall i :: 0 <= i < |after| ==> SameBasis(s.positions[i], after[i])
    decreases |turns|
  {
    hide GoodBook, Next, TwoSidedPlan;
    if turns != [] {
      var n := |turns| - 1;
      assert turns == turns[..n] + [turns[n]] && turns[n] in turns;
      RunKeepsBases(s, turns[..n]);
      TurnKeepsBases(RunOn(s, turns[..n]), turns[n]);
    }
  }

  /** A booking under this fingerprint put a leg on the book, if not all. */
  ghost predicate Touched(s: Live, t: Turn, mark: Fingerprint) {
    && t.Pass? && t.arm
    && exists b :: b in TickPlan(s.ledger, TickOn(s, t)).book && b.fingerprint == mark && Reached(b, t.raises) != []
  }

  ghost predicate Offered(s: Live, t: Turn, mark: Fingerprint) {
    t.Pass? && exists o :: o in TickOn(s, t).orders && o.fingerprint == mark
  }

  /**
   A repair any leg of which reached the book in one pass is not offered by the next, whatever that plans and reads, though the
   first raised half-way and the node restarted in between: the position it closed no longer holds what its fingerprint says.
   */
  lemma {:induction false} NotOfferedNext(s: Live, first: Turn, reboots: seq<Turn>, next: Turn, mark: Fingerprint)
    requires GoodBook(s.positions) && first.Pass? && TwoSidedPlan(first.plan) && Touched(s, first, mark)
    requires (forall t :: t in reboots ==> t.Reboot?) && next.Pass? && TwoSidedPlan(next.plan)
    ensures !Offered(RunOn(Next(s, first), reboots), next, mark)
  {
    hide GoodBook, TwoSidedPlan, PutOnBook, TickEntries, AfterAll, Pins, Touched, Offered;
    RebootsKeepBook(Next(s, first), reboots);
    var p := TouchedMoves(s, first, mark);
    if Offered(RunOn(Next(s, first), reboots), next, mark) {
      OfferedIsLive(RunOn(Next(s, first), reboots), next, mark, p.id, p.qty);
    }
  }

  /** Whatever the fingerprint of an offered repair says a position held, an open one of the book does. */
  lemma {:induction false} OfferedIsLive(s: Live, t: Turn, mark: Fingerprint, id: string, qty: Qty)
    requires t.Pass? && TwoSidedPlan(t.plan) && Offered(s, t, mark) && Pins(mark, id, qty)
    ensures exists q :: q in s.positions && IsOpen(q) && q.id == id && q.qty == qty
  {
    hide TwoSidedPlan, Prepare, Pins, DecideItem, TwoSided;
    var f := ReadBook(s.positions, t.broker, t.resting, t.complete);
    var o :| o in TickOn(s, t).orders && o.fingerprint == mark;
    var x := OrderOf(f, t.plan, o);
    var q := PinnedIsLive(f, x, id, qty);
    IndexFromBook(s.positions);
  }

  /** The fingerprint says that a position held something which is closed now. */
  ghost predicate IsPast(s: Live, mark: Fingerprint) {
    exists p, qty :: p in s.positions && !IsOpen(p) && Pins(mark, p.id, qty)
  }

  /**
   Nor is a repair ever offered again once one of the positions it names is closed, over any run: as after an eviction booked to
   the end, or a pair that closed its smaller leg.
   */
  lemma {:induction false} NeverOfferedAgain(s: Live, turns: seq<Turn>, next: Turn, mark: Fingerprint)
    requires GoodBook(s.positions) && (forall t :: t in turns && t.Pass? ==> TwoSidedPlan(t.plan))
    requires IsPast(s, mark) && next.Pass? && TwoSidedPlan(next.plan)
    ensures !Offered(RunOn(s, turns), next, mark)
  {
    hide GoodBook, TwoSidedPlan, RunOn, Pins, Offered;
    var p, qty :| p in s.positions && !IsOpen(p) && Pins(mark, p.id, qty);
    StaysClosed(s, turns, p);
    if Offered(RunOn(s, turns), next, mark) {
      OfferedIsLive(RunOn(s, turns), next, mark, p.id, qty);
    }
  }

  lemma {:induction false} StaysClosed(s: Live, turns: seq<Turn>, p: Position)
    requires GoodBook(s.positions) && (forall t :: t in turns && t.Pass? ==> TwoSidedPlan(t.plan))
    requires p in s.positions && !IsOpen(p)
    ensures forall q :: q in RunOn(s, turns).positions && q.id == p.id ==> !IsOpen(q)
  {
    hide NettingBook, IdsUnique, TwoSidedPlan, RunOn;
    RunKeepsBases(s, turns);
    var after := RunOn(s, turns).positions;
    forall q | q in after && q.id == p.id
      ensures !IsOpen(q)
    {
      var i :| 0 <= i < |after| && after[i] == q;
      OneOfItsId(s.positions, p, i);
    }
  }

  lemma {:induction false} RebootsKeepBook(s: Live, reboots: seq<Turn>)
    requires forall t :: t in reboots ==> t.Reboot?
    ensures RunOn(s, reboots).positions == s.positions
    decreases |reboots|
  {
    hide Next;
    if reboots != [] {
      var n := |reboots| - 1;
      assert reboots[n] in reboots && forall t :: t in reboots[..n] ==> t in reboots;
      RebootsKeepBook(s, reboots[..n]);
      RebootKeepsBook(RunOn(s, reboots[..n]), reboots[n]);
    }
  }

  lemma {:induction false} RebootKeepsBook(s: Live, t: Turn)
    requires t.Reboot?
    ensures Next(s, t).positions == s.positions
  {
  }

  /** What the fingerprint of a touched order says some position held, no position of its id holds any more. */
  lemma {:induction false} TouchedMoves(s: Live, t: Turn, mark: Fingerprint) returns (p: Position)
    requires GoodBook(s.positions) && t.Pass? && TwoSidedPlan(t.plan) && Touched(s, t, mark)
    ensures Pins(mark, p.id, p.qty)
    ensures forall q :: q in Next(s, t).positions && q.id == p.id ==> q.qty != p.qty
  {
    hide NettingBook, IdsUnique, TwoSidedPlan, PutOnBook, TickEntries, AfterAll, Pins, SignedAt, AllClose, Touched, TickOn;
    var l;
    p, l := TouchedPins(s, t, mark);
    PassCloses(s, t);
    var after := Next(s, t).positions;
    forall q | q in after && q.id == p.id
      ensures q.qty != p.qty
    {
      var i :| 0 <= i < |after| && after[i] == q;
      TurnKeepsBases(s, t);
      OneOfItsId(s.positions, p, i);
      NamedIsMoved(s.positions, PutOnBook(s, t), i);
      RereadKeepsBasis(s.positions, PutOnBook(s, t), i);
    }
  }

  /** A leg that reached the book names a position that the fingerprint of its booking pins. */
  lemma {:induction false} TouchedPins(s: Live, t: Turn, mark: Fingerprint) returns (p: Position, l: Leg)
    requires GoodBook(s.positions) && t.Pass? && TwoSidedPlan(t.plan) && Touched(s, t, mark)
    ensures p in s.positions && p.id == l.positionId && Pins(mark, p.id, p.qty) && l in PutOnBook(s, t)
  {
    hide TwoSidedPlan, Pins, DecideItem, TwoSided, GoodBook, Prepare, Verify, AllById, WellAimed, IsBooked, ReachedAll, Aimed;
    var f := ReadBook(s.positions, t.broker, t.resting, t.complete);
    var tick := TickOn(s, t);
    var b :| b in TickPlan(s.ledger, tick).book && b.fingerprint == mark && Reached(b, t.raises) != [];
    l := b.legs[0];
    assert l in Reached(b, t.raises);
    ReachedIsBooked(TickPlan(s.ledger, tick).book, t.raises, b, l);
    BookedIffAimed(AllById(s.positions), tick.orders, s.ledger, b);
    var o :| o in tick.orders && b == Booking(o.fingerprint, o.instrument, o.legs);
    var x := OrderOf(f, t.plan, o);
    ReadIsOneBook(s.positions, t.broker, t.resting, t.complete);
    ItemPins(s.positions, f, x);
    assert ClosesPinned(s.positions, o, l);
    p :| p in s.positions && p.id == l.positionId && p.qty.Known? && Pins(o.fingerprint, p.id, p.qty);
  }

  lemma {:induction false} ReachedIsBooked(book: seq<Booking>, raises: map<Fingerprint, nat>, b: Booking, l: Leg)
    requires b in book && l in Reached(b, raises)
    ensures l in ReachedAll(book, raises)
    decreases |book|
  {
    hide Reached;
    var n := |book| - 1;
    assert book == book[..n] + [book[n]];
    if b in book[..n] {
      ReachedIsBooked(book[..n], raises, b, l);
    }
  }
}
