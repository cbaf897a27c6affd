/**
 Checking the aim of every leg before it is booked (backend/api/contra_book.py), and the record that keeps a
 repair from being booked twice (backend/api/contra_ledger.py).
 */
module ContraLedger {
  import opened Prelude
  import opened Netting
  import opened ContraClose
  import opened ContraExecute

  // ---- the aim -------------------------------------------------------------------------------

  const BOOKING_TOLERANCE: real := 0.000000001

  datatype AimReason = UnknownPosition | WrongLane | WrongSide | NotEnough

  datatype Booking = Booking(fingerprint: Fingerprint, instrument: string, legs: seq<Leg>)

  datatype AimRefusal = AimRefusal(fingerprint: Fingerprint, instrument: string, reason: AimReason)

  datatype BookingPlan = BookingPlan(book: seq<Booking>, refused: seq<AimRefusal>, alreadyDone: seq<Fingerprint>)

  /** Positions by id, open and closed alike; a later one of the same id wins and an empty id is dropped. */
  function AllById(positions: seq<Position>): map<string, Position> {
    if positions == [] then map[]
    else
      var r := AllById(positions[..|positions| - 1]);
      var p := positions[|positions| - 1];
      if p.id == "" then r else r[p.id := p]
  }

  /** A quantity that is not a number fails every comparison, and so passes every check made with one. */
  predicate WrongWay(side: Side, qty: Qty) {
    qty.Known? && ((side.Buy? && qty.v >= 0.0) || (side.Sell? && qty.v <= 0.0))
  }

  predicate TooSmall(quantity: real, qty: Qty) {
    qty.Known? && Abs(qty.v) + BOOKING_TOLERANCE < quantity
  }

  function LegProblem(byId: map<string, Position>, leg: Leg): Option<AimReason> {
    if leg.positionId !in byId then Some(UnknownPosition)
    else
      var p := byId[leg.positionId];
      if p.strategy != leg.strategy then Some(WrongLane)
      else if WrongWay(leg.side, p.qty) then Some(WrongSide)
      else if TooSmall(leg.quantity, p.qty) then Some(NotEnough)
      else None
  }

  /** The first problem of the legs, in order. */
  function FirstProblem(byId: map<string, Position>, legs: seq<Leg>): Option<AimReason> {
    if legs == [] then None
    else
      var p := LegProblem(byId, legs[0]);
      if p.Some? then p else FirstProblem(byId, legs[1..])
  }

  /** What the orders come to, given which fingerprints are already booked. */
  function Verify(byId: map<string, Position>, orders: seq<RepairOrder>, done: map<Fingerprint, Entry>): BookingPlan {
    if orders == [] then BookingPlan([], [], [])
    else
      var plan := Verify(byId, orders[..|orders| - 1], done);
      var o := orders[|orders| - 1];
      if IsBooked(done, o.fingerprint) then plan.(alreadyDone := plan.alreadyDone + [o.fingerprint])
      else
        var problem := FirstProblem(byId, o.legs);
        if problem.Some? then
          plan.(refused := plan.refused + [AimRefusal(o.fingerprint, o.instrument, problem.value)])
        else plan.(book := plan.book + [Booking(o.fingerprint, o.instrument, o.legs)])
  }

  method IndexById(positions: seq<Position>) returns (byId: map<string, Position>)
    ensures byId == AllById(positions)
  {
    byId := map[];
    for n := 0 to |positions|
      invariant byId == AllById(positions[..n])
    {
      assert positions[..n + 1][..n] == positions[..n];
      if positions[n].id != "" {
        byId := byId[positions[n].id := positions[n]];
      }
    }
    assert positions[..|positions|] == positions;
  }

  method VerifyAndBook(orders: seq<RepairOrder>, positions: seq<Position>, ledger: Ledger) returns (plan: BookingPlan)
    ensures plan == Verify(AllById(positions), orders, ledger.byFingerprint)
  {
    var byId := IndexById(positions);
    var book: seq<Booking>, refused: seq<AimRefusal>, done: seq<Fingerprint> := [], [], [];
    for n := 0 to |orders|
      invariant BookingPlan(book, refused, done) == Verify(byId, orders[..n], ledger.byFingerprint)
    {
      assert orders[..n + 1][..n] == orders[..n];
      var order := orders[n];
      var booked := ledger.AlreadyBooked(order.fingerprint);
      if booked {
        done := done + [order.fingerprint];
        continue;
      }
      var problem: Option<AimReason> := None;
      var k := 0;
      while k < |order.legs| && problem.None?
        invariant 0 <= k <= |order.legs|
        invariant problem.None? ==> FirstProblem(byId, order.legs) == FirstProblem(byId, order.legs[k..])
        invariant problem.Some? ==> FirstProblem(byId, order.legs) == problem
      {
        problem := LegProblem(byId, order.legs[k]);
        k := k + 1;
      }
      if problem.Some? {
        refused := refused + [AimRefusal(order.fingerprint, order.instrument, problem.value)];
      } else {
        book := book + [Booking(order.fingerprint, order.instrument, order.legs)];
      }
    }
    assert orders[..|orders|] == orders;
    return BookingPlan(book, refused, done);
  }

  /** The leg names a live position in its own lane, on the side it closes, holding enough to give back. */
  predicate WellAimed(byId: map<string, Position>, leg: Leg) {
    && leg.positionId in byId
    && byId[leg.positionId].strategy == leg.strategy
    && (byId[leg.positionId].qty.Known? ==>
          var signed := byId[leg.positionId].qty.v;
          && (if leg.side.Buy? then signed < 0.0 else signed > 0.0)
          && leg.quantity <= Abs(signed) + BOOKING_TOLERANCE)
  }

  lemma {:induction false} NoProblemIsAimed(byId: map<string, Position>, legs: seq<Leg>)
    ensures FirstProblem(byId, legs).None? <==> forall l :: l in legs ==> WellAimed(byId, l)
  {
    if legs != [] {
      assert legs[0] in legs && (forall l :: l in legs[1..] ==> l in legs);
      assert forall l :: l in legs ==> l == legs[0] || l in legs[1..];
      assert LegProblem(byId, legs[0]).None? <==> WellAimed(byId, legs[0]);
      NoProblemIsAimed(byId, legs[1..]);
    }
  }

  /** An order is booked exactly when the ledger does not have it and every one of its legs is well aimed. */
  lemma {:induction false} BookedIffAimed(byId: map<string, Position>, orders: seq<RepairOrder>,
                                          done: map<Fingerprint, Entry>, b: Booking)
    ensures b in Verify(byId, orders, done).book <==>
              && (exists o :: o in orders && b == Booking(o.fingerprint, o.instrument, o.legs))
              && !IsBooked(done, b.fingerprint)
              && (forall l :: l in b.legs ==> WellAimed(byId, l))
  {
    if orders != [] {
      var n := |orders| - 1;
      assert orders == orders[..n] + [orders[n]];
      BookedIffAimed(byId, orders[..n], done, b);
      NoProblemIsAimed(byId, b.legs);
      if o :| o in orders && b == Booking(o.fingerprint, o.instrument, o.legs) {
        assert o in orders[..n] || o == orders[n];
      }
      if o :| o in orders[..n] && b == Booking(o.fingerprint, o.instrument, o.legs) {
        assert o in orders;
      }
      NoProblemIsAimed(byId, orders[n].legs);
    }
  }

  // ---- the record ----------------------------------------------------------------------------

  datatype LedgerState = Booked | Refused

  datatype Entry = Entry(fingerprint: Fingerprint, instrument: string, state: LedgerState, detail: string, ts: int,
                         legs: seq<Leg>)

  predicate IsBooked(m: map<Fingerprint, Entry>, fingerprint: Fingerprint) {
    fingerprint in m && m[fingerprint].state.Booked?
  }

  /** A refusal never overwrites a booking. */
  predicate Keeps(m: map<Fingerprint, Entry>, e: Entry) {
    IsBooked(m, e.fingerprint) && !e.state.Booked?
  }

  /** The ledger after recording `e`, and the entry that recording it hands back. */
  function After(m: map<Fingerprint, Entry>, e: Entry): map<Fingerprint, Entry> {
    if Keeps(m, e) then m else m[e.fingerprint := e]
  }

  function HandedBack(m: map<Fingerprint, Entry>, e: Entry): Entry {
    if Keeps(m, e) then m[e.fingerprint] else e
  }

  function Loaded(m: map<Fingerprint, Entry>, entries: seq<Entry>): map<Fingerprint, Entry> {
    if entries == [] then m
    else Loaded(m, entries[..|entries| - 1])[entries[|entries| - 1].fingerprint := entries[|entries| - 1]]
  }

  class Ledger {
    var byFingerprint: map<Fingerprint, Entry>

    constructor ()
      ensures byFingerprint == map[]
    {
      byFingerprint := map[];
    }

    /** Rehydrate from durable storage; later entries win. */
    method Load(entries: seq<Entry>)
      modifies this
      ensures byFingerprint == Loaded(old(byFingerprint), entries)
    {
      for n := 0 to |entries|
        invariant byFingerprint == Loaded(old(byFingerprint), entries[..n])
      {
        assert entries[..n + 1][..n] == entries[..n];
        byFingerprint := byFingerprint[entries[n].fingerprint := entries[n]];
      }
      assert entries[..|entries|] == entries;
    }

    method AlreadyBooked(fingerprint: Fingerprint) returns (booked: bool)
      ensures booked == IsBooked(byFingerprint, fingerprint)
    {
      booked := fingerprint in byFingerprint && byFingerprint[fingerprint].state.Booked?;
    }

    method Record(e: Entry) returns (kept: Entry)
      modifies this
      ensures byFingerprint == After(old(byFingerprint), e)
      ensures kept == HandedBack(old(byFingerprint), e)
      ensures byFingerprint[e.fingerprint] == kept
    {
      if e.fingerprint in byFingerprint && byFingerprint[e.fingerprint].state.Booked? && !e.state.Booked? {
        return byFingerprint[e.fingerprint];
      }
      byFingerprint := byFingerprint[e.fingerprint := e];
      return e;
    }
  }

  // ---- what recording and loading keep -------------------------------------------------------

  function AfterAll(m: map<Fingerprint, Entry>, es: seq<Entry>): map<Fingerprint, Entry> {
    if es == [] then m else After(AfterAll(m, es[..|es| - 1]), es[|es| - 1])
  }

  /** What recording the entries one after another hands back. */
  function HandedBackAll(m: map<Fingerprint, Entry>, es: seq<Entry>): seq<Entry> {
    if es == [] then []
    else HandedBackAll(m, es[..|es| - 1]) + [HandedBack(AfterAll(m, es[..|es| - 1]), es[|es| - 1])]
  }

  /** Every entry sits under its own fingerprint. */
  predicate WellKeyed(m: map<Fingerprint, Entry>) {
    forall f :: f in m ==> m[f].fingerprint == f
  }

  lemma {:induction false} LoadedIsKeyed(m: map<Fingerprint, Entry>, entries: seq<Entry>)
    requires WellKeyed(m)
    ensures WellKeyed(Loaded(m, entries))
  {
    if entries != [] {
      LoadedIsKeyed(m, entries[..|entries| - 1]);
    }
  }

  /** Recording and reloading agree: the entries handed back, loaded, are the live ledger. */
  lemma {:induction false} LoadRebuilds(m: map<Fingerprint, Entry>, journal: seq<Entry>, es: seq<Entry>)
    requires Loaded(map[], journal) == m
    ensures Loaded(map[], journal + HandedBackAll(m, es)) == AfterAll(m, es)
  {
    if es == [] {
      assert journal + [] == journal;
    } else {
      var n := |es| - 1;
      LoadRebuilds(m, journal, es[..n]);
      var init := journal + HandedBackAll(m, es[..n]);
      var live := AfterAll(m, es[..n]);
      var e := HandedBack(live, es[n]);
      assert journal + HandedBackAll(m, es) == init + [e];
      assert (init + [e])[..|init|] == init;
      LoadedIsKeyed(map[], init);
      if Keeps(live, es[n]) {
        assert live[e.fingerprint := e] == live;
      }
    }
  }

  predicate HasEntry(es: seq<Entry>, f: Fingerprint) {
    exists e :: e in es && e.fingerprint == f
  }

  predicate HasBooking(es: seq<Entry>, f: Fingerprint) {
    exists e :: e in es && e.fingerprint == f && e.state.Booked?
  }

  /** BOOKED is absorbing: nothing recorded afterwards undoes a booking, and only a booking makes one. */
  lemma {:induction false} BookedIsAbsorbing(m: map<Fingerprint, Entry>, es: seq<Entry>, f: Fingerprint)
    ensures IsBooked(AfterAll(m, es), f) <==> IsBooked(m, f) || HasBooking(es, f)
  {
    if es != [] {
      var n := |es| - 1;
      BookedIsAbsorbing(m, es[..n], f);
      assert es == es[..n] + [es[n]];
      HasBookingAppend(es[..n], es[n], f);
      RecordedLast(AfterAll(m, es[..n]), es[n], f);
      hide HasBooking, IsBooked, After;
    }
  }

  lemma {:induction false} RecordedLast(m: map<Fingerprint, Entry>, e: Entry, f: Fingerprint)
    ensures IsBooked(After(m, e), f) <==> IsBooked(m, f) || (e.fingerprint == f && e.state.Booked?)
  {
  }

  lemma {:induction false} HasBookingAppend(es: seq<Entry>, e: Entry, f: Fingerprint)
    ensures HasBooking(es + [e], f) <==> HasBooking(es, f) || (e.fingerprint == f && e.state.Booked?)
  {
    if HasBooking(es, f) {
      var x :| x in es && x.fingerprint == f && x.state.Booked?;
      assert x in es + [e];
    }
    if e.fingerprint == f {
      assert e in es + [e];
    }
  }

  /** Loading a list on top of another: what the list mentions is as it would be loaded alone, the rest stays. */
  lemma {:induction false} LoadedOver(m: map<Fingerprint, Entry>, entries: seq<Entry>, f: Fingerprint)
    ensures f in Loaded(map[], entries) <==> HasEntry(entries, f)
    ensures IsBooked(Loaded(m, entries), f)
       <==> if HasEntry(entries, f) then IsBooked(Loaded(map[], entries), f) else IsBooked(m, f)
  {
    if entries != [] {
      var n := |entries| - 1;
      LoadedOver(m, entries[..n], f);
      HasEntryAppend(entries[..n], entries[n], f);
      assert entries == entries[..n] + [entries[n]];
      hide HasEntry;
    }
  }

  lemma {:induction false} LoadedConcat(m: map<Fingerprint, Entry>, a: seq<Entry>, b: seq<Entry>)
    ensures Loaded(m, a + b) == Loaded(Loaded(m, a), b)
    decreases |b|
  {
    if b == [] {
      assert a + b == a;
    } else {
      var n := |b| - 1;
      assert (a + b)[..|a + b| - 1] == a + b[..n];
      LoadedConcat(m, a, b[..n]);
    }
  }

  /** What recording hands back mentions exactly what was recorded. */
  lemma {:induction false} HandedBackEntries(m: map<Fingerprint, Entry>, es: seq<Entry>, f: Fingerprint)
    requires WellKeyed(m)
    ensures HasEntry(HandedBackAll(m, es), f) <==> HasEntry(es, f)
    ensures WellKeyed(AfterAll(m, es))
  {
    if es != [] {
      var n := |es| - 1;
      HandedBackEntries(m, es[..n], f);
      var init, e := HandedBackAll(m, es[..n]), HandedBack(AfterAll(m, es[..n]), es[n]);
      assert e.fingerprint == es[n].fingerprint;
      HasEntryAppend(init, e, f);
      HasEntryAppend(es[..n], es[n], f);
      assert es == es[..n] + [es[n]];
    }
  }

  lemma {:induction false} HasEntryAppend(es: seq<Entry>, e: Entry, f: Fingerprint)
    ensures HasEntry(es + [e], f) <==> HasEntry(es, f) || e.fingerprint == f
  {
    if HasEntry(es, f) {
      var x :| x in es && x.fingerprint == f;
      assert x in es + [e];
    }
    if e.fingerprint == f {
      assert e in es + [e];
    }
  }

  /**
   What a journal of handed-back entries is worth when the second of two boots did not load the first one's: a booking of
   the first boot survives the next load exactly when the second boot said nothing of it, or booked it again. A refusal of the
   second boot, which had nothing to protect, erases it.
   */
  lemma {:induction false} LoadAcrossBoots(first: seq<Entry>, second: seq<Entry>, f: Fingerprint)
    ensures IsBooked(Loaded(map[], HandedBackAll(map[], first) + HandedBackAll(map[], second)), f)
       <==> if HasEntry(second, f) then HasBooking(second, f) else HasBooking(first, f)
  {
    hide AfterAll, HandedBackAll, Loaded, IsBooked, HasEntry, HasBooking;
    var a, b := HandedBackAll(map[], first), HandedBackAll(map[], second);
    NothingRecorded();
    LoadedConcat(map[], a, b);
    LoadedOver(Loaded(map[], a), b, f);
    LoadRebuilds(map[], [], first);
    LoadRebuilds(map[], [], second);
    assert [] + a == a && [] + b == b;
    BookedIsAbsorbing(map[], first, f);
    BookedIsAbsorbing(map[], second, f);
    HandedBackEntries(map[], second, f);
  }

  lemma {:induction false} NothingRecorded()
    ensures Loaded(map[], []) == map[]
    ensures forall m :: AfterAll(m, []) == m && HandedBackAll(m, []) == []
    ensures forall f :: !IsBooked(map[], f)
  {
  }

  /**
   Storing what was offered to `record` instead of what it handed back loses a booking exactly when the last thing said of it
   was not a booking: then the ledger knows the repair is done, and what is loaded from the store does not.
   */
  lemma {:induction false} StoringWhatWasOffered(es: seq<Entry>, f: Fingerprint)
    ensures IsBooked(Loaded(map[], es), f) ==> IsBooked(AfterAll(map[], es), f)
    ensures IsBooked(AfterAll(map[], es), f) && !IsBooked(Loaded(map[], es), f)
       <==> HasBooking(es, f) && exists k :: 0 <= k < |es| && LastOf(es, k, f) && !es[k].state.Booked?
  {
    hide Loaded, AfterAll;
    BookedIsAbsorbing(map[], es, f);
    NothingRecorded();
    LastIsLoaded(es, f);
    if j, k :| 0 <= j < |es| && 0 <= k < |es| && LastOf(es, j, f) && LastOf(es, k, f) {
      assert forall i :: 0 <= i < |es| && LastOf(es, i, f) ==> i == j;
    }
    if HasBooking(es, f) {
      var e :| e in es && e.fingerprint == f && e.state.Booked?;
      assert HasEntry(es, f);
    }
    if IsBooked(Loaded(map[], es), f) {
      var k :| 0 <= k < |es| && LastOf(es, k, f) && es[k].state.Booked?;
      assert es[k] in es;
    }
  }

  /** The last entry for this fingerprint is the one at `k`. */
  predicate LastOf(es: seq<Entry>, k: nat, f: Fingerprint) {
    k < |es| && es[k].fingerprint == f && forall j :: k < j < |es| ==> es[j].fingerprint != f
  }

  lemma {:induction false} LastIsLoaded(es: seq<Entry>, f: Fingerprint)
    ensures IsBooked(Loaded(map[], es), f) <==> exists k :: 0 <= k < |es| && LastOf(es, k, f) && es[k].state.Booked?
    ensures HasEntry(es, f) ==> exists k :: 0 <= k < |es| && LastOf(es, k, f)
  {
    if es != [] {
      var n := |es| - 1;
      assert es == es[..n] + [es[n]];
      LastIsLoaded(es[..n], f);
      if es[n].fingerprint == f {
        assert LastOf(es, n, f);
      } else {
        forall k | 0 <= k < n
          ensures LastOf(es, k, f) <==> LastOf(es[..n], k, f)
        {
        }
      }
    }
  }
}
