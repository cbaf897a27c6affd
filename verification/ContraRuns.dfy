/**
 The repair as the node runs it (backend/api/engine_node.py:5535-5597), over whole runs of ticks and restarts. The node
 builds an empty ledger when it starts (engine_node.py:1196) and stores nothing of what recording hands back, so a restart
 forgets every booking; what a caller that stores and reloads would have is proved beside it.
 */
module ContraRuns {
  import opened Prelude
  import opened Netting
  import opened ContraClose
  import opened ContraExecute
  import opened ContraLedger

  /** What one tick reads: the execution plan, the position book, the switch, and the leg at which a booking raises. */
  datatype Tick = Tick(orders: seq<RepairOrder>, positions: seq<Position>, arm: bool, raises: map<Fingerprint, nat>,
                       now: int)

  predicate Raises(b: Booking, raises: map<Fingerprint, nat>) {
    b.fingerprint in raises && raises[b.fingerprint] < |b.legs|
  }

  /** The legs of a booking that reach the position book: all of them, or those before the one that raised. */
  function Reached(b: Booking, raises: map<Fingerprint, nat>): seq<Leg> {
    if Raises(b, raises) then b.legs[..raises[b.fingerprint]] else b.legs
  }

  function ReachedAll(book: seq<Booking>, raises: map<Fingerprint, nat>): seq<Leg> {
    if book == [] then []
    else ReachedAll(book[..|book| - 1], raises) + Reached(book[|book| - 1], raises)
  }

  /** The fingerprints of the bookings that ran to the end. */
  function Completed(book: seq<Booking>, raises: map<Fingerprint, nat>): seq<Fingerprint> {
    if book == [] then []
    else Completed(book[..|book| - 1], raises)
         + (if Raises(book[|book| - 1], raises) then [] else [book[|book| - 1].fingerprint])
  }

  function RefusalEntries(refused: seq<AimRefusal>, now: int): (r: seq<Entry>)
    ensures |r| == |refused|
    ensures forall i :: 0 <= i < |r| ==> r[i].fingerprint == refused[i].fingerprint && r[i].state == LedgerState.Refused
  {
    seq(|refused|, i requires 0 <= i < |refused| =>
      Entry(refused[i].fingerprint, refused[i].instrument, LedgerState.Refused, "aim", now, []))
  }

  function BookingEntries(book: seq<Booking>, raises: map<Fingerprint, nat>, now: int): (r: seq<Entry>)
    ensures |r| == |book|
    ensures forall i :: 0 <= i < |r| ==>
              r[i].fingerprint == book[i].fingerprint && (r[i].state.Booked? <==> !Raises(book[i], raises))
  {
    seq(|book|, i requires 0 <= i < |book| =>
      if Raises(book[i], raises)
      then Entry(book[i].fingerprint, book[i].instrument, LedgerState.Refused, "booking raised", now, [])
      else Entry(book[i].fingerprint, book[i].instrument, Booked, "", now, book[i].legs))
  }

  function TickPlan(ledger: map<Fingerprint, Entry>, t: Tick): BookingPlan {
    Verify(AllById(t.positions), t.orders, ledger)
  }

  /** What one tick records: every refusal, then, when armed, every booking as it went. */
  function TickEntries(ledger: map<Fingerprint, Entry>, t: Tick): seq<Entry> {
    RefusalEntries(TickPlan(ledger, t).refused, t.now)
    + (if t.arm then BookingEntries(TickPlan(ledger, t).book, t.raises, t.now) else [])
  }

  /** The fingerprints whose legs a tick books to the end. */
  function TickBookings(ledger: map<Fingerprint, Entry>, t: Tick): seq<Fingerprint> {
    if t.arm then Completed(TickPlan(ledger, t).book, t.raises) else []
  }

  /** The legs a tick puts on the position book. */
  function TickLegs(ledger: map<Fingerprint, Entry>, t: Tick): seq<Leg> {
    if t.arm then ReachedAll(TickPlan(ledger, t).book, t.raises) else []
  }

  // ---- one tick, in place --------------------------------------------------------------------

  /** The position cache, as the internal fills move it. */
  class PositionBook {
    var holdings: seq<Holding>

    constructor (holdings: seq<Holding>)
      ensures this.holdings == holdings
    {
      this.holdings := holdings;
    }

    method BookLeg(leg: Leg)
      modifies this
      ensures holdings == ApplyLeg(old(holdings), leg)
    {
      var i := Find(holdings, leg.positionId);
      if i < |holdings| {
        holdings := holdings[i := Move(holdings[i], leg)];
      } else {
        holdings := holdings + [Holding(leg.instrument, leg.strategy, leg.positionId, leg.Signed(), leg.price, 0.0)];
      }
    }

    /** The legs of one booking, up to the one that raises. */
    method BookLegs(b: Booking, raises: map<Fingerprint, nat>) returns (raised: bool)
      modifies this
      ensures raised == Raises(b, raises)
      ensures holdings == ApplyAll(old(holdings), Reached(b, raises))
    {
      var n := 0;
      while n < |b.legs|
        invariant n <= |b.legs| && (Raises(b, raises) ==> n <= raises[b.fingerprint])
        invariant holdings == ApplyAll(old(holdings), b.legs[..n])
      {
        if b.fingerprint in raises && raises[b.fingerprint] == n {
          return true;
        }
        assert b.legs[..n + 1] == b.legs[..n] + [b.legs[n]];
        ApplyAllConcat(old(holdings), b.legs[..n], [b.legs[n]]);
        ApplyOne(holdings, b.legs[n]);
        BookLeg(b.legs[n]);
        n := n + 1;
      }
      assert b.legs[..n] == b.legs;
      return false;
    }
  }

  lemma {:induction false} ApplyOne(book: seq<Holding>, leg: Leg)
    ensures ApplyAll(book, [leg]) == ApplyLeg(book, leg)
  {
    assert [leg][1..] == [];
    assert ApplyAll(ApplyLeg(book, leg), []) == ApplyLeg(book, leg);
  }

  /** One tick of the running node: refusals are recorded first, then, when armed, each booking in turn is put on the book. */
  method RunBookRepair(ledger: Ledger, cache: PositionBook, t: Tick) returns (booked: seq<Fingerprint>)
    modifies ledger, cache
    ensures ledger.byFingerprint == AfterAll(old(ledger.byFingerprint), TickEntries(old(ledger.byFingerprint), t))
    ensures cache.holdings == ApplyAll(old(cache.holdings), TickLegs(old(ledger.byFingerprint), t))
    ensures booked == TickBookings(old(ledger.byFingerprint), t)
  {
    hide Verify, AfterAll, Completed, After, ReachedAll, Reached, Raises, ApplyAll;
    ghost var before, holdings := ledger.byFingerprint, cache.holdings;
    var plan := VerifyAndBook(t.orders, t.positions, ledger);
    var refusals := RefusalEntries(plan.refused, t.now);
    ghost var recorded: seq<Entry> := [];
    booked := [];
    NothingHappens(before, holdings, t.raises);
    for n := 0 to |refusals|
      invariant recorded == refusals[..n] && cache.holdings == holdings
      invariant ledger.byFingerprint == AfterAll(before, recorded)
    {
      RecordStep(before, recorded, refusals[n]);
      var _ := ledger.Record(refusals[n]);
      recorded := recorded + [refusals[n]];
    }
    assert recorded == refusals;
    if t.arm {
      var entries := BookingEntries(plan.book, t.raises, t.now);
      for n := 0 to |plan.book|
        invariant recorded == refusals + entries[..n]
        invariant ledger.byFingerprint == AfterAll(before, recorded)
        invariant cache.holdings == ApplyAll(holdings, ReachedAll(plan.book[..n], t.raises))
        invariant booked == Completed(plan.book[..n], t.raises)
      {
        LastBooking(plan.book, t.raises, n);
        ApplyAllConcat(holdings, ReachedAll(plan.book[..n], t.raises), Reached(plan.book[n], t.raises));
        var raised := cache.BookLegs(plan.book[n], t.raises);
        if !raised {
          booked := booked + [plan.book[n].fingerprint];
        }
        RecordStep(before, recorded, entries[n]);
        var _ := ledger.Record(entries[n]);
        recorded := recorded + [entries[n]];
      }
      assert entries[..|entries|] == entries && plan.book[..|plan.book|] == plan.book;
    }
    assert recorded == TickEntries(before, t);
  }

  lemma {:induction false} NothingHappens(m: map<Fingerprint, Entry>, book: seq<Holding>, raises: map<Fingerprint, nat>)
    ensures AfterAll(m, []) == m && ApplyAll(book, []) == book
    ensures Completed([], raises) == [] && ReachedAll([], raises) == []
  {
  }

  lemma {:induction false} RecordStep(m: map<Fingerprint, Entry>, es: seq<Entry>, e: Entry)
    ensures AfterAll(m, es + [e]) == After(AfterAll(m, es), e)
  {
    assert (es + [e])[..|es|] == es;
  }

  lemma {:induction false} LastBooking(book: seq<Booking>, raises: map<Fingerprint, nat>, n: nat)
    requires n < |book|
    ensures Completed(book[..n + 1], raises)
         == Completed(book[..n], raises) + (if Raises(book[n], raises) then [] else [book[n].fingerprint])
    ensures ReachedAll(book[..n + 1], raises) == ReachedAll(book[..n], raises) + Reached(book[n], raises)
  {
    assert book[..n + 1][..n] == book[..n];
  }

  // ---- what one tick books -------------------------------------------------------------------

  lemma {:induction false} CompletedMembers(book: seq<Booking>, raises: map<Fingerprint, nat>, f: Fingerprint)
    ensures f in Completed(book, raises) <==> exists b :: b in book && b.fingerprint == f && !Raises(b, raises)
  {
    if book != [] {
      var n := |book| - 1;
      assert book == book[..n] + [book[n]];
      CompletedMembers(book[..n], raises, f);
      if b :| b in book && b.fingerprint == f && !Raises(b, raises) {
        assert b in book[..n] || b == book[n];
      }
      assert book[n] in book && forall b :: b in book[..n] ==> b in book;
    }
  }

  /** The tick has an order under this fingerprint that is well aimed, and booking it does not raise. */
  predicate Offers(t: Tick, f: Fingerprint) {
    && t.arm
    && exists o :: o in t.orders && o.fingerprint == f && !Raises(Booking(f, o.instrument, o.legs), t.raises)
                   && forall l :: l in o.legs ==> WellAimed(AllById(t.positions), l)
  }

  /** A tick books a fingerprint to the end exactly when it offers it and the ledger does not have it. */
  lemma {:induction false} TickBooksIff(ledger: map<Fingerprint, Entry>, t: Tick, f: Fingerprint)
    ensures f in TickBookings(ledger, t) <==> !IsBooked(ledger, f) && Offers(t, f)
  {
    hide Verify, Completed, IsBooked, WellAimed, AllById, Raises;
    var book := TickPlan(ledger, t).book;
    CompletedMembers(book, t.raises, f);
    if b :| b in book && b.fingerprint == f && !Raises(b, t.raises) {
      BookedIffAimed(AllById(t.positions), t.orders, ledger, b);
    }
    if o :| o in t.orders && o.fingerprint == f && !Raises(Booking(f, o.instrument, o.legs), t.raises)
            && forall l :: l in o.legs ==> WellAimed(AllById(t.positions), l) {
      BookedIffAimed(AllById(t.positions), t.orders, ledger, Booking(f, o.instrument, o.legs));
    }
  }

  /** A tick's entries mark a fingerprint booked exactly when the tick books it to the end. */
  lemma {:induction false} EntriesMarkBookings(ledger: map<Fingerprint, Entry>, t: Tick, f: Fingerprint)
    ensures HasBooking(TickEntries(ledger, t), f) <==> f in TickBookings(ledger, t)
  {
    hide Verify, Completed, Raises;
    var plan := TickPlan(ledger, t);
    CompletedMembers(plan.book, t.raises, f);
    var refused, book := RefusalEntries(plan.refused, t.now), BookingEntries(plan.book, t.raises, t.now);
    if HasBooking(TickEntries(ledger, t), f) {
      var e :| e in TickEntries(ledger, t) && e.fingerprint == f && e.state.Booked?;
      assert e !in refused;
      assert e in book && t.arm;
      var i :| 0 <= i < |book| && book[i] == e;
      assert plan.book[i] in plan.book;
    }
    if f in TickBookings(ledger, t) {
      var b :| b in plan.book && b.fingerprint == f && !Raises(b, t.raises);
      var i :| 0 <= i < |plan.book| && plan.book[i] == b;
      assert book[i] in book && book[i] in TickEntries(ledger, t);
    }
  }

  predicate DistinctOrders(orders: seq<RepairOrder>) {
    forall i, j :: 0 <= i < j < |orders| ==> orders[i].fingerprint != orders[j].fingerprint
  }

  /** How many bookings of one pass, and how many well-aimed orders of the plan, stand under one fingerprint. */
  function BookingsOf(book: seq<Booking>, f: Fingerprint): nat {
    if book == [] then 0
    else BookingsOf(book[..|book| - 1], f) + (if book[|book| - 1].fingerprint == f then 1 else 0)
  }

  predicate AimedOrder(byId: map<string, Position>, o: RepairOrder, f: Fingerprint) {
    o.fingerprint == f && FirstProblem(byId, o.legs).None?
  }

  function AimedOrders(byId: map<string, Position>, orders: seq<RepairOrder>, f: Fingerprint): nat {
    if orders == [] then 0
    else AimedOrders(byId, orders[..|orders| - 1], f) + (if AimedOrder(byId, orders[|orders| - 1], f) then 1 else 0)
  }

  /**
   One pass reads the ledger before it books anything, so it books a fingerprint the ledger does not have as often as the
   plan has a well-aimed order under it.
   */
  lemma {:induction false} BookedAsOftenAsOffered(byId: map<string, Position>, orders: seq<RepairOrder>,
                                                  done: map<Fingerprint, Entry>, f: Fingerprint)
    ensures BookingsOf(Verify(byId, orders, done).book, f) == if IsBooked(done, f) then 0 else AimedOrders(byId, orders, f)
  {
    hide Verify, AimedOrder, IsBooked;
    if orders == [] {
      assert Verify(byId, [], done).book == [] by {
        NothingToVerify(byId, done);
      }
    } else {
      BookedAsOftenAsOffered(byId, orders[..|orders| - 1], done, f);
      VerifyStep(byId, orders, done, f);
    }
  }

  lemma {:induction false} NothingToVerify(byId: map<string, Position>, done: map<Fingerprint, Entry>)
    ensures Verify(byId, [], done).book == []
  {
  }

  lemma {:induction false} VerifyStep(byId: map<string, Position>, orders: seq<RepairOrder>,
                                      done: map<Fingerprint, Entry>, f: Fingerprint)
    requires orders != []
    ensures var n := |orders| - 1;
            BookingsOf(Verify(byId, orders, done).book, f)
            == BookingsOf(Verify(byId, orders[..n], done).book, f)
               + (if AimedOrder(byId, orders[n], f) && !IsBooked(done, f) then 1 else 0)
  {
    hide FirstProblem, IsBooked;
    var n := |orders| - 1;
    var init, o := Verify(byId, orders[..n], done).book, orders[n];
    var b := Booking(o.fingerprint, o.instrument, o.legs);
    assert (init + [b])[..|init|] == init;
  }

  lemma {:induction false} TwoAimed(byId: map<string, Position>, orders: seq<RepairOrder>, f: Fingerprint)
    ensures AimedOrders(byId, orders, f) >= 1 <==> exists i :: 0 <= i < |orders| && AimedOrder(byId, orders[i], f)
    ensures AimedOrders(byId, orders, f) >= 2 <==>
              exists i, j :: 0 <= i < j < |orders| && AimedOrder(byId, orders[i], f) && AimedOrder(byId, orders[j], f)
  {
    hide AimedOrder;
    if orders != [] {
      var n := |orders| - 1;
      TwoAimed(byId, orders[..n], f);
      assert forall i :: 0 <= i < n ==> orders[..n][i] == orders[i];
    }
  }

  /**
   Of the aim check alone: a list of orders has a fingerprint booked twice in one pass exactly when the ledger does not have it
   and two orders of the list stand under it, each with all its legs well aimed.
   */
  lemma {:induction false} BookedTwiceIff(byId: map<string, Position>, orders: seq<RepairOrder>,
                                          done: map<Fingerprint, Entry>, f: Fingerprint)
    ensures BookingsOf(Verify(byId, orders, done).book, f) >= 2 <==>
              && !IsBooked(done, f)
              && exists i, j :: 0 <= i < j < |orders| && AimedOrder(byId, orders[i], f) && AimedOrder(byId, orders[j], f)
  {
    BookedAsOftenAsOffered(byId, orders, done, f);
    TwoAimed(byId, orders, f);
  }

  lemma {:induction false} CompletedCount(book: seq<Booking>, raises: map<Fingerprint, nat>, f: Fingerprint)
    ensures multiset(Completed(book, raises))[f] <= BookingsOf(book, f)
  {
    hide Raises;
    if book != [] {
      var n := |book| - 1;
      CompletedCount(book[..n], raises, f);
      var init := Completed(book[..n], raises);
      assert multiset(init + [book[n].fingerprint]) == multiset(init) + multiset{book[n].fingerprint};
      assert Completed(book, raises) == init || Completed(book, raises) == init + [book[n].fingerprint] by {
        assert init + [] == init;
      }
    }
  }

  /** With distinct fingerprints in the plan, one tick books each at most once. */
  lemma {:induction false} BookedOncePerTick(ledger: map<Fingerprint, Entry>, t: Tick, f: Fingerprint)
    requires DistinctOrders(t.orders)
    ensures multiset(TickBookings(ledger, t))[f] == if f in TickBookings(ledger, t) then 1 else 0
  {
    hide Verify, Completed, IsBooked, FirstProblem;
    var byId := AllById(t.positions);
    CompletedCount(TickPlan(ledger, t).book, t.raises, f);
    BookedTwiceIff(byId, t.orders, ledger, f);
    assert forall i, j :: 0 <= i < j < |t.orders| ==>
      !(AimedOrder(byId, t.orders[i], f) && AimedOrder(byId, t.orders[j], f));
  }

  // ---- runs ----------------------------------------------------------------------------------

  datatype Event = Repair(tick: Tick) | Restart

  /** The ledger in memory, the complete bookings of earlier boots, and those of this one. */
  datatype World = World(ledger: map<Fingerprint, Entry>, earlier: seq<Fingerprint>, bookings: seq<Fingerprint>)
  {
    function Ever(): seq<Fingerprint> {
      earlier + bookings
    }
  }

  const BOOT := World(map[], [], [])

  function Step(w: World, e: Event): World {
    match e
    case Repair(t) =>
      World(AfterAll(w.ledger, TickEntries(w.ledger, t)), w.earlier, w.bookings + TickBookings(w.ledger, t))
    case Restart => World(map[], w.Ever(), [])
  }

  function Run(events: seq<Event>): World {
    if events == [] then BOOT else Step(Run(events[..|events| - 1]), events[|events| - 1])
  }

  function Restarts(events: seq<Event>): nat {
    if events == [] then 0
    else Restarts(events[..|events| - 1]) + (if events[|events| - 1].Restart? then 1 else 0)
  }

  /** In every reachable state the ledger says exactly what has been booked since the node started. */
  lemma {:induction false} LedgerTells(events: seq<Event>, f: Fingerprint)
    ensures IsBooked(Run(events).ledger, f) <==> f in Run(events).bookings
  {
    if events != [] {
      var n := |events| - 1;
      LedgerTells(events[..n], f);
      var w := Run(events[..n]);
      match events[n]
      case Repair(t) =>
        EntriesMarkBookings(w.ledger, t, f);
        BookedIsAbsorbing(w.ledger, TickEntries(w.ledger, t), f);
        hide TickEntries, TickBookings, HasBooking, IsBooked, AfterAll;
      case Restart =>
    }
  }

  /** After any run, a tick books a fingerprint exactly when it offers it and this boot has not booked it yet. */
  lemma {:induction false} BookedNextIff(events: seq<Event>, t: Tick, f: Fingerprint)
    ensures f in TickBookings(Run(events).ledger, t) <==> f !in Run(events).bookings && Offers(t, f)
  {
    LedgerTells(events, f);
    TickBooksIff(Run(events).ledger, t, f);
  }

  predicate EveryTickDistinct(events: seq<Event>) {
    forall i :: 0 <= i < |events| && events[i].Repair? ==> DistinctOrders(events[i].tick.orders)
  }

  /**
   Repair at most once between restarts: over any run of ticks, refusals, raised bookings and restarts, whose plans have
   distinct fingerprints, no fingerprint is booked to the end twice in one boot, and the ledger says which have been; so over
   the whole run it is booked at most once more than there were restarts.
   */
  lemma {:induction false} RepairedAtMostOnce(events: seq<Event>, f: Fingerprint)
    requires EveryTickDistinct(events)
    ensures multiset(Run(events).bookings)[f] == (if IsBooked(Run(events).ledger, f) then 1 else 0)
    ensures multiset(Run(events).earlier)[f] <= Restarts(events)
    ensures multiset(Run(events).Ever())[f] <= 1 + Restarts(events)
  {
    LedgerTells(events, f);
    if events != [] {
      var n := |events| - 1;
      RepairedAtMostOnce(events[..n], f);
      var w := Run(events[..n]);
      match events[n]
      case Repair(t) =>
        BookedOncePerTick(w.ledger, t, f);
        BookedNextIff(events[..n], t, f);
        hide TickEntries, TickBookings, AfterAll, Offers, IsBooked;
        assert multiset(w.bookings + TickBookings(w.ledger, t)) == multiset(w.bookings) + multiset(TickBookings(w.ledger, t));
      case Restart =>
        assert multiset(w.Ever()) == multiset(w.earlier) + multiset(w.bookings);
    }
    assert multiset(Run(events).Ever()) == multiset(Run(events).earlier) + multiset(Run(events).bookings);
  }

  // ---- what a restart forgets ----------------------------------------------------------------

  /**
   The ledger is meant to keep a repair from running again in the next process, and nothing stores it: right after a restart
   a fingerprint, booked before or not, is booked exactly when an armed tick offers it, its legs are well aimed and its
   booking does not raise.
   */
  lemma {:induction false} RestartForgets(events: seq<Event>, t: Tick, f: Fingerprint)
    ensures Run(events + [Restart]).Ever() == Run(events).Ever()
    ensures f in TickBookings(Run(events + [Restart]).ledger, t) <==> Offers(t, f)
    ensures f in Run(events).Ever() && Offers(t, f) ==>
              multiset(Run(events + [Restart] + [Repair(t)]).Ever())[f] >= 2
  {
    hide Offers, TickEntries, TickBookings, AfterAll;
    var all := events + [Restart];
    RunNext(events, Restart);
    RunNext(all, Repair(t));
    BookedNextIff(all, t, f);
    var w := Run(all);
    assert w.Ever() == Run(events).Ever() + [] == Run(events).Ever();
    if f in Run(events).Ever() && f in TickBookings(w.ledger, t) {
      BookedOnTop(w, t, f);
    }
  }

  lemma {:induction false} RunNext(events: seq<Event>, e: Event)
    ensures Run(events + [e]) == Step(Run(events), e)
  {
    hide Step;
    assert (events + [e])[..|events|] == events;
  }

  lemma {:induction false} BookedOnTop(w: World, t: Tick, f: Fingerprint)
    requires f in w.Ever() && f in TickBookings(w.ledger, t)
    ensures multiset(Step(w, Repair(t)).Ever())[f] >= 2
  {
    hide TickEntries, TickBookings, AfterAll;
    var b := TickBookings(w.ledger, t);
    assert w.earlier + (w.bookings + b) == w.Ever() + b;
    assert multiset(w.Ever() + b) == multiset(w.Ever()) + multiset(b);
    assert f in multiset(w.Ever()) && f in multiset(b);
  }

  /** Until the next restart it is then booked no more, whatever is offered. */
  lemma {:induction false} BookedStaysBooked(events: seq<Event>, later: seq<Tick>, t: Tick, f: Fingerprint)
    requires f in Run(events).bookings
    ensures f in Run(events + Repairs(later)).bookings
    ensures f !in TickBookings(Run(events + Repairs(later)).ledger, t)
    decreases |later|
  {
    hide TickEntries, TickBookings, AfterAll, Step;
    var all := events + Repairs(later);
    if later == [] {
      assert all == events;
    } else {
      var n := |later| - 1;
      BookedStaysBooked(events, later[..n], t, f);
      var init := events + Repairs(later[..n]);
      assert all == init + [Repair(later[n])];
      RunNext(init, Repair(later[n]));
      RepairStep(Run(init), later[n]);
    }
    BookedNextIff(all, t, f);
  }

  function Repairs(ticks: seq<Tick>): (r: seq<Event>)
    ensures |r| == |ticks|
    ensures forall i :: 0 <= i < |r| ==> r[i] == Repair(ticks[i])
  {
    seq(|ticks|, i requires 0 <= i < |ticks| => Repair(ticks[i]))
  }

  /** An order over one long and one short of a single share. */
  function WitnessOrder(): RepairOrder {
    PairOrder(PairOf("CGAU.XNYS", WitnessLeg("1", 1.0), WitnessLeg("2", -1.0), 1.0, 0.0))
  }

  function WitnessTick(): Tick {
    Tick([WitnessOrder()], [WitnessLeg("1", 1.0), WitnessLeg("2", -1.0)], true, map[], 0)
  }

  lemma {:induction false} WitnessOffers()
    ensures Offers(WitnessTick(), WitnessOrder().fingerprint)
  {
    var t, o := WitnessTick(), WitnessOrder();
    assert t.positions[..1] == [WitnessLeg("1", 1.0)] && t.positions[..1][..0] == [];
    assert AllById(t.positions[..1]) == map["1" := WitnessLeg("1", 1.0)];
    assert AllById(t.positions) == map["1" := WitnessLeg("1", 1.0)]["2" := WitnessLeg("2", -1.0)];
    assert o in t.orders;
  }

  /** A tick, a restart that reads the book as it was, and the same tick: the same repair is booked twice. */
  lemma {:induction false} RestartBooksTwice()
    ensures var f := WitnessOrder().fingerprint;
            multiset(Run([Repair(WitnessTick()), Restart, Repair(WitnessTick())]).Ever())[f] == 2
  {
    hide TickBookings, TickEntries, AfterAll, Offers, WitnessOrder, WitnessTick;
    var t, f := WitnessTick(), WitnessOrder().fingerprint;
    WitnessOffers();
    BookedNextIff([], t, f);
    assert [Repair(t)][..0] == [];
    assert f in Run([Repair(t)]).bookings;
    RestartForgets([Repair(t)], t, f);
    var all := [Repair(t), Restart, Repair(t)];
    assert all == [Repair(t)] + [Restart] + [Repair(t)];
    assert EveryTickDistinct(all) by {
      hide *;
      OneOrder();
    }
    assert all[..2][..1] == [Repair(t)] && all[..2] == [Repair(t), Restart];
    assert Restarts(all) == 1 by {
      assert all[..2][..1][..0] == [];
      assert Restarts(all[..2][..1]) == 0 && Restarts(all[..2]) == 1;
    }
    RepairedAtMostOnce(all, f);
  }

  lemma {:induction false} OneOrder()
    ensures EveryTickDistinct([Repair(WitnessTick()), Restart, Repair(WitnessTick())])
  {
  }

  // ---- a caller that stores and reloads ------------------------------------------------------

  /** What a caller that appends every handed-back entry to a journal, and loads it at each start, would have. */
  datatype Stored = Stored(ledger: map<Fingerprint, Entry>, journal: seq<Entry>, bookings: seq<Fingerprint>)

  function StoredStep(s: Stored, e: Event): Stored {
    match e
    case Repair(t) =>
      Stored(AfterAll(s.ledger, TickEntries(s.ledger, t)),
             s.journal + HandedBackAll(s.ledger, TickEntries(s.ledger, t)),
             s.bookings + TickBookings(s.ledger, t))
    case Restart => s.(ledger := Loaded(map[], s.journal))
  }

  function StoredRun(events: seq<Event>): Stored {
    if events == [] then Stored(map[], [], []) else StoredStep(StoredRun(events[..|events| - 1]), events[|events| - 1])
  }

  function TicksOf(events: seq<Event>): seq<Event> {
    if events == [] then []
    else TicksOf(events[..|events| - 1]) + (if events[|events| - 1].Repair? then [events[|events| - 1]] else [])
  }

  /** For such a caller a restart changes nothing, at any point of any run: it is where its ticks alone would lead. */
  lemma {:induction false} StoredRestartIsInvisible(events: seq<Event>)
    ensures StoredStep(StoredRun(events), Restart) == StoredRun(events)
    ensures StoredRun(events).ledger == Run(TicksOf(events)).ledger
    ensures StoredRun(events).bookings == Run(TicksOf(events)).bookings
  {
    if events != [] {
      var n := |events| - 1;
      StoredRestartIsInvisible(events[..n]);
      var s, ticks := StoredRun(events[..n]), TicksOf(events[..n]);
      match events[n]
      case Repair(t) =>
        LoadRebuilds(s.ledger, s.journal, TickEntries(s.ledger, t));
        hide TickEntries, TickBookings, AfterAll, HandedBackAll, Loaded;
        assert (ticks + [events[n]])[..|ticks|] == ticks;
      case Restart =>
        assert ticks + [] == ticks;
    }
  }

  lemma {:induction false} TicksAreOfRun(events: seq<Event>)
    requires EveryTickDistinct(events)
    ensures EveryTickDistinct(TicksOf(events))
  {
    if events != [] {
      TicksAreOfRun(events[..|events| - 1]);
    }
  }

  /** And it books each fingerprint at most once over the whole run, restarts and all. */
  lemma {:induction false} StoredRepairsOnce(events: seq<Event>, f: Fingerprint)
    requires EveryTickDistinct(events)
    ensures multiset(StoredRun(events).bookings)[f] == (if IsBooked(StoredRun(events).ledger, f) then 1 else 0)
  {
    StoredRestartIsInvisible(events);
    TicksAreOfRun(events);
    RepairedAtMostOnce(TicksOf(events), f);
  }

  // ---- a booking that raises -----------------------------------------------------------------

  predicate AllAimed(positions: seq<Position>, legs: seq<Leg>) {
    forall l :: l in legs ==> WellAimed(AllById(positions), l)
  }

  /** One order, not in the ledger, all of whose legs are well aimed. */
  lemma {:induction false} VerifyAlone(byId: map<string, Position>, o: RepairOrder, done: map<Fingerprint, Entry>)
    requires !IsBooked(done, o.fingerprint)
    ensures var b := Booking(o.fingerprint, o.instrument, o.legs);
            Verify(byId, [o], done).book == if forall l :: l in o.legs ==> WellAimed(byId, l) then [b] else []
    ensures (forall l :: l in o.legs ==> WellAimed(byId, l)) ==> Verify(byId, [o], done).refused == []
  {
    NoProblemIsAimed(byId, o.legs);
    assert [o][..0] == [];
  }

  lemma {:induction false} OneBooking(b: Booking, raises: map<Fingerprint, nat>)
    ensures Completed([b], raises) == if Raises(b, raises) then [] else [b.fingerprint]
    ensures ReachedAll([b], raises) == Reached(b, raises)
    ensures Completed([], raises) == [] && ReachedAll([], raises) == []
  {
    assert [b][..0] == [];
    assert [] + Reached(b, raises) == Reached(b, raises);
  }

  /** An armed tick over one order. */
  lemma {:induction false} TickAlone(ledger: map<Fingerprint, Entry>, t: Tick, o: RepairOrder)
    requires t.arm && t.orders == [o] && !IsBooked(ledger, o.fingerprint)
    ensures var b := Booking(o.fingerprint, o.instrument, o.legs);
            && TickBookings(ledger, t) == (if AllAimed(t.positions, o.legs) && !Raises(b, t.raises) then [b.fingerprint] else [])
            && TickLegs(ledger, t) == (if AllAimed(t.positions, o.legs) then Reached(b, t.raises) else [])
    ensures AllAimed(t.positions, o.legs) ==>
              TickEntries(ledger, t) == BookingEntries([Booking(o.fingerprint, o.instrument, o.legs)], t.raises, t.now)
  {
    hide Verify, AllById, WellAimed, IsBooked, Completed, ReachedAll, Raises, Reached;
    VerifyAlone(AllById(t.positions), o, ledger);
    OneBooking(Booking(o.fingerprint, o.instrument, o.legs), t.raises);
  }

  /**
   A booking that raises at its leg `k` leaves the first `k` legs on the book and a refusal in the ledger, and the refusal
   protects nothing: the next armed tick that offers the order books it, every leg of it again, exactly when every leg is still
   well aimed at the book that tick reads.
   */
  lemma {:induction false} RaisedIsOfferedAgain(w: World, o: RepairOrder, k: nat, first: Tick, next: Tick)
    requires !IsBooked(w.ledger, o.fingerprint) && k < |o.legs|
    requires first.arm && first.orders == [o] && first.raises == map[o.fingerprint := k]
    requires AllAimed(first.positions, o.legs)
    requires next.arm && next.orders == [o] && next.raises == map[]
    ensures TickLegs(w.ledger, first) == o.legs[..k]
    ensures var w' := Step(w, Repair(first));
            && w'.bookings == w.bookings
            && o.fingerprint in w'.ledger && w'.ledger[o.fingerprint].state == LedgerState.Refused
            && Step(w', Repair(next)).bookings
               == w.bookings + (if AllAimed(next.positions, o.legs) then [o.fingerprint] else [])
            && TickLegs(w'.ledger, next) == (if AllAimed(next.positions, o.legs) then o.legs else [])
  {
    hide TickBookings, TickLegs, TickEntries, AfterAll, AllAimed, Step, Raises, Reached, BookingEntries, IsBooked;
    var b := Booking(o.fingerprint, o.instrument, o.legs);
    var w' := Step(w, Repair(first));
    RaisesAt(b, k, first.raises, next.raises);
    TickAlone(w.ledger, first, o);
    RepairStep(w, first);
    RaisedIsRefused(w.ledger, first, b);
    RefusedIsNotBooked(w'.ledger, o.fingerprint);
    TickAlone(w'.ledger, next, o);
    RepairStep(w', next);
    assert w.bookings + [] == w.bookings;
  }

  lemma {:induction false} RaisesAt(b: Booking, k: nat, raises: map<Fingerprint, nat>, none: map<Fingerprint, nat>)
    requires k < |b.legs| && raises == map[b.fingerprint := k] && none == map[]
    ensures Raises(b, raises) && Reached(b, raises) == b.legs[..k]
    ensures !Raises(b, none) && Reached(b, none) == b.legs
  {
  }

  lemma {:induction false} RepairStep(w: World, t: Tick)
    ensures Step(w, Repair(t)).ledger == AfterAll(w.ledger, TickEntries(w.ledger, t))
    ensures Step(w, Repair(t)).bookings == w.bookings + TickBookings(w.ledger, t)
    ensures Step(w, Repair(t)).earlier == w.earlier
  {
  }

  lemma {:induction false} RefusedIsNotBooked(m: map<Fingerprint, Entry>, f: Fingerprint)
    requires f in m && m[f].state == LedgerState.Refused
    ensures !IsBooked(m, f)
  {
  }

  lemma {:induction false} RaisedIsRefused(m: map<Fingerprint, Entry>, t: Tick, b: Booking)
    requires !IsBooked(m, b.fingerprint) && Raises(b, t.raises)
    requires TickEntries(m, t) == BookingEntries([b], t.raises, t.now)
    ensures var m' := AfterAll(m, TickEntries(m, t));
            b.fingerprint in m' && m'[b.fingerprint].state == LedgerState.Refused
  {
    hide TickEntries;
    var es := BookingEntries([b], t.raises, t.now);
    assert es == [es[0]] && es[..0] == [];
    assert AfterAll(m, es[..0]) == m;
  }
}
