/**
 What an execution plan promises against an arbitrary fresh book, and where it agrees with the plan that was
 approved. The fingerprint does not cover a pair's quantity and the executor recomputes it from the whole
 legs, so the two agree on quantities exactly when every planned pair closes the whole of its smaller leg.
 */
module ContraExecuteProofs {
  import opened Prelude
  import opened Netting
  import opened ContraClose
  import opened ContraFlatten
  import opened ContraPlanProofs
  import opened ContraWholeBook
  import opened ContraExecute

  /** NETTING: one open position per instrument and lane, each under its own id. */
  ghost predicate NettingBook(positions: seq<Position>) {
    forall i, j :: 0 <= i < j < |positions| && IsOpen(positions[i]) && IsOpen(positions[j]) ==>
      KeyOf(positions[i]) != KeyOf(positions[j]) && positions[i].id != positions[j].id
  }

  // ---- the live index ------------------------------------------------------------------------

  lemma {:induction false} NettingPrefix(positions: seq<Position>, n: nat)
    requires NettingBook(positions) && n < |positions|
    ensures NettingBook(positions[..n])
    ensures forall p :: p in positions[..n] && IsOpen(p) && IsOpen(positions[n]) ==>
              KeyOf(p) != KeyOf(positions[n]) && p.id != positions[n].id
  {
  }

  lemma {:induction false} NettingDistinct(positions: seq<Position>)
    requires NettingBook(positions)
    ensures Distinct(OpenOf(positions))
  {
    if positions != [] {
      var n := |positions| - 1;
      var p := positions[n];
      assert positions == positions[..n] + [p];
      NettingPrefix(positions, n);
      NettingDistinct(positions[..n]);
      FilterConcat(positions[..n], [p], IsOpen);
      assert [p][1..] == [];
      if IsOpen(p) {
        assert OpenOf(positions) == OpenOf(positions[..n]) + [p];
        DistinctAppend(OpenOf(positions[..n]), p);
      } else {
        assert OpenOf(positions) == OpenOf(positions[..n]);
      }
    }
  }

  lemma {:induction false} PutNew(s: seq<Position>, p: Position)
    requires forall q :: q in s ==> KeyOf(q) != KeyOf(p)
    ensures Put(s, p) == s + [p]
  {
    if s != [] {
      assert s[0] in s && (forall q :: q in s[1..] ==> q in s);
      PutNew(s[1..], p);
      assert s == [s[0]] + s[1..];
    }
  }

  lemma {:induction false} PutMembers(s: seq<Position>, p: Position)
    ensures forall q :: q in Put(s, p) ==> q in s || q == p
  {
    if s != [] {
      assert s == [s[0]] + s[1..];
      PutMembers(s[1..], p);
    }
  }

  /** Whatever the index holds is an open, describable position of the book. */
  lemma {:induction false} IndexFromBook(positions: seq<Position>)
    ensures forall p :: p in ByKey(positions) ==> p in positions && IsOpen(p) && !IsMute(p)
  {
    if positions != [] {
      var n := |positions| - 1;
      assert positions == positions[..n] + [positions[n]];
      IndexFromBook(positions[..n]);
      PutMembers(ByKey(positions[..n]), positions[n]);
    }
  }

  /** Under NETTING, indexing one more position appends it. */
  lemma {:induction false} IndexStep(positions: seq<Position>)
    requires NettingBook(positions) && positions != []
    ensures var n := |positions| - 1;
            var p := positions[n];
            ByKey(positions) == if IsOpen(p) && !IsMute(p) then ByKey(positions[..n]) + [p] else ByKey(positions[..n])
  {
    var n := |positions| - 1;
    NettingPrefix(positions, n);
    hide NettingBook;
    IndexFromBook(positions[..n]);
    if IsOpen(positions[n]) && !IsMute(positions[n]) {
      PutNew(ByKey(positions[..n]), positions[n]);
    }
  }

  /** Under NETTING the index is the open, describable positions themselves. */
  lemma {:induction false} IndexIsBook(positions: seq<Position>)
    requires NettingBook(positions)
    ensures forall p :: p in ByKey(positions) <==> p in positions && IsOpen(p) && !IsMute(p)
  {
    IndexFromBook(positions);
    if positions != [] {
      var n := |positions| - 1;
      assert positions == positions[..n] + [positions[n]];
      NettingPrefix(positions, n);
      IndexStep(positions);
      hide NettingBook, ByKey;
      IndexIsBook(positions[..n]);
    }
  }

  /** Looking up a lane finds the one open position in it. */
  lemma {:induction false} LookupFinds(positions: seq<Position>, p: Position)
    requires NettingBook(positions) && p in positions && IsOpen(p) && !IsMute(p)
    ensures Lookup(ByKey(positions), KeyOf(p)) == Some(p)
  {
    IndexIsBook(positions);
    var r := Lookup(ByKey(positions), KeyOf(p));
    assert r.Some?;
    SameKey(positions, p, r.value);
  }

  lemma {:induction false} SameKey(positions: seq<Position>, p: Position, q: Position)
    requires NettingBook(positions) && p in positions && q in positions && IsOpen(p) && IsOpen(q)
    requires KeyOf(p) == KeyOf(q)
    ensures p == q
  {
  }

  lemma {:induction false} OnInstrumentAppend(s: seq<Position>, p: Position, instrument: string)
    ensures OnInstrument(s + [p], instrument)
         == OnInstrument(s, instrument) + (if p.instrument == instrument then [p] else [])
  {
    if s == [] {
      assert s + [p] == [p] && [p][1..] == [];
    } else {
      assert (s + [p])[1..] == s[1..] + [p];
      OnInstrumentAppend(s[1..], p, instrument);
    }
  }

  /** With nothing mute on an instrument, its live legs are its open legs. */
  lemma {:induction false} LiveIsLegs(positions: seq<Position>, instrument: string)
    requires NettingBook(positions)
    requires forall k :: k in MuteKeys(positions) ==> k.0 != instrument
    ensures OnInstrument(ByKey(positions), instrument) == LegsOf(positions, instrument)
  {
    if positions != [] {
      var n := |positions| - 1;
      var p := positions[n];
      assert positions == positions[..n] + [p];
      NettingPrefix(positions, n);
      assert forall k :: k in MuteKeys(positions[..n]) ==> k in MuteKeys(positions);
      LiveIsLegs(positions[..n], instrument);
      IndexStep(positions);
      OnInstrumentAppend(ByKey(positions[..n]), p, instrument);
      assert IsMute(p) ==> KeyOf(p) in MuteKeys(positions);
    }
  }

  /** The legs of an instrument of a NETTING book, ready for the closing lemmas. */
  lemma {:induction false} LegsReady(positions: seq<Position>, instrument: string)
    requires NettingBook(positions)
    ensures Distinct(LegsOf(positions, instrument)) && UniqueIds(Book(LegsOf(positions, instrument)))
    ensures forall p :: p in LegsOf(positions, instrument) <==> p in positions && IsOpen(p) && p.instrument == instrument
  {
    NettingDistinct(positions);
    LegsOfBook(positions, instrument);
    LegsOfMembers(positions, instrument);
    UniqueIsDistinct(LegsOf(positions, instrument));
  }

  // ---- one order against a fresh book --------------------------------------------------------

  /** Booking `legs` on an instrument's live positions only moves positions towards flat. */
  ghost predicate OnlyCloses(positions: seq<Position>, instrument: string, legs: seq<Leg>) {
    var book := Book(LegsOf(positions, instrument));
    var after := ApplyAll(book, legs);
    && (forall l :: l in legs ==> Aimed(book, l))
    && |after| == |book|
    && (forall i :: 0 <= i < |book| ==> ClosedTowardsFlat(book[i], after[i]))
    && (forall i :: 0 <= i < |book| ==> after[i].qty == book[i].qty + SignedAt(legs, book[i].id))
  }

  lemma {:induction false} WithinOnlyCloses(positions: seq<Position>, instrument: string, legs: seq<Leg>)
    requires NettingBook(positions)
    requires forall l :: l in legs ==> Aimed(Book(LegsOf(positions, instrument)), l)
    requires forall p :: p in LegsOf(positions, instrument) ==> Within(legs, HoldingOf(p))
    ensures OnlyCloses(positions, instrument, legs)
    ensures NetOn(ApplyAll(Book(LegsOf(positions, instrument)), legs), instrument)
         == SumBy(LegsOf(positions, instrument), SignedOf) + SignedOn(legs, instrument)
  {
    hide Within, Aimed;
    LegsReady(positions, instrument);
    var live := LegsOf(positions, instrument);
    var book := Book(live);
    ApplyAllCloses(book, legs);
    NetAfterAll(book, legs, instrument);
    NetIsSum(live, instrument);
    forall i | 0 <= i < |book|
      ensures ClosedTowardsFlat(book[i], ApplyAll(book, legs)[i])
    {
      assert live[i] in live;
      WithinSigned(legs, book[i]);
    }
  }

  /** What accepting a pair says about the two live legs it names. */
  lemma {:induction false} AcceptedPair(positions: seq<Position>, f: Fresh, pair: ContraPair)
    returns (long: Position, short: Position)
    requires NettingBook(positions) && f.byKey == ByKey(positions)
    requires DecidePair(f, pair).Ok? && pair.longQty > 0.0 && pair.shortQty < 0.0
    ensures long in LegsOf(positions, pair.instrument) && short in LegsOf(positions, pair.instrument)
    ensures long.id == pair.longId && long.Signed() == pair.longQty && long.avgPx == pair.longPx
    ensures short.id == pair.shortId && short.Signed() == pair.shortQty && short.avgPx == pair.shortPx
    ensures VenueRead(f, pair.instrument) == Known(pair.brokerQty)
    ensures DecidePair(f, pair).value.fingerprint == pair.Print()
    ensures DecidePair(f, pair).value.legs
         == PairOf(pair.instrument, long, short, Min(Abs(pair.longQty), Abs(pair.shortQty)), pair.brokerQty).Legs()
  {
    IndexIsBook(positions);
    LegsReady(positions, pair.instrument);
    long := Lookup(f.byKey, (pair.instrument, pair.longStrategy)).value;
    short := Lookup(f.byKey, (pair.instrument, pair.shortStrategy)).value;
  }

  /**
   Stale-plan soundness of a pair: whatever the book has become, an accepted pair aims both legs at live
   positions at their live bases, strictly reduces both, crosses zero in neither, realizes nothing, leaves
   every other position alone and does not move the instrument's net.
   */
  lemma {:induction false} PairOrderSound(positions: seq<Position>, f: Fresh, pair: ContraPair)
    requires NettingBook(positions) && f.byKey == ByKey(positions)
    requires DecidePair(f, pair).Ok? && pair.longQty > 0.0 && pair.shortQty < 0.0
    ensures var legs := DecidePair(f, pair).value.legs;
            var book := Book(LegsOf(positions, pair.instrument));
            var after := ApplyAll(book, legs);
            && OnlyCloses(positions, pair.instrument, legs)
            && (forall i :: 0 <= i < |book| ==>
                  if book[i].id == pair.longId || book[i].id == pair.shortId
                  then Abs(after[i].qty) < Abs(book[i].qty) else after[i] == book[i])
            && NetOn(after, pair.instrument) == NetOn(book, pair.instrument)
            && DecidePair(f, pair).value.fingerprint == pair.Print()
  {
    hide NettingBook, LegsOf;
    var long, short := AcceptedPair(positions, f, pair);
    var live := LegsOf(positions, pair.instrument);
    var quantity := Min(Abs(pair.longQty), Abs(pair.shortQty));
    var legs := DecidePair(f, pair).value.legs;
    hide DecidePair, Distinct, SumBy;
    LegsReady(positions, pair.instrument);
    PairRepairs(pair.instrument, live, long, short, quantity, pair.brokerQty);
    WithinOnlyCloses(positions, pair.instrument, legs);
    NetIsSum(live, pair.instrument);
    var book := Book(live);
    var after := ApplyAll(book, legs);
    forall i | 0 <= i < |book|
      ensures if book[i].id == pair.longId || book[i].id == pair.shortId
              then Abs(after[i].qty) < Abs(book[i].qty) else after[i] == book[i]
    {
      assert live[i] in live;
      PairMoves(live, long, short, quantity, legs, live[i]);
    }
  }

  lemma {:induction false} PairMoves(live: seq<Position>, long: Position, short: Position, quantity: real,
                                     legs: seq<Leg>, p: Position)
    requires Distinct(live) && long in live && short in live && p in live
    requires SignedAt(legs, long.id) == -quantity && SignedAt(legs, short.id) == quantity
    requires forall q :: q in live && q != long && q != short ==> SignedAt(legs, q.id) == 0.0
    ensures p.id == long.id ==> SignedAt(legs, p.id) == -quantity && p == long
    ensures p.id == short.id ==> SignedAt(legs, p.id) == quantity && p == short
    ensures p.id != long.id && p.id != short.id ==> SignedAt(legs, p.id) == 0.0
  {
    if p.id == long.id {
      SameId(live, p, long);
    }
    if p.id == short.id {
      SameId(live, p, short);
    }
  }

  lemma {:induction false} PrintLinesKnown(legs: seq<Leg>, stamps: seq<int>)
    ensures forall x :: x in PrintLines(legs, stamps) ==> x.signed.Known?
  {
    if legs != [] && stamps != [] {
      PrintLinesKnown(legs[1..], stamps[1..]);
    }
  }

  /** What accepting an eviction says about the instrument's live book. */
  lemma {:induction false} AcceptedEviction(positions: seq<Position>, f: Fresh, ev: Eviction)
    requires NettingBook(positions) && f.byKey == ByKey(positions) && f.mute == MuteKeys(positions)
    requires DecideEviction(f, ev).Ok?
    ensures LiveLegs(f, ev.instrument) == LegsOf(positions, ev.instrument)
    ensures forall p :: p in LegsOf(positions, ev.instrument) ==> p.qty.Known?
    ensures NearZero(VenueRead(f, ev.instrument))
    ensures DecideEviction(f, ev).value.legs
         == EvictAll(ev.instrument, LegsOf(positions, ev.instrument), VenueRead(f, ev.instrument).v).legs
    ensures DecideEviction(f, ev).value.fingerprint == ev.Print()
  {
    LiveIsLegs(positions, ev.instrument);
    var live := LegsOf(positions, ev.instrument);
    var legs := Sort(live, ByLane);
    SortMembers(live, ByLane);
    PrintLinesKnown(ev.legs, ev.stamps);
    forall p | p in live
      ensures p.qty.Known?
    {
      assert p in legs;
      var i :| 0 <= i < |legs| && legs[i] == p;
      assert LiveLines(legs)[i] in PrintLines(ev.legs, ev.stamps);
      assert LiveLines(legs)[i].signed == legs[i].qty;
    }
  }

  /** Stale-plan soundness of an eviction: the instrument ends flat, at a venue re-read as zero. */
  lemma {:induction false} EvictionOrderFlat(positions: seq<Position>, f: Fresh, ev: Eviction)
    requires NettingBook(positions) && f.byKey == ByKey(positions) && f.mute == MuteKeys(positions)
    requires DecideEviction(f, ev).Ok?
    ensures var legs := DecideEviction(f, ev).value.legs;
            && OnlyCloses(positions, ev.instrument, legs)
            && (forall h :: h in ApplyAll(Book(LegsOf(positions, ev.instrument)), legs) ==> h.qty == 0.0)
            && (forall p :: p in LegsOf(positions, ev.instrument) ==> p.qty.Known?)
            && NearZero(VenueRead(f, ev.instrument))
            && DecideEviction(f, ev).value.fingerprint == ev.Print()
  {
    hide *;
    AcceptedEviction(positions, f, ev);
    var live := LegsOf(positions, ev.instrument);
    var legs := DecideEviction(f, ev).value.legs;
    LegsReady(positions, ev.instrument);
    VenueReadsZero(VenueRead(f, ev.instrument));
    LegsOnInstrument(positions, ev.instrument);
    EvictionRepairs(ev.instrument, live, VenueRead(f, ev.instrument).v);
    AllWithin(ev.instrument, live, legs, VenueRead(f, ev.instrument).v, QTY_TOLERANCE, 0.0);
    WithinOnlyCloses(positions, ev.instrument, legs);
    FlatAfter(positions, ev.instrument, legs);
  }

  lemma {:induction false} VenueReadsZero(q: Qty)
    requires NearZero(q)
    ensures q.Known? && Abs(q.v) <= QTY_TOLERANCE
  {
  }

  lemma {:induction false} LegsOnInstrument(positions: seq<Position>, instrument: string)
    requires NettingBook(positions)
    ensures forall p :: p in LegsOf(positions, instrument) ==> p.instrument == instrument
  {
    LegsReady(positions, instrument);
  }

  lemma {:induction false} AllWithin(instrument: string, live: seq<Position>, legs: seq<Leg>, venue: real, near: real, slack: real)
    requires Repairs(instrument, live, legs, venue, near, slack)
    ensures forall l :: l in legs ==> Aimed(Book(live), l)
    ensures forall p :: p in live ==> Within(legs, HoldingOf(p))
  {
  }

  /** Legs that give back each live position in full leave the book flat. */
  lemma {:induction false} FlatAfter(positions: seq<Position>, instrument: string, legs: seq<Leg>)
    requires OnlyCloses(positions, instrument, legs)
    requires forall p :: p in LegsOf(positions, instrument) ==> p.Signed() + SignedAt(legs, p.id) == 0.0
    ensures forall h :: h in ApplyAll(Book(LegsOf(positions, instrument)), legs) ==> h.qty == 0.0
  {
    hide LegsOf, ApplyAll, SignedAt, Aimed, ClosedTowardsFlat;
    var live := LegsOf(positions, instrument);
    var after := ApplyAll(Book(live), legs);
    forall h | h in after
      ensures h.qty == 0.0
    {
      var i :| 0 <= i < |after| && after[i] == h;
      assert live[i] in live;
    }
  }

  /** What accepting a surplus eviction says about the instrument's live book. */
  lemma {:induction false} AcceptedSurplus(positions: seq<Position>, f: Fresh, se: SurplusEviction)
    requires NettingBook(positions) && f.byKey == ByKey(positions) && f.mute == MuteKeys(positions)
    requires DecideSurplus(f, se).Ok?
    ensures LiveLegs(f, se.instrument) == LegsOf(positions, se.instrument)
    ensures SurplusShape(LegsOf(positions, se.instrument), VenueStated(f, se.instrument)).SurplusLeg?
    ensures var x := SurplusShape(LegsOf(positions, se.instrument), VenueStated(f, se.instrument)).leg;
            DecideSurplus(f, se).value.legs == [Leg(se.instrument, x.strategy, x.id, Sell, Abs(x.Signed()), x.avgPx)]
    ensures DecideSurplus(f, se).value.fingerprint == se.Print()
  {
    hide SurplusShape;
    LiveIsLegs(positions, se.instrument);
  }

  /**
   Stale-plan soundness of a surplus eviction: no short, and the net is the venue's re-read quantity. The net is over the
   lanes the executor can read: one whose quantity is not a number counts as nothing, here as in its own sums.
   */
  lemma {:induction false} SurplusOrderLands(positions: seq<Position>, f: Fresh, se: SurplusEviction)
    requires NettingBook(positions) && f.byKey == ByKey(positions) && f.mute == MuteKeys(positions)
    requires DecideSurplus(f, se).Ok?
    ensures var legs := DecideSurplus(f, se).value.legs;
            var after := ApplyAll(Book(LegsOf(positions, se.instrument)), legs);
            && OnlyCloses(positions, se.instrument, legs)
            && VenueStated(f, se.instrument).Known?
            && Abs(NetOn(after, se.instrument) - VenueStated(f, se.instrument).v) <= QTY_TOLERANCE
            && (forall h :: h in after ==> h.qty >= 0.0)
            && DecideSurplus(f, se).value.fingerprint == se.Print()
  {
    hide *;
    AcceptedSurplus(positions, f, se);
    SurplusCloses(positions, se.instrument, VenueStated(f, se.instrument));
  }

  lemma {:induction false} SurplusCloses(positions: seq<Position>, instrument: string, venue: Qty)
    requires NettingBook(positions) && SurplusShape(LegsOf(positions, instrument), venue).SurplusLeg?
    ensures var x := SurplusShape(LegsOf(positions, instrument), venue).leg;
            var legs := [Leg(instrument, x.strategy, x.id, Sell, Abs(x.Signed()), x.avgPx)];
            var after := ApplyAll(Book(LegsOf(positions, instrument)), legs);
            && OnlyCloses(positions, instrument, legs)
            && venue.Known?
            && Abs(NetOn(after, instrument) - venue.v) <= QTY_TOLERANCE
            && (forall h :: h in after ==> h.qty >= 0.0)
  {
    hide SurplusShape, Repairs, Distinct, LegsOf, SignedAt, NetOn, OnlyCloses, ApplyAll, NettingBook, Book;
    var live := LegsOf(positions, instrument);
    var x := SurplusShape(live, venue).leg;
    var legs := [Leg(instrument, x.strategy, x.id, Sell, Abs(x.Signed()), x.avgPx)];
    LegsReady(positions, instrument);
    SurplusRepairs(instrument, live, venue);
    RepairsClose(positions, instrument, legs, venue.v, QTY_TOLERANCE, 0.0);
    NoShortAfter(positions, instrument, legs);
  }

  /** Repairing moves booked on a live book: they only close, and the net lands. */
  lemma {:induction false} RepairsClose(positions: seq<Position>, instrument: string, legs: seq<Leg>, venue: real,
                                        near: real, slack: real)
    requires NettingBook(positions) && Repairs(instrument, LegsOf(positions, instrument), legs, venue, near, slack)
    ensures OnlyCloses(positions, instrument, legs)
    ensures Abs(NetOn(ApplyAll(Book(LegsOf(positions, instrument)), legs), instrument) - venue) <= near
  {
    hide Within, Aimed, LegsOf, SumBy, SignedOn, NetOn, ApplyAll, OnlyCloses, NettingBook;
    WithinOnlyCloses(positions, instrument, legs);
  }

  lemma {:induction false} NoShortAfter(positions: seq<Position>, instrument: string, legs: seq<Leg>)
    requires OnlyCloses(positions, instrument, legs)
    requires forall p :: p in LegsOf(positions, instrument) ==> p.Signed() + SignedAt(legs, p.id) >= 0.0
    ensures forall h :: h in ApplyAll(Book(LegsOf(positions, instrument)), legs) ==> h.qty >= 0.0
  {
    hide LegsOf, SignedAt, ApplyAll, Aimed;
    var live := LegsOf(positions, instrument);
    var after := ApplyAll(Book(live), legs);
    forall h | h in after
      ensures h.qty >= 0.0
    {
      var i :| 0 <= i < |after| && after[i] == h;
      assert live[i] in live;
    }
  }

  // ---- a leg the executor cannot read --------------------------------------------------------

  /** An open position whose quantity is not a number, added in a lane of its own. */
  function WithUnreadableLane(positions: seq<Position>, p: Position): seq<Position> {
    positions + [p.(qty := Unknown)]
  }

  lemma {:induction false} UnknownIsNeither(legs: seq<Position>, p: Position)
    requires p.qty.Unknown?
    ensures Filter(legs + [p], IsLong) == Filter(legs, IsLong)
    ensures forall venue :: SurplusShape(legs + [p], venue) == SurplusShape(legs, venue)
  {
    FilterConcat(legs, [p], IsLong);
    assert [p][1..] == [];
    assert Filter([p], IsLong) == [];
    assert (exists q | q in legs + [p] :: IsShort(q)) <==> (exists q | q in legs :: IsShort(q)) by {
      if q :| q in legs + [p] && IsShort(q) {
        assert q in legs;
      }
      if q :| q in legs && IsShort(q) {
        assert q in legs + [p];
      }
    }
  }

  /**
   The surplus premise is blind to a lane whose quantity is not a number: a lane that appears unreadable
   after approval leaves every decision on the instrument's surplus exactly as it was. The executor does not
   check that the live quantities are numbers, so the net `SurplusOrderLands` lands is that of the others.
   */
  lemma {:induction false} SurplusIgnoresUnreadableLane(positions: seq<Position>, broker: Option<map<string, Qty>>,
                                                        resting: set<string>, complete: bool,
                                                        se: SurplusEviction, p: Position)
    requires NettingBook(WithUnreadableLane(positions, p))
    requires IsOpen(p) && p.stamp.Some? && p.instrument == se.instrument
    ensures DecideSurplus(ReadBook(WithUnreadableLane(positions, p), broker, resting, complete), se)
         == DecideSurplus(ReadBook(positions, broker, resting, complete), se)
  {
    var book, q := WithUnreadableLane(positions, p), p.(qty := Unknown);
    var n := |positions|;
    assert book[..n] == positions && book[n] == q;
    hide SurplusShape, Filter, DecideSurplus;
    IndexStep(book);
    assert ByKey(book) == ByKey(positions) + [q];
    hide ByKey;
    OnInstrumentAppend(ByKey(positions), q, se.instrument);
    UnknownIsNeither(OnInstrument(ByKey(positions), se.instrument), q);
    MuteAppend(positions, q);
    SurplusReads(ReadBook(book, broker, resting, complete), ReadBook(positions, broker, resting, complete), se);
  }

  /** All that a surplus decision reads. */
  lemma {:induction false} SurplusReads(f: Fresh, g: Fresh, se: SurplusEviction)
    requires f.(byKey := g.byKey) == g
    requires SurplusShape(LiveLegs(f, se.instrument), VenueStated(f, se.instrument))
          == SurplusShape(LiveLegs(g, se.instrument), VenueStated(g, se.instrument))
    ensures DecideSurplus(f, se) == DecideSurplus(g, se)
  {
    hide SurplusShape, LiveLegs, SymbolPart;
  }

  /** While the planner, reading the same book, refuses the instrument. */
  lemma {:induction false} PlannerRefusesUnreadableLane(instrument: string, positions: seq<Position>, p: Position,
                                                        broker: map<string, Qty>, resting: set<string>, complete: bool)
    requires IsOpen(p) && p.instrument == instrument
    ensures PlanInstrument(instrument, LegsOf(WithUnreadableLane(positions, p), instrument), broker, resting,
                           complete).Refused?
  {
    var book, q := WithUnreadableLane(positions, p), p.(qty := Unknown);
    assert book[..|positions|] == positions;
    assert LegsOf(book, instrument) == LegsOf(positions, instrument) + [q];
    assert q in LegsOf(book, instrument);
  }

  lemma {:induction false} MuteAppend(positions: seq<Position>, q: Position)
    requires !IsMute(q)
    ensures MuteKeys(positions + [q]) == MuteKeys(positions)
  {
    forall k | k in MuteKeys(positions)
      ensures k in MuteKeys(positions + [q])
    {
      var p :| p in positions && IsMute(p) && KeyOf(p) == k;
      assert p in positions + [q];
    }
  }

  // ---- planner and executor ------------------------------------------------------------------

  /** The executor reading exactly what the planner read. */
  function Unchanged(r: Read): Fresh {
    ReadBook(r.positions, Some(r.broker), r.resting, r.complete)
  }

  lemma {:induction false} SameVenue(r: Read, instrument: string)
    requires instrument in r.broker || r.complete
    ensures VenueRead(Unchanged(r), instrument) == BrokerOrZero(r.broker, instrument)
  {
  }

  /** A pair over two of an instrument's own legs, on an unchanged book. */
  lemma {:induction false} PairAgrees(r: Read, instrument: string, long: Position, short: Position, quantity: real)
    requires NettingBook(r.positions) && (instrument in r.broker || r.complete)
    requires BrokerOrZero(r.broker, instrument).Known? && SymbolPart(instrument) !in r.resting
    requires long in LegsOf(r.positions, instrument) && short in LegsOf(r.positions, instrument)
    requires long.qty.Known? && short.qty.Known? && long.stamp.Some? && short.stamp.Some?
    ensures var pair := PairOf(instrument, long, short, quantity, BrokerOrZero(r.broker, instrument).v);
            var d := DecidePair(Unchanged(r), pair);
            && (d.Ok? <==> KeyOf(long) !in MuteKeys(r.positions) && KeyOf(short) !in MuteKeys(r.positions))
            && (d.Ok? ==> d.value.fingerprint == pair.Print()
                          && (d.value.legs == pair.Legs() <==>
                                quantity == Min(Abs(long.Signed()), Abs(short.Signed()))))
  {
    LegsOfMembers(r.positions, instrument);
    LookupFinds(r.positions, long);
    LookupFinds(r.positions, short);
    SameVenue(r, instrument);
    var pair := PairOf(instrument, long, short, quantity, BrokerOrZero(r.broker, instrument).v);
    var whole := Min(Abs(long.Signed()), Abs(short.Signed()));
    var live := PairOf(instrument, long, short, whole, BrokerOrZero(r.broker, instrument).v);
    assert live.Legs()[0].quantity == whole && pair.Legs()[0].quantity == quantity;
    assert live.Print() == pair.Print();
  }

  /** A pair of a flatten joins a long and a short of the instrument. */
  lemma {:induction false} FlattenPair(instrument: string, legs: seq<Position>, venue: real, pair: ContraPair)
    returns (long: Position, short: Position)
    requires Distinct(legs) && (forall p :: p in legs ==> p.instrument == instrument)
    requires pair in PairsOf(instrument, FlattenTakes(legs), venue)
    ensures long in legs && short in legs && IsLong(long) && IsShort(short)
    ensures pair == PairOf(instrument, long, short, pair.quantity, venue)
  {
    FlattenTakesOfBook(instrument, legs);
    hide FlattenTakes, Distinct;
    var takes := FlattenTakes(legs);
    var pairs := PairsOf(instrument, takes, venue);
    var i :| 0 <= i < |pairs| && pairs[i] == pair;
    var t := takes[i];
    assert t in takes;
    var a :| a in SideSlots(legs, true) && a.pos == t.long;
    var b :| b in SideSlots(legs, false) && b.pos == t.short;
    long, short := t.long, t.short;
  }

  /** Where the planner's pairs come from: two of the instrument's own legs, one long and one short. */
  lemma {:induction false} PlannedPair(r: Read, instrument: string, pair: ContraPair)
    returns (long: Position, short: Position)
    requires NettingBook(r.positions)
    requires OutcomeAt(r, instrument).Paired? && pair in OutcomeAt(r, instrument).pairs
    ensures long in LegsOf(r.positions, instrument) && short in LegsOf(r.positions, instrument)
    ensures IsLong(long) && IsShort(short)
    ensures pair == PairOf(instrument, long, short, pair.quantity, BrokerOrZero(r.broker, instrument).v)
    ensures BrokerOrZero(r.broker, instrument).Known? && (instrument in r.broker || r.complete)
    ensures SymbolPart(instrument) !in r.resting
    ensures forall p :: p in LegsOf(r.positions, instrument) ==> p.qty.Known? && p.stamp.Some?
  {
    hide PlanInstrument, NettingBook, Distinct, LegsOf, FlattenTakes, Match, Slack;
    var legs := LegsOf(r.positions, instrument);
    var pairs := OutcomeAt(r, instrument).pairs;
    ActingFacts(instrument, legs, r.broker, r.resting, r.complete);
    LegsReady(r.positions, instrument);
    if |legs| > 2 {
      long, short := FlattenPair(instrument, legs, BrokerOrZero(r.broker, instrument).v, pair);
    } else {
      TwoSides(legs);
      long, short := Filter(legs, IsLong)[0], Filter(legs, IsShort)[0];
    }
  }

  /**
   On an unchanged book the executor accepts a planned pair, under the identical fingerprint, exactly when
   no shape in either of its lanes is mute; and the legs it books are the planned ones exactly when the pair
   closes the whole of its smaller leg.
   */
  lemma {:induction false} PlannedPairAgrees(r: Read, instrument: string, pair: ContraPair)
    requires NettingBook(r.positions)
    requires OutcomeAt(r, instrument).Paired? && pair in OutcomeAt(r, instrument).pairs
    ensures var d := DecidePair(Unchanged(r), pair);
            && (d.Ok? <==> (instrument, pair.longStrategy) !in MuteKeys(r.positions)
                           && (instrument, pair.shortStrategy) !in MuteKeys(r.positions))
            && (d.Ok? ==> d.value.fingerprint == pair.Print()
                          && (d.value.legs == pair.Legs() <==>
                                pair.quantity == Min(Abs(pair.longQty), Abs(pair.shortQty))))
  {
    hide DecidePair, OutcomeAt, NettingBook;
    var long, short := PlannedPair(r, instrument, pair);
    LegsOfMembers(r.positions, instrument);
    PairAgrees(r, instrument, long, short, pair.quantity);
  }

  lemma {:induction false} ClosingLines(instrument: string, legs: seq<Position>)
    requires forall p :: p in legs ==> p.qty.Known?
    ensures PrintLines(ClosingLegs(instrument, legs), Stamps(legs)) == LiveLines(legs)
  {
    var closing, stamps := ClosingLegs(instrument, legs), Stamps(legs);
    if legs == [] {
      assert LiveLines(legs) == [];
    } else {
      assert legs[0] in legs && (forall p :: p in legs[1..] ==> p in legs);
      assert closing[1..] == ClosingLegs(instrument, legs[1..]) && stamps[1..] == Stamps(legs[1..]);
      ClosingLines(instrument, legs[1..]);
      ClosingLine(instrument, legs[0]);
      assert LiveLines(legs)[1..] == LiveLines(legs[1..]);
      assert LiveLines(legs) == [LiveLines(legs)[0]] + LiveLines(legs)[1..];
    }
  }

  lemma {:induction false} ClosingLine(instrument: string, p: Position)
    requires p.qty.Known?
    ensures PrintLineOf(ClosingLeg(instrument, p), p.Stamp())
         == PrintLine(p.strategy, p.id, p.qty, p.avgPx, p.Stamp())
  {
  }

  /**
   On an unchanged book the executor accepts a planned eviction, with the same legs under the identical
   fingerprint, exactly when no shape on the instrument is mute.
   */
  lemma {:induction false} PlannedEvictionAgrees(r: Read, instrument: string)
    requires NettingBook(r.positions) && OutcomeAt(r, instrument).Evicted?
    ensures var ev := OutcomeAt(r, instrument).eviction;
            var d := DecideEviction(Unchanged(r), ev);
            && (d.Ok? <==> !MuteOn(Unchanged(r), instrument))
            && (d.Ok? ==> d.value.fingerprint == ev.Print() && d.value.legs == ev.legs)
  {
    var legs := LegsOf(r.positions, instrument);
    var ev := OutcomeAt(r, instrument).eviction;
    ActingFacts(instrument, legs, r.broker, r.resting, r.complete);
    hide PlanInstrument, Sort, LegsOf, SumBy;
    var f := Unchanged(r);
    if !MuteOn(f, instrument) {
      LiveIsLegs(r.positions, instrument);
      var ordered := Sort(legs, ByLane);
      SortMembers(legs, ByLane);
      SameVenue(r, instrument);
      ClosingLines(instrument, ordered);
      assert Lanes(ordered) == PlannedLanes(ev.legs) by {
        SameLanes(instrument, ordered);
      }
    }
  }

  lemma {:induction false} SameLanes(instrument: string, legs: seq<Position>)
    ensures Lanes(legs) == PlannedLanes(ClosingLegs(instrument, legs))
  {
    var closing := ClosingLegs(instrument, legs);
    forall s | s in Lanes(legs)
      ensures s in PlannedLanes(closing)
    {
      var i :| 0 <= i < |legs| && legs[i].strategy == s;
      assert closing[i] in closing;
    }
    forall s | s in PlannedLanes(closing)
      ensures s in Lanes(legs)
    {
      var i :| 0 <= i < |closing| && closing[i].strategy == s;
      assert legs[i] in legs;
    }
  }

  /** The same of a planned surplus eviction. */
  lemma {:induction false} PlannedSurplusAgrees(r: Read, instrument: string)
    requires NettingBook(r.positions) && OutcomeAt(r, instrument).SurplusEvicted?
    ensures var se := OutcomeAt(r, instrument).surplus;
            var d := DecideSurplus(Unchanged(r), se);
            && (d.Ok? <==> !MuteOn(Unchanged(r), instrument))
            && (d.Ok? ==> d.value.fingerprint == se.Print() && d.value.legs == [se.leg])
  {
    hide PlanInstrument, SurplusShape, DecideSurplus, LegsOf, NettingBook;
    var f := Unchanged(r);
    var se := OutcomeAt(r, instrument).surplus;
    ActingFacts(instrument, LegsOf(r.positions, instrument), r.broker, r.resting, r.complete);
    if MuteOn(f, instrument) {
      MuteSurplus(f, se);
    } else {
      LiveIsLegs(r.positions, instrument);
      SurplusDecided(f, se);
    }
  }

  lemma {:induction false} MuteSurplus(f: Fresh, se: SurplusEviction)
    requires MuteOn(f, se.instrument)
    ensures DecideSurplus(f, se).Err?
  {
    hide SurplusShape;
  }

  /** A surplus eviction rebuilt from the live book is the one it is compared with. */
  lemma {:induction false} SurplusDecided(f: Fresh, se: SurplusEviction)
    requires !Rests(f, se.instrument) && !MuteOn(f, se.instrument) && VenueStated(f, se.instrument) == Known(se.brokerQty)
    requires SurplusShape(LiveLegs(f, se.instrument), VenueStated(f, se.instrument)).SurplusLeg?
    requires var shape := SurplusShape(LiveLegs(f, se.instrument), VenueStated(f, se.instrument));
             var x := shape.leg;
             se == SurplusEviction(se.instrument, Leg(se.instrument, x.strategy, x.id, Sell, Abs(x.Signed()), x.avgPx), x.Stamp(),
                                   se.brokerQty, shape.realSum)
    ensures DecideSurplus(f, se).Ok?
    ensures DecideSurplus(f, se).value.fingerprint == se.Print() && DecideSurplus(f, se).value.legs == [se.leg]
  {
    hide SurplusShape, LiveLegs, VenueStated, MuteOn, Rests;
  }

  // ---- the quantity the fingerprint leaves out -----------------------------------------------

  function Whole(t: Take): real {
    Min(Abs(t.long.Signed()), Abs(t.short.Signed()))
  }

  /** What the executor books for a list of planned takes: the whole of each pair's smaller leg. */
  function Executed(takes: seq<Take>): seq<Take> {
    if takes == [] then [] else [takes[0].(quantity := Whole(takes[0]))] + Executed(takes[1..])
  }

  lemma {:induction false} TakeAtMostTotal(takes: seq<Take>, t: Take)
    requires t in takes && (forall x :: x in takes ==> x.quantity >= 0.0)
    ensures t.quantity <= LongTaken(takes, t.long.id) && t.quantity <= ShortTaken(takes, t.short.id)
  {
    assert takes == [takes[0]] + takes[1..];
    TakenIsPositive(takes[1..], t.long.id);
    TakenIsPositive(takes[1..], t.short.id);
    if t in takes[1..] {
      TakeAtMostTotal(takes[1..], t);
    }
  }

  // ---- the operator's pairing ----------------------------------------------------------------

  /** An operator's pair: two legs of the instrument, sized within the tolerance of both. */
  lemma {:induction false} OperatorPairFacts(positions: seq<Position>, broker: map<string, Qty>, instrument: string,
                                             longStrategy: string, shortStrategy: string, quantity: real,
                                             resting: set<string>, complete: bool)
    returns (long: Position, short: Position)
    requires PlanOperatorPair(positions, broker, instrument, longStrategy, shortStrategy, quantity, resting, complete).Ok?
    ensures long in LegsOf(positions, instrument) && short in LegsOf(positions, instrument)
    ensures IsLong(long) && IsShort(short) && long.qty.Known? && short.qty.Known?
    ensures long.stamp.Some? && short.stamp.Some?
    ensures long.strategy == longStrategy && short.strategy == shortStrategy
    ensures quantity <= Min(Abs(long.Signed()), Abs(short.Signed())) + QTY_TOLERANCE && quantity > 0.0
    ensures BrokerOrZero(broker, instrument).Known? && (instrument in broker || complete)
    ensures SymbolPart(instrument) !in resting
    ensures PlanOperatorPair(positions, broker, instrument, longStrategy, shortStrategy, quantity, resting, complete)
         == Ok(PairOf(instrument, long, short, quantity, BrokerOrZero(broker, instrument).v))
  {
    var legs := Filter(LegsOf(positions, instrument), Describable);
    long := FirstIn(Filter(legs, IsLong), longStrategy).value;
    short := FirstIn(Filter(legs, IsShort), shortStrategy).value;
  }

  /**
   The operator chooses the split, never the total: whatever they name, booking the pair as named leaves the net as it was and
   takes neither leg past flat by more than the tolerance. On the book it was named on the executor accepts it exactly when
   neither lane is mute, and then books the whole of the smaller leg, whatever was named: both legs only close, the net stays,
   and the named quantity is what is booked exactly when it is that whole.
   */
  lemma {:induction false} OperatorSplitNeverTotal(r: Read, instrument: string, longStrategy: string,
                                                   shortStrategy: string, quantity: real)
    requires NettingBook(r.positions)
    requires PlanOperatorPair(r.positions, r.broker, instrument, longStrategy, shortStrategy, quantity, r.resting,
                              r.complete).Ok?
    ensures var pair := PlanOperatorPair(r.positions, r.broker, instrument, longStrategy, shortStrategy, quantity,
                                         r.resting, r.complete).value;
            var d := DecidePair(Unchanged(r), pair);
            var book := Book(LegsOf(r.positions, instrument));
            && NetOn(ApplyAll(book, pair.Legs()), instrument) == NetOn(book, instrument)
            && pair.longQty + SignedAt(pair.Legs(), pair.longId) >= -QTY_TOLERANCE
            && pair.shortQty + SignedAt(pair.Legs(), pair.shortId) <= QTY_TOLERANCE
            && (d.Ok? <==> (instrument, longStrategy) !in MuteKeys(r.positions)
                           && (instrument, shortStrategy) !in MuteKeys(r.positions))
            && (d.Ok? ==> BooksSmallerLeg(r.positions, pair, d.value)
                          && (d.value.legs == pair.Legs() <==> quantity == Min(Abs(pair.longQty), Abs(pair.shortQty))))
  {
    var long, short := OperatorPairFacts(r.positions, r.broker, instrument, longStrategy, shortStrategy, quantity,
                                         r.resting, r.complete);
    hide PlanOperatorPair, DecidePair, NettingBook, LegsOf, BooksSmallerLeg;
    LegsReady(r.positions, instrument);
    LegsOfMembers(r.positions, instrument);
    OperatorPairBooked(instrument, LegsOf(r.positions, instrument), long, short, quantity,
                       BrokerOrZero(r.broker, instrument).v);
    PairAgrees(r, instrument, long, short, quantity);
    var pair := PairOf(instrument, long, short, quantity, BrokerOrZero(r.broker, instrument).v);
    if DecidePair(Unchanged(r), pair).Ok? {
      AcceptedBooksSmaller(r.positions, Unchanged(r), pair);
    }
  }

  /** The order is the pair's, and takes the whole of its smaller leg from both: it only closes, and the net stays. */
  ghost predicate BooksSmallerLeg(positions: seq<Position>, pair: ContraPair, order: RepairOrder) {
    var whole := Min(Abs(pair.longQty), Abs(pair.shortQty));
    var book := Book(LegsOf(positions, pair.instrument));
    && order.fingerprint == pair.Print()
    && SignedAt(order.legs, pair.longId) == -whole && SignedAt(order.legs, pair.shortId) == whole
    && OnlyCloses(positions, pair.instrument, order.legs)
    && NetOn(ApplyAll(book, order.legs), pair.instrument) == NetOn(book, pair.instrument)
  }

  lemma {:induction false} AcceptedBooksSmaller(positions: seq<Position>, f: Fresh, pair: ContraPair)
    requires NettingBook(positions) && f.byKey == ByKey(positions)
    requires DecidePair(f, pair).Ok? && pair.longQty > 0.0 && pair.shortQty < 0.0
    ensures BooksSmallerLeg(positions, pair, DecidePair(f, pair).value)
  {
    hide DecidePair, NettingBook, LegsOf, ByKey, Distinct, OnlyCloses, NetOn, ApplyAll, SignedAt;
    PairOrderSound(positions, f, pair);
    var long, short := AcceptedPair(positions, f, pair);
    LegsReady(positions, pair.instrument);
    var whole := Min(Abs(pair.longQty), Abs(pair.shortQty));
    PairRepairs(pair.instrument, LegsOf(positions, pair.instrument), long, short, whole, pair.brokerQty);
  }

  lemma {:induction false} OperatorPairBooked(instrument: string, legs: seq<Position>, long: Position, short: Position,
                                              quantity: real, venue: real)
    requires Distinct(legs) && UniqueIds(Book(legs)) && (forall p :: p in legs ==> p.instrument == instrument)
    requires long in legs && short in legs && IsLong(long) && IsShort(short)
    requires quantity <= Min(Abs(long.Signed()), Abs(short.Signed())) + QTY_TOLERANCE
    ensures var pair := PairOf(instrument, long, short, quantity, venue);
            && NetOn(ApplyAll(Book(legs), pair.Legs()), instrument) == NetOn(Book(legs), instrument)
            && pair.longQty + SignedAt(pair.Legs(), pair.longId) >= -QTY_TOLERANCE
            && pair.shortQty + SignedAt(pair.Legs(), pair.shortId) <= QTY_TOLERANCE
  {
    var pair := PairOf(instrument, long, short, quantity, venue);
    if long.id == short.id {
      SameId(legs, long, short);
    }
    hide Distinct, UniqueIds, NetOn, ApplyAll, SignedAt, SignedOn;
    PairTotals(pair, long.id);
    PairTotals(pair, short.id);
    AimedAt(legs, long, pair.Legs()[1]);
    AimedAt(legs, short, pair.Legs()[0]);
    NetAfterAll(Book(legs), pair.Legs(), instrument);
  }
}
