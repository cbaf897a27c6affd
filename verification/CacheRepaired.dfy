/**
 What a written repair leaves behind: every index says what the objects say, planning again finds nothing to do, and
 exactly when an order's position mapping is left pointing at a deleted position.
 */
module CacheRepaired {
  import opened Prelude
  import opened CacheReplay
  import opened CacheOrders
  import opened CachePlan
  import opened CacheNet
  import opened CacheApply

  // ---- the indexes -------------------------------------------------------------------------------

  /** The order is in exactly the set its replayed events demand; in none, when it has no events. */
  predicate OrderIndexed(c: Cache, coid: string) {
    if coid in c.orders && c.orders[coid] != []
    then (coid in c.ordersOpen <==> RestsOpen(StatusOf(c.orders[coid]))) && (coid in c.ordersClosed <==> coid !in c.ordersOpen)
    else coid !in c.ordersOpen && coid !in c.ordersClosed
  }

  /** The position is in exactly the sets its replayed fills demand; in none, and unsnapshotted, when deleted. */
  predicate PositionIndexed(c: Cache, pid: string) {
    if pid in c.positions
    then
      && pid in c.positionsAll
      && (pid in c.positionsOpen <==> IsOpen(c.positions[pid]))
      && (pid in c.positionsClosed <==> pid !in c.positionsOpen)
    else pid !in c.positionsAll && pid !in c.positionsOpen && pid !in c.positionsClosed
  }

  predicate Names(revivals: seq<Revival>, coid: string) {
    exists rv :: rv in revivals && rv.coid == coid
  }

  predicate Writes(rewrites: seq<Rewrite>, pid: string) {
    exists rw :: rw in rewrites && rw.pid == pid && !rw.same
  }

  /** What planning guarantees of a revival and of a rewrite, and applying needs. */
  predicate SoundRevival(rv: Revival) {
    rv.events != [] && rv.after == StatusOf(rv.events)
  }

  predicate SoundRewrite(rw: Rewrite) {
    rw.isOpen <==> IsOpen(rw.events)
  }

  lemma {:induction false} OneRevivalIndexes(c: Cache, rv: Revival, coid: string)
    requires SoundRevival(rv)
    ensures OrderIndexed(ApplyRevival(c, rv), rv.coid)
    ensures coid != rv.coid ==> (OrderIndexed(ApplyRevival(c, rv), coid) <==> OrderIndexed(c, coid))
  {
    hide RestsOpen, StatusOf, LastPid;
  }

  lemma {:induction false} RevivalsIndex(c: Cache, revivals: seq<Revival>, coid: string)
    requires forall rv :: rv in revivals ==> SoundRevival(rv)
    requires OrderIndexed(c, coid) || Names(revivals, coid)
    ensures OrderIndexed(ApplyRevivals(c, revivals), coid)
    decreases |revivals|
  {
    hide OrderIndexed, ApplyRevival, SoundRevival;
    if revivals != [] {
      var n := |revivals| - 1;
      var before, last := revivals[..n], revivals[n];
      assert revivals == before + [last] && last in revivals;
      OneRevivalIndexes(ApplyRevivals(c, before), last, coid);
      if last.coid != coid {
        RevivalsIndex(c, before, coid);
      }
    }
  }

  lemma {:induction false} OneRewriteIndexes(c: Cache, rw: Rewrite, snapshot: map<string, string>, pid: string)
    requires SoundRewrite(rw)
    ensures !rw.same ==> PositionIndexed(ApplyRewrite(c, rw, snapshot), rw.pid)
    ensures rw.same || pid != rw.pid ==> (PositionIndexed(ApplyRewrite(c, rw, snapshot), pid) <==> PositionIndexed(c, pid))
  {
    hide IsOpen, MappedTo;
  }

  lemma {:induction false} RewritesIndex(c: Cache, rewrites: seq<Rewrite>, snapshot: map<string, string>, pid: string)
    requires forall rw :: rw in rewrites ==> SoundRewrite(rw)
    requires PositionIndexed(c, pid) || Writes(rewrites, pid)
    ensures PositionIndexed(ApplyRewrites(c, rewrites, snapshot), pid)
    decreases |rewrites|
  {
    hide PositionIndexed, ApplyRewrite, SoundRewrite;
    if rewrites != [] {
      var n := |rewrites| - 1;
      var before, last := rewrites[..n], rewrites[n];
      assert rewrites == before + [last] && last in rewrites;
      OneRewriteIndexes(ApplyRewrites(c, before, snapshot), last, snapshot, pid);
      if last.same || last.pid != pid {
        RewritesIndex(c, before, snapshot, pid);
      }
    }
  }

  /** Revivals write orders, rewrites write positions: neither disturbs the other's indexes. */
  lemma {:induction false} RevivalsKeepPositions(c: Cache, revivals: seq<Revival>, pid: string)
    ensures PositionIndexed(ApplyRevivals(c, revivals), pid) <==> PositionIndexed(c, pid)
    ensures ApplyRevivals(c, revivals).positions == c.positions
    decreases |revivals|
  {
    hide IsOpen, LastPid, RestsOpen;
    if revivals != [] {
      RevivalsKeepPositions(c, revivals[..|revivals| - 1], pid);
    }
  }

  lemma {:induction false} RewritesKeepOrders(c: Cache, rewrites: seq<Rewrite>, snapshot: map<string, string>,
                                              coid: string)
    ensures OrderIndexed(ApplyRewrites(c, rewrites, snapshot), coid) <==> OrderIndexed(c, coid)
    ensures ApplyRewrites(c, rewrites, snapshot).orders == c.orders
    decreases |rewrites|
  {
    hide IsOpen, MappedTo, RestsOpen, StatusOf;
    if rewrites != [] {
      RewritesKeepOrders(c, rewrites[..|rewrites| - 1], snapshot, coid);
    }
  }

  predicate SoundPlan(plan: Plan) {
    && (forall rv :: rv in plan.revivals ==> SoundRevival(rv))
    && (forall rw :: rw in plan.rewrites ==> SoundRewrite(rw))
    && plan.dropOrders == []
  }

  /**
   After a plan is applied, every order and position it rewrote sits in exactly the set its replayed object demands and
   every deleted one in none; and whatever was indexed rightly before still is.
   */
  lemma {:induction false} AppliedIsIndexed(c: Cache, plan: Plan, coid: string, pid: string)
    requires SoundPlan(plan)
    ensures OrderIndexed(c, coid) || Names(plan.revivals, coid) ==> OrderIndexed(Apply(c, plan), coid)
    ensures PositionIndexed(c, pid) || Writes(plan.rewrites, pid) ==> PositionIndexed(Apply(c, plan), pid)
  {
    hide OrderIndexed, PositionIndexed, Names, Writes, ApplyRevivals, ApplyRewrites, SoundRevival, SoundRewrite;
    var revived := ApplyRevivals(c, plan.revivals);
    if OrderIndexed(c, coid) || Names(plan.revivals, coid) {
      RevivalsIndex(c, plan.revivals, coid);
    }
    RewritesKeepOrders(revived, plan.rewrites, c.orderPosition, coid);
    RevivalsKeepPositions(c, plan.revivals, pid);
    if PositionIndexed(c, pid) || Writes(plan.rewrites, pid) {
      RewritesIndex(revived, plan.rewrites, c.orderPosition, pid);
    }
  }

  // ---- where the written lists come from ---------------------------------------------------------

  /** The lists themselves: the positions are those of the plan's rewrites, the orders those of its revivals. */
  lemma {:induction false} AppliedPositions(c: Cache, rewrites: seq<Rewrite>, snapshot: map<string, string>)
    ensures ApplyRewrites(c, rewrites, snapshot).positions == PutAll(c.positions, rewrites)
    decreases |rewrites|
  {
    hide IsOpen, MappedTo;
    if rewrites != [] {
      AppliedPositions(c, rewrites[..|rewrites| - 1], snapshot);
    }
  }

  function PutOrders(orders: map<string, seq<OrderEvent>>, revivals: seq<Revival>): map<string, seq<OrderEvent>>
    decreases |revivals|
  {
    if revivals == [] then orders
    else PutOrders(orders, revivals[..|revivals| - 1])[revivals[|revivals| - 1].coid := revivals[|revivals| - 1].events]
  }

  lemma {:induction false} AppliedOrders(c: Cache, revivals: seq<Revival>)
    ensures ApplyRevivals(c, revivals).orders == PutOrders(c.orders, revivals)
    decreases |revivals|
  {
    hide LastPid, RestsOpen;
    if revivals != [] {
      AppliedOrders(c, revivals[..|revivals| - 1]);
    }
  }

  lemma {:induction false} PutOrdersAt(orders: map<string, seq<OrderEvent>>, revivals: seq<Revival>, coid: string)
    ensures Names(revivals, coid) ==>
              && coid in PutOrders(orders, revivals)
              && exists rv :: rv in revivals && rv.coid == coid && PutOrders(orders, revivals)[coid] == rv.events
    ensures !Names(revivals, coid) ==>
              && (coid in PutOrders(orders, revivals) <==> coid in orders)
              && (coid in orders ==> PutOrders(orders, revivals)[coid] == orders[coid])
    decreases |revivals|
  {
    if revivals != [] {
      var n := |revivals| - 1;
      var before, last := revivals[..n], revivals[n];
      assert revivals == before + [last] && last in revivals;
      assert forall rv :: rv in before ==> rv in revivals;
      if last.coid != coid {
        PutOrdersAt(orders, before, coid);
        if Names(before, coid) {
          var rv :| rv in before && rv.coid == coid && PutOrders(orders, before)[coid] == rv.events;
          assert rv in revivals && PutOrders(orders, revivals)[coid] == rv.events;
        } else {
          assert !Names(revivals, coid);
        }
      }
    }
  }

  // ---- planning again ----------------------------------------------------------------------------

  /** Where a revival comes from, and what becomes of a corpse the venue would have revived. */
  ghost predicate RevivedAs(image: Image, venue: Venue, coids: seq<string>, revivals: seq<Revival>)
    requires WellFormed(image)
  {
    && (forall rv :: rv in revivals ==> FromCorpse(image, venue, rv) && rv.coid in coids)
    && (forall c :: c in coids && c in venue.orders && WorthReviving(venue.orders[c]) ==> Names(revivals, c))
  }

  predicate FromCorpse(image: Image, venue: Venue, rv: Revival)
    requires WellFormed(image)
  {
    && rv.coid in Corpses(image, venue)
    && Revive(image, rv.coid, venue.orders[rv.coid]) == Ok(rv)
  }

  lemma {:induction false} ReviveAllLaws(image: Image, venue: Venue, coids: seq<string>)
    requires WellFormed(image) && (forall c :: c in coids ==> c in Corpses(image, venue))
    requires ReviveAll(image, venue, coids).Ok?
    ensures RevivedAs(image, venue, coids, ReviveAll(image, venue, coids).value.0)
    decreases |coids|
  {
    hide Revive, WorthReviving, WellFormed, Corpses, StatusOf;
    if coids != [] {
      var n := |coids| - 1;
      var c, before := coids[n], coids[..n];
      assert coids == before + [c] && c in coids;
      CorpseIsRejected(image, venue, c);
      ReviveAllLaws(image, venue, before);
      var revivals := ReviveAll(image, venue, before).value.0;
      if WorthReviving(venue.orders[c]) {
        ReviveKeepsName(image, c, venue.orders[c]);
        RevivedGrows(image, venue, before, c, revivals, Revive(image, c, venue.orders[c]).value);
      } else {
        assert ReviveAll(image, venue, coids).value.0 == revivals;
      }
    }
  }

  lemma {:induction false} CorpseIsRejected(image: Image, venue: Venue, c: string)
    requires WellFormed(image) && c in Corpses(image, venue)
    ensures c in image.orders && image.orders[c] != [] && StatusOf(image.orders[c]).IsRejected? && c in venue.orders
  {
    hide StatusOf;
  }

  lemma {:induction false} ReviveKeepsName(image: Image, c: string, vo: VenueOrder)
    requires WellFormed(image) && c in image.orders && image.orders[c] != [] && StatusOf(image.orders[c]).IsRejected?
    ensures Revive(image, c, vo).Ok? ==> Revive(image, c, vo).value.coid == c
  {
    hide WellFormed, StatusOf, Refilled, FirstAccepted, FirstRejected;
  }

  lemma {:induction false} RevivedGrows(image: Image, venue: Venue, before: seq<string>, c: string,
                                        revivals: seq<Revival>, rv: Revival)
    requires WellFormed(image) && RevivedAs(image, venue, before, revivals)
    requires FromCorpse(image, venue, rv) && rv.coid == c
    ensures RevivedAs(image, venue, before + [c], revivals + [rv])
  {
    hide WellFormed, FromCorpse, WorthReviving, Corpses;
    forall k | k in before + [c] && k in venue.orders && WorthReviving(venue.orders[k])
      ensures Names(revivals + [rv], k)
    {
      if k in before {
        var x :| x in revivals && x.coid == k;
        assert x in revivals + [rv];
      } else {
        assert rv in revivals + [rv];
      }
    }
  }

  lemma {:induction false} NothingWorthReviving(image: Image, venue: Venue, coids: seq<string>)
    requires WellFormed(image) && (forall c :: c in coids ==> c in Corpses(image, venue))
    requires forall c :: c in coids ==> c in venue.orders && !WorthReviving(venue.orders[c])
    ensures ReviveAll(image, venue, coids) == Ok(([], coids))
    decreases |coids|
  {
    hide Revive, WorthReviving, WellFormed, Corpses;
    if coids != [] {
      var n := |coids| - 1;
      assert coids == coids[..n] + [coids[n]] && coids[n] in coids;
      NothingWorthReviving(image, venue, coids[..n]);
    }
  }

  lemma {:induction false} NothingFired(image: Image, venue: Venue)
    requires WellFormed(image)
    ensures PlanInstruments(image, Fired([]), venue, SortedStrings(FiredInstruments(Fired([])))) == Ok(Planned([], map[], []))
  {
    hide WellFormed;
    assert FiredInstruments(map[]) == {};
  }

  /** The revived orders are no longer rejected; the other orders are as they were. */
  lemma {:induction false} RemainingCorpses(image: Image, venue: Venue, revivals: seq<Revival>, again: Image, c: string)
    requires WellFormed(image) && WellFormed(again)
    requires RevivedAs(image, venue, SortedStrings(Corpses(image, venue)), revivals)
    requires again.orders == PutOrders(image.orders, revivals)
    requires c in Corpses(again, venue)
    ensures c in venue.orders && !WorthReviving(venue.orders[c])
  {
    hide Revive, WorthReviving, Corpses, StatusOf, SortedStrings, PutOrders, WellFormed;
    CorpseIsRejected(again, venue, c);
    PutOrdersAt(image.orders, revivals, c);
    if Names(revivals, c) {
      var rv :| rv in revivals && rv.coid == c && PutOrders(image.orders, revivals)[c] == rv.events;
      CorpseIsRejected(image, venue, c);
      RevivalAccounting(image, c, venue.orders[c]);
      assert false;
    } else {
      StillCorpse(image, again, venue, c);
    }
  }

  lemma {:induction false} StillCorpse(image: Image, again: Image, venue: Venue, c: string)
    requires WellFormed(image) && WellFormed(again) && c in Corpses(again, venue)
    requires c in image.orders && again.orders[c] == image.orders[c]
    ensures c in Corpses(image, venue)
  {
    hide StatusOf;
  }

  lemma {:induction false} ReplanFindsNothing(image: Image, venue: Venue, plan: Plan, again: Image)
    requires WellFormed(image) && WellFormed(again) && PlanRepair(image, venue) == Ok(plan)
    requires again.orders == PutOrders(image.orders, plan.revivals)
    ensures PlanRepair(again, venue) == Ok(Plan([], [], map[], [], SortedStrings(Corpses(again, venue)), []))
  {
    hide WellFormed, PlanInstruments, ReviveAll, Fired, Corpses, RevivedAs, PutOrders, SortedStrings, WorthReviving;
    var coids := SortedStrings(Corpses(image, venue));
    ReviveAllLaws(image, venue, coids);
    var left := SortedStrings(Corpses(again, venue));
    forall c | c in left
      ensures c in venue.orders && !WorthReviving(venue.orders[c])
    {
      RemainingCorpses(image, venue, plan.revivals, again, c);
    }
    NothingWorthReviving(again, venue, left);
    NothingFired(again, venue);
  }

  /** An image is read from the cache. */
  predicate Reads(image: Image, c: Cache) {
    && image.orders == c.orders && image.positions == c.positions
    && image.positionsOpen == c.positionsOpen && image.orderPosition == c.orderPosition
  }

  /** Repairing is idempotent: planning again on what was written finds nothing to revive or rewrite. */
  lemma {:induction false} RepairIsIdempotent(c: Cache, image: Image, venue: Venue, plan: Plan, again: Image)
    requires WellFormed(image) && Reads(image, c) && PlanRepair(image, venue) == Ok(plan) && !plan.IsRefused()
    requires WellFormed(again) && Reads(again, Apply(c, plan))
    ensures PlanRepair(again, venue).Ok?
    ensures var second := PlanRepair(again, venue).value;
            second.IsNoop() && !second.IsRefused() && Apply(Apply(c, plan), second) == Apply(c, plan)
  {
    hide WellFormed, ApplyRevivals, ApplyRewrites, SortedStrings, Corpses;
    PlanDropsNothing(image, venue, plan);
    AppliedOrders(c, plan.revivals);
    RewritesKeepOrders(ApplyRevivals(c, plan.revivals), plan.rewrites, c.orderPosition, "");
    ReplanFindsNothing(image, venue, plan, again);
    NothingApplied(Apply(c, plan), PlanRepair(again, venue).value);
  }

  lemma {:induction false} PlanDropsNothing(image: Image, venue: Venue, plan: Plan)
    requires WellFormed(image) && PlanRepair(image, venue) == Ok(plan)
    ensures plan.dropOrders == []
  {
    hide WellFormed, PlanInstruments, ReviveAll, Fired, Corpses;
  }

  lemma {:induction false} NothingApplied(c: Cache, plan: Plan)
    requires plan.revivals == [] && plan.rewrites == [] && plan.dropOrders == []
    ensures Apply(c, plan) == c
  {
  }

  /** Exactly the corpses worth reviving are rewritten; every other order keeps its events. */
  lemma {:induction false} OnlyCorpsesRewritten(c: Cache, image: Image, venue: Venue, plan: Plan, coid: string)
    requires WellFormed(image) && Reads(image, c) && PlanRepair(image, venue) == Ok(plan)
    ensures Names(plan.revivals, coid) <==>
              coid in c.orders && IsCorpse(image, venue, coid) && WorthReviving(venue.orders[coid])
    ensures !Names(plan.revivals, coid) && coid in c.orders ==>
              coid in Apply(c, plan).orders && Apply(c, plan).orders[coid] == c.orders[coid]
  {
    hide WellFormed, PlanInstruments, Fired, Revive, WorthReviving, RevivedAs, StatusOf, ApplyRevivals, ApplyRewrites, PutOrders;
    var coids := SortedStrings(Corpses(image, venue));
    ReviveAllLaws(image, venue, coids);
    RevivedAre(image, venue, coids, plan.revivals, coid);
    PlanDropsNothing(image, venue, plan);
    AppliedOrders(c, plan.revivals);
    RewritesKeepOrders(ApplyRevivals(c, plan.revivals), plan.rewrites, c.orderPosition, coid);
    PutOrdersAt(c.orders, plan.revivals, coid);
    ReviveOnlyWorth(image, venue, coids);
  }

  lemma {:induction false} RevivedAre(image: Image, venue: Venue, coids: seq<string>, revivals: seq<Revival>, coid: string)
    requires WellFormed(image) && RevivedAs(image, venue, coids, revivals)
    requires forall c :: c in coids <==> c in Corpses(image, venue)
    ensures Names(revivals, coid) ==> coid in Corpses(image, venue)
    ensures coid in Corpses(image, venue) && WorthReviving(venue.orders[coid]) ==> Names(revivals, coid)
  {
    hide WellFormed, WorthReviving, Revive, StatusOf;
  }

  lemma {:induction false} ReviveOnlyWorth(image: Image, venue: Venue, coids: seq<string>)
    requires WellFormed(image) && (forall c :: c in coids ==> c in Corpses(image, venue))
    requires ReviveAll(image, venue, coids).Ok?
    ensures forall rv :: rv in ReviveAll(image, venue, coids).value.0 ==>
              rv.coid in venue.orders && WorthReviving(venue.orders[rv.coid])
    decreases |coids|
  {
    hide Revive, WorthReviving, WellFormed, Corpses, StatusOf;
    if coids != [] {
      var n := |coids| - 1;
      assert coids[n] in coids && forall c :: c in coids[..n] ==> c in coids;
      CorpseIsRejected(image, venue, coids[n]);
      ReviveOnlyWorth(image, venue, coids[..n]);
      ReviveKeepsName(image, coids[n], venue.orders[coids[n]]);
    }
  }

  // ---- a plan is sound to apply ------------------------------------------------------------------

  lemma {:induction false} DecideAllSound(image: Image, fired: map<Lane, int>, instrument: string, pids: seq<string>)
    requires WellFormed(image) && forall p :: p in pids ==> p in image.positions
    ensures forall rw :: rw in DecideAll(image, fired, instrument, pids).0 ==> SoundRewrite(rw)
    decreases |pids|
  {
    hide WellFormed, Decide, Belongs, IsOpen;
    if pids != [] {
      var n := |pids| - 1;
      assert pids[n] in pids;
      DecideAllSound(image, fired, instrument, pids[..n]);
      if Belongs(pids[n], instrument) {
        DecideNamesPid(image, fired, instrument, pids[n]);
        NothingIsOpen();
      }
    }
  }

  lemma {:induction false} NothingIsOpen()
    ensures !IsOpen([])
  {
  }

  lemma {:induction false} PlanInstrumentsSound(image: Image, fired: map<Lane, int>, venue: Venue,
                                                instruments: seq<string>)
    requires WellFormed(image) && PlanInstruments(image, fired, venue, instruments).Ok?
    ensures forall rw :: rw in PlanInstruments(image, fired, venue, instruments).value.rewrites ==> SoundRewrite(rw)
    decreases |instruments|
  {
    hide WellFormed, DecideAll, SoundRewrite, SortedStrings, VenueNet, SymbolOf;
    if instruments != [] {
      var n := |instruments| - 1;
      PlanInstrumentsSound(image, fired, venue, instruments[..n]);
      DecideAllSound(image, fired, instruments[n], SortedStrings(image.positions.Keys));
    }
  }

  lemma {:induction false} PlanIsSound(image: Image, venue: Venue, plan: Plan)
    requires WellFormed(image) && PlanRepair(image, venue) == Ok(plan)
    ensures SoundPlan(plan)
  {
    hide WellFormed, PlanInstruments, ReviveAll, Fired, Corpses, SoundRewrite, Revive, StatusOf, WorthReviving;
    var coids := SortedStrings(Corpses(image, venue));
    ReviveAllLaws(image, venue, coids);
    forall rv | rv in plan.revivals
      ensures SoundRevival(rv)
    {
      assert FromCorpse(image, venue, rv);
      CorpseIsRejected(image, venue, rv.coid);
      RevivalAccounting(image, rv.coid, venue.orders[rv.coid]);
    }
    PlanInstrumentsSound(image, Fired(plan.revivals), venue, Touched(plan.revivals));
  }

  /**
   The repair as one statement: written, it leaves a touched instrument's open positions netting to the venue exactly when the
   positions it shares with other touched instruments end, in sum, as its own rules left them, so always when it shares none;
   and every revived order and rewritten position in exactly the sets its events demand, and nothing else less consistent
   than it was.
   */
  lemma {:induction false} RepairLands(c: Cache, image: Image, venue: Venue, plan: Plan)
    requires WellFormed(image) && Reads(image, c) && PlanRepair(image, venue) == Ok(plan) && !plan.IsRefused()
    ensures forall i :: i in Touched(plan.revivals) ==>
              (InstrumentNet(Apply(c, plan).positions, i) == VenueNet(venue, i) <==>
               SharedEndAsOwn(image, Fired(plan.revivals), Touched(plan.revivals), i))
    ensures forall i :: i in Touched(plan.revivals) && SharedBy(image, Touched(plan.revivals), i) == [] ==>
              InstrumentNet(Apply(c, plan).positions, i) == VenueNet(venue, i)
    ensures forall coid :: OrderIndexed(c, coid) || Names(plan.revivals, coid) ==> OrderIndexed(Apply(c, plan), coid)
    ensures forall pid :: PositionIndexed(c, pid) || Writes(plan.rewrites, pid) ==> PositionIndexed(Apply(c, plan), pid)
  {
    hide WellFormed, PlanRepair, InstrumentNet, VenueNet, Touched, OrderIndexed, PositionIndexed, Names, Writes, Apply, PutAll,
      SoundRevival, SoundRewrite, SharedBy, SharedEndAsOwn;
    PlanIsSound(image, venue, plan);
    WrittenPositions(c, plan);
    forall i | i in Touched(plan.revivals)
      ensures InstrumentNet(Apply(c, plan).positions, i) == VenueNet(venue, i)
         <==> SharedEndAsOwn(image, Fired(plan.revivals), Touched(plan.revivals), i)
      ensures SharedBy(image, Touched(plan.revivals), i) == [] ==>
                InstrumentNet(Apply(c, plan).positions, i) == VenueNet(venue, i)
    {
      RepairedNetsIff(image, venue, plan, i);
      if SharedBy(image, Touched(plan.revivals), i) == [] {
        RepairedNets(image, venue, plan, i);
      }
    }
    forall coid | OrderIndexed(c, coid) || Names(plan.revivals, coid)
      ensures OrderIndexed(Apply(c, plan), coid)
    {
      AppliedIsIndexed(c, plan, coid, "");
    }
    forall pid | PositionIndexed(c, pid) || Writes(plan.rewrites, pid)
      ensures PositionIndexed(Apply(c, plan), pid)
    {
      AppliedIsIndexed(c, plan, "", pid);
    }
  }

  lemma {:induction false} WrittenPositions(c: Cache, plan: Plan)
    requires plan.dropOrders == []
    ensures Apply(c, plan).positions == PutAll(c.positions, plan.rewrites)
  {
    hide PutAll, ApplyRevivals, ApplyRewrites;
    AppliedPositions(ApplyRevivals(c, plan.revivals), plan.rewrites, c.orderPosition);
    RevivalsKeepPositions(c, plan.revivals, "");
  }

  // ---- the order-to-position index ---------------------------------------------------------------

  /** The positions a plan deletes. */
  function Deleted(rewrites: seq<Rewrite>): set<string> {
    set rw | rw in rewrites && !rw.same && rw.events == [] :: rw.pid
  }

  /** The orders that, as the index was read, belong to a deleted position. */
  predicate WasMappedToDeleted(snapshot: map<string, string>, rewrites: seq<Rewrite>, coid: string) {
    coid in snapshot && snapshot[coid] in Deleted(rewrites)
  }

  lemma {:induction false} RewritesUnmap(c: Cache, rewrites: seq<Rewrite>, snapshot: map<string, string>, coid: string)
    ensures var m := ApplyRewrites(c, rewrites, snapshot).orderPosition;
            && (coid in m <==> coid in c.orderPosition && !WasMappedToDeleted(snapshot, rewrites, coid))
            && (coid in m ==> m[coid] == c.orderPosition[coid])
    decreases |rewrites|
  {
    if rewrites == [] {
      assert Deleted(rewrites) == {};
    } else {
      var n := |rewrites| - 1;
      var before, last := rewrites[..n], rewrites[n];
      assert rewrites == before + [last];
      RewritesUnmap(c, before, snapshot, coid);
      assert Deleted(rewrites) == Deleted(before) + (if !last.same && last.events == [] then {last.pid} else {});
    }
  }

  predicate DistinctRevivals(revivals: seq<Revival>) {
    forall i, j :: 0 <= i < j < |revivals| ==> revivals[i].coid != revivals[j].coid
  }

  /** A planned revival names each order once. */
  lemma {:induction false} PlanRevivesOnce(image: Image, venue: Venue, coids: seq<string>)
    requires WellFormed(image) && (forall c :: c in coids ==> c in Corpses(image, venue)) && Distinct(coids)
    requires ReviveAll(image, venue, coids).Ok?
    ensures DistinctRevivals(ReviveAll(image, venue, coids).value.0)
    decreases |coids|
  {
    hide Revive, WorthReviving, WellFormed, Corpses, StatusOf, FromCorpse;
    if coids != [] {
      var n := |coids| - 1;
      var c, before := coids[n], coids[..n];
      assert coids == before + [c] && c in coids;
      CorpseIsRejected(image, venue, c);
      PlanRevivesOnce(image, venue, before);
      ReviveAllLaws(image, venue, before);
      ReviveKeepsName(image, c, venue.orders[c]);
      var revivals := ReviveAll(image, venue, before).value.0;
      forall i | 0 <= i < |revivals|
        ensures revivals[i].coid != c
      {
        assert revivals[i] in revivals;
        var k :| 0 <= k < n && before[k] == revivals[i].coid;
        assert coids[k] != coids[n];
      }
    }
  }

  lemma {:induction false} RevivalsMap(c: Cache, revivals: seq<Revival>, coid: string, rv: Revival)
    requires DistinctRevivals(revivals) && rv in revivals && rv.coid == coid
    ensures var m := ApplyRevivals(c, revivals).orderPosition;
            match LastPid(rv.events)
            case Some(p) => coid in m && m[coid] == p
            case None => (coid in m <==> coid in c.orderPosition) && (coid in m ==> m[coid] == c.orderPosition[coid])
    decreases |revivals|
  {
    hide LastPid, RestsOpen;
    var n := |revivals| - 1;
    var before, last := revivals[..n], revivals[n];
    assert revivals == before + [last];
    if last == rv {
      RevivalsMapOthers(c, before, coid);
    } else {
      assert rv in before;
      RevivalsMap(c, before, coid, rv);
    }
  }

  lemma {:induction false} RevivalsMapOthers(c: Cache, revivals: seq<Revival>, coid: string)
    requires forall i :: 0 <= i < |revivals| ==> revivals[i].coid != coid
    ensures var m := ApplyRevivals(c, revivals).orderPosition;
            (coid in m <==> coid in c.orderPosition) && (coid in m ==> m[coid] == c.orderPosition[coid])
    decreases |revivals|
  {
    hide LastPid, RestsOpen;
    if revivals != [] {
      RevivalsMapOthers(c, revivals[..|revivals| - 1], coid);
    }
  }

  /** The index maps the order to a position the plan has just deleted. */
  predicate Dangles(c: Cache, plan: Plan, coid: string) {
    var m := Apply(c, plan).orderPosition;
    coid in m && m[coid] in Deleted(plan.rewrites)
  }

  /**
   Exactly when the mapping of an order is left dangling: the order was revived, the last of its fills books to a
   position the plan deletes, and the index, as it was read before the write, did not already map the order to a
   deleted position. Orders that were not revived never dangle.
   */
  lemma {:induction false} DanglesIff(c: Cache, plan: Plan, coid: string)
    requires plan.dropOrders == []
    requires DistinctRevivals(plan.revivals)
    ensures Dangles(c, plan, coid) <==>
              && !WasMappedToDeleted(c.orderPosition, plan.rewrites, coid)
              && exists rv :: rv in plan.revivals && rv.coid == coid && LastPid(rv.events).Some?
                           && LastPid(rv.events).value in Deleted(plan.rewrites)
  {
    hide LastPid, RestsOpen, ApplyRewrites, ApplyRevivals, Deleted;
    var revived := ApplyRevivals(c, plan.revivals);
    RewritesUnmap(revived, plan.rewrites, c.orderPosition, coid);
    if i :| 0 <= i < |plan.revivals| && plan.revivals[i].coid == coid {
      RevivalsMap(c, plan.revivals, coid, plan.revivals[i]);
      assert forall rv :: rv in plan.revivals && rv.coid == coid ==> rv == plan.revivals[i];
    } else {
      RevivalsMapOthers(c, plan.revivals, coid);
    }
  }
}