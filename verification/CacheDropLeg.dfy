/**
 Dropping one phantom leg (backend/api/cache_repair.py:642-749): a position whose current instance is a single fill the
 platform invented is rewritten to its real, closed history, and the order that carried the fill goes with it.
 */
module CacheDropLeg {
  import opened Prelude
  import opened CacheReplay
  import opened CacheOrders
  import opened CachePlan
  import opened CacheNet
  import opened CacheApply
  import opened CacheRepaired

  const SYNTHETIC_PREFIX := "S-"

  /** `position_id.split("-", 1)[0]` */
  function InstrumentPart(pid: string): (r: string)
    ensures r <= pid && '-' !in r
    ensures '-' in pid <==> Belongs(pid, r)
  {
    if pid == [] || pid[0] == '-' then []
    else
      var rest := InstrumentPart(pid[1..]);
      assert pid == [pid[0]] + pid[1..];
      [pid[0]] + rest
  }

  /** The open quantity of an instrument, over the positions the index calls open. */
  function OpenNet(positions: map<string, seq<Fill>>, open: set<string>, instrument: string): real {
    SumBy(SortedStrings(open), OnInstrument(positions, instrument))
  }

  /** The platform's own signature of a fill it invented. */
  predicate IsInvented(f: Fill) {
    f.reconciliation && StartsWith(f.venueOrderId, SYNTHETIC_PREFIX) && StartsWith(f.tradeId, SYNTHETIC_PREFIX)
  }

  predicate IsMinted(e: OrderEvent) {
    match e
    case Accepted(v, _) => StartsWith(v, SYNTHETIC_PREFIX)
    case Filled(f) => StartsWith(f.venueOrderId, SYNTHETIC_PREFIX)
    case Canceled(v, _) => StartsWith(v, SYNTHETIC_PREFIX)
    case _ => false
  }

  function FillsAmong(events: seq<OrderEvent>): seq<Fill> {
    if events == [] then []
    else (if events[0].Filled? then [WithPositionId(events[0].fill)] else []) + FillsAmong(events[1..])
  }

  /** Another order whose fills booked to this position. */
  predicate AlsoBooked(image: Image, coid: string, pid: string, mint: string) {
    coid in image.orderPosition && image.orderPosition[coid] == pid && coid != mint && coid in image.orders
  }

  /** The fills of those orders, in the order they are mapped; none when one of them was invented too. */
  function RealFills(image: Image, mapped: seq<string>, pid: string, mint: string): Option<seq<Fill>>
    decreases |mapped|
  {
    if mapped == [] then Some([])
    else
      var n := |mapped| - 1;
      var before := RealFills(image, mapped[..n], pid, mint);
      if before.None? || !AlsoBooked(image, mapped[n], pid, mint) then before
      else
        var events := image.orders[mapped[n]];
        if exists e :: e in events && IsMinted(e) then None else Some(before.value + FillsAmong(events))
  }

  predicate ByTsThenInit(a: Fill, b: Fill) {
    a.ts < b.ts || (a.ts == b.ts && a.tsInit <= b.tsInit)
  }

  function Unexplains(pid: string): Plan {
    Plan([], [], map[], [pid], [], [])
  }

  /** `mapped` lists the keys of the order-to-position index in the order they are read. */
  function PlanDrop(image: Image, mapped: seq<string>, venue: Venue, pid: string): Result<Plan, Refusal> {
    if pid !in image.positions then Err(UnknownPosition)
    else
      var instrument := InstrumentPart(pid);
      if instrument !in image.instruments then Err(UnknownInstrument(instrument))
      else
        var cur := Current(image.positions[pid]);
        if cur == [] || NetOf(cur) == 0.0 || pid !in image.positionsOpen then Err(NotOpen)
        else if |cur| != 1 || !IsInvented(cur[0]) then Ok(Unexplains(pid))
        else
          var afterNet := OpenNet(image.positions, image.positionsOpen, instrument) - NetOf(cur);
          if afterNet != VenueNet(venue, instrument) then
            Ok(Plan([], [], map[SymbolOf(instrument) := (afterNet, VenueNet(venue, instrument))], [], [], []))
          else
            var mint := cur[0].coid;
            var found := RealFills(image, mapped, pid, mint);
            if found.None? then Ok(Unexplains(pid))
            else
              var history := Sort(found.value, ByTsThenInit);
              if history != [] && NetOf(Current(history)) != 0.0 then Ok(Unexplains(pid))
              else
                Ok(Plan([], [Rewrite(pid, history, false, false)], map[], [], [],
                        if mint in image.orders then [mint] else []))
  }

  /** `plan_drop_synthetic_leg`: the loop over the mapped orders collects their fills. */
  method PlanDropSyntheticLeg(image: Image, mapped: seq<string>, venue: Venue, pid: string)
    returns (r: Result<Plan, Refusal>)
    ensures r == PlanDrop(image, mapped, venue, pid)
  {
    hide OpenNet, VenueNet, IsInvented, AlsoBooked, IsMinted, FillsAmong, Current, NetOf, SymbolOf;
    if pid !in image.positions {
      return Err(UnknownPosition);
    }
    var instrument := InstrumentPart(pid);
    if instrument !in image.instruments {
      return Err(UnknownInstrument(instrument));
    }
    var cur := Current(image.positions[pid]);
    if cur == [] || NetOf(cur) == 0.0 || pid !in image.positionsOpen {
      return Err(NotOpen);
    }
    if |cur| != 1 || !IsInvented(cur[0]) {
      return Ok(Unexplains(pid));
    }
    var venueNet := VenueNet(venue, instrument);
    var afterNet := OpenNet(image.positions, image.positionsOpen, instrument) - NetOf(cur);
    if afterNet != venueNet {
      return Ok(Plan([], [], map[SymbolOf(instrument) := (afterNet, venueNet)], [], [], []));
    }
    var mint := cur[0].coid;
    var fills := CollectReal(image, mapped, pid, mint);
    if fills.None? {
      return Ok(Unexplains(pid));
    }
    var events := Sort(fills.value, ByTsThenInit);
    if events != [] && NetOf(Current(events)) != 0.0 {
      return Ok(Unexplains(pid));
    }
    return Ok(Plan([], [Rewrite(pid, events, false, false)], map[], [], [], if mint in image.orders then [mint] else []));
  }

  method CollectReal(image: Image, mapped: seq<string>, pid: string, mint: string) returns (r: Option<seq<Fill>>)
    ensures r == RealFills(image, mapped, pid, mint)
  {
    hide IsMinted, FillsAmong;
    var fills := [];
    var n := 0;
    while n < |mapped|
      invariant n <= |mapped|
      invariant RealFills(image, mapped[..n], pid, mint) == Some(fills)
    {
      assert mapped[..n + 1][..n] == mapped[..n];
      if AlsoBooked(image, mapped[n], pid, mint) {
        var events := image.orders[mapped[n]];
        if exists e :: e in events && IsMinted(e) {
          NoneSticks(image, mapped, pid, mint, n + 1);
          return None;
        }
        fills := fills + FillsAmong(events);
      }
      n := n + 1;
    }
    assert mapped[..n] == mapped;
    return Some(fills);
  }

  lemma {:induction false} NoneSticks(image: Image, mapped: seq<string>, pid: string, mint: string, n: nat)
    requires n <= |mapped| && RealFills(image, mapped[..n], pid, mint).None?
    ensures RealFills(image, mapped, pid, mint).None?
    decreases |mapped|
  {
    hide IsMinted, FillsAmong, AlsoBooked;
    if n == |mapped| {
      assert mapped[..n] == mapped;
    } else {
      var m := |mapped| - 1;
      assert mapped[..m][..n] == mapped[..n];
      NoneSticks(image, mapped[..m], pid, mint, n);
    }
  }

  // ---- what dropping the leg does ------------------------------------------------------------------

  /** The planned drop is one rewrite, to closed history, and at most the order that carried the phantom. */
  ghost predicate DropsLeg(image: Image, venue: Venue, pid: string, plan: Plan) {
    && pid in image.positions && pid in image.positionsOpen && IsOpen(image.positions[pid])
    && plan.revivals == []
    && |plan.rewrites| == 1 && plan.rewrites[0].pid == pid && !plan.rewrites[0].same && !plan.rewrites[0].isOpen
    && !IsOpen(plan.rewrites[0].events)
    && OpenNet(image.positions, image.positionsOpen, InstrumentPart(pid)) - NetOf(Current(image.positions[pid]))
       == VenueNet(venue, InstrumentPart(pid))
    && (forall c :: c in plan.dropOrders <==> c == Current(image.positions[pid])[0].coid && c in image.orders)
  }

  lemma {:induction false} PlannedDrop(image: Image, mapped: seq<string>, venue: Venue, pid: string)
    requires PlanDrop(image, mapped, venue, pid).Ok? && !PlanDrop(image, mapped, venue, pid).value.IsRefused()
    ensures DropsLeg(image, venue, pid, PlanDrop(image, mapped, venue, pid).value)
  {
    hide RealFills, OpenNet, VenueNet, IsInvented, Current, NetOf, InstrumentPart;
    var plan := PlanDrop(image, mapped, venue, pid).value;
    SomeRefusal(SymbolOf(InstrumentPart(pid)));
    NothingIsOpen();
  }

  lemma {:induction false} SomeRefusal(symbol: string)
    ensures forall v: (real, real) :: map[symbol := v] != map[]
  {
    forall v: (real, real)
      ensures map[symbol := v] != map[]
    {
      assert symbol in map[symbol := v];
    }
  }

  lemma {:induction false} DropsKeepPositions(c: Cache, coids: seq<string>)
    ensures ApplyDrops(c, coids).positions == c.positions && ApplyDrops(c, coids).positionsOpen == c.positionsOpen
    decreases |coids|
  {
    if coids != [] {
      DropsKeepPositions(c, coids[..|coids| - 1]);
    }
  }

  /** Apart from the phantom's position, no list and no open mark changes. */
  lemma {:induction false} OnlyTheLeg(c: Cache, pid: string, plan: Plan)
    requires plan.revivals == [] && |plan.rewrites| == 1
    requires plan.rewrites[0].pid == pid && !plan.rewrites[0].same && !plan.rewrites[0].isOpen
    ensures Apply(c, plan).positionsOpen == c.positionsOpen - {pid}
    ensures forall p :: p != pid ==> SameAt(c.positions, Apply(c, plan).positions, p)
    ensures Holds(Apply(c, plan).positions, pid, plan.rewrites[0].events)
  {
    var rw := plan.rewrites[0];
    assert plan.rewrites[..0] == [];
    DropsKeepPositions(ApplyRewrites(c, plan.rewrites, c.orderPosition), plan.dropOrders);
    assert ApplyRewrites(c, plan.rewrites, c.orderPosition) == ApplyRewrite(c, rw, c.orderPosition);
  }

  lemma {:induction false} OpenNetWithout(before: map<string, seq<Fill>>, after: map<string, seq<Fill>>,
                                          open: set<string>, pid: string, instrument: string)
    requires pid in open && pid in before && forall p :: p != pid ==> SameAt(before, after, p)
    ensures OpenNet(after, open - {pid}, instrument)
         == OpenNet(before, open, instrument) - OnInstrument(before, instrument)(pid)
  {
    var f, g := OnInstrument(before, instrument), OnInstrument(after, instrument);
    SumSetOfList(SortedStrings(open), open, f);
    SumSetOfList(SortedStrings(open - {pid}), open - {pid}, g);
    SumSetWithout(open, pid, f);
    forall p | p in open - {pid}
      ensures f(p) == g(p)
    {
      assert SameAt(before, after, p);
    }
    SumSetSame(open - {pid}, f, g);
  }

  /**
   A drop that is not refused lands on the broker: what the index calls open on the instrument nets to the venue's
   quantity exactly when the position id names an instrument and a lane, with a dash between them; and the
   position is left closed or gone, everything else on the plane as it was.
   */
  lemma {:induction false} DropLandsIff(c: Cache, image: Image, mapped: seq<string>, venue: Venue, pid: string)
    requires Reads(image, c)
    requires PlanDrop(image, mapped, venue, pid).Ok? && !PlanDrop(image, mapped, venue, pid).value.IsRefused()
    ensures var after := Apply(c, PlanDrop(image, mapped, venue, pid).value);
            && (OpenNet(after.positions, after.positionsOpen, InstrumentPart(pid)) == VenueNet(venue, InstrumentPart(pid))
                <==> '-' in pid)
            && pid !in after.positionsOpen
            && (pid in after.positions ==> !IsOpen(after.positions[pid]))
            && forall p :: p != pid ==> SameAt(c.positions, after.positions, p)
  {
    hide PlanDrop, Apply, OpenNet, VenueNet, IsOpen;
    var plan := PlanDrop(image, mapped, venue, pid).value;
    PlannedDrop(image, mapped, venue, pid);
    OnlyTheLeg(c, pid, plan);
    OpenNetWithout(c.positions, Apply(c, plan).positions, c.positionsOpen, pid, InstrumentPart(pid));
    OpenIffNet(c.positions[pid]);
    CurrentIsSuffix(c.positions[pid]);
  }

  /** The order that carried the phantom is gone from every list and index. */
  lemma {:induction false} MintIsGone(c: Cache, image: Image, mapped: seq<string>, venue: Venue, pid: string)
    requires Reads(image, c) && pid in image.positions
    requires PlanDrop(image, mapped, venue, pid).Ok? && !PlanDrop(image, mapped, venue, pid).value.IsRefused()
    ensures Current(image.positions[pid]) != []
    ensures var mint := Current(image.positions[pid])[0].coid;
            var after := Apply(c, PlanDrop(image, mapped, venue, pid).value);
            && mint !in after.orders
            && (mint in c.orders ==>
                  && mint !in after.ordersAll && mint !in after.ordersOpen && mint !in after.ordersClosed
                  && mint !in after.orderPosition)
            && (forall o :: o in c.orders && o != mint ==> o in after.orders && after.orders[o] == c.orders[o])
  {
    hide PlanDrop, OpenNet, VenueNet, IsOpen, Current, ApplyRewrites;
    var plan := PlanDrop(image, mapped, venue, pid).value;
    PlannedDrop(image, mapped, venue, pid);
    IsOpenHasCurrent(image.positions[pid]);
    var mint := Current(image.positions[pid])[0].coid;
    RewritesKeepOrders(c, plan.rewrites, c.orderPosition, "");
    DropsRemove(ApplyRewrites(c, plan.rewrites, c.orderPosition), plan.dropOrders, mint);
  }

  lemma {:induction false} IsOpenHasCurrent(fills: seq<Fill>)
    ensures IsOpen(fills) ==> Current(fills) != []
  {
  }

  lemma {:induction false} DropsRemove(c: Cache, coids: seq<string>, mint: string)
    requires forall k :: k in coids ==> k == mint
    ensures var d := ApplyDrops(c, coids);
            && (forall o :: o in c.orders && o != mint ==> o in d.orders && d.orders[o] == c.orders[o])
            && d.orders.Keys <= c.orders.Keys
            && (coids != [] ==>
                  && mint !in d.orders && mint !in d.ordersAll && mint !in d.ordersOpen && mint !in d.ordersClosed
                  && mint !in d.orderPosition)
    decreases |coids|
  {
    if coids != [] {
      var n := |coids| - 1;
      assert coids[n] in coids && forall k :: k in coids[..n] ==> k in coids;
      DropsRemove(c, coids[..n], mint);
    }
  }
}
