/**
 The order plane of the durable cache (backend/api/cache_repair.py): which rejected orders the venue still knows, and
 the history each is rewritten to.
 */
module CacheOrders {
  import opened Prelude
  import opened CacheReplay

  /** States an order passes through that the repair neither writes nor asks about. */
  datatype Mark = Triggered | PendingUpdate | PendingCancel | Expired

  datatype OrderEvent =
    | Initialized(instrument: string, strategy: string, side: Side, quantity: real)
    | Submitted(ts: int)
    | Accepted(venueOrderId: string, ts: int)
    | Rejected(reason: string, ts: int)
    | Filled(fill: Fill)
    | Canceled(venueOrderId: string, ts: int)
    | Marked(mark: Mark, ts: int)

  datatype Status =
    | IsInitialized | IsSubmitted | IsAccepted | IsRejected | IsPartiallyFilled | IsFilled | IsCanceled
    | IsMarked(mark: Mark)

  /** The slice of the cache the repair reads, with the keys in the order they are scanned. */
  datatype Image = Image(orders: map<string, seq<OrderEvent>>, orderKeys: seq<string>,
                         positions: map<string, seq<Fill>>, positionKeys: seq<string>,
                         instruments: set<string>, positionsOpen: set<string>, orderPosition: map<string, string>)

  /** The scans visit every key once, and every order begins with its initialization. */
  ghost predicate WellFormed(image: Image) {
    && (forall k :: k in image.orderKeys <==> k in image.orders)
    && (forall k :: k in image.positionKeys <==> k in image.positions)
    && (forall k :: k in image.orders ==> image.orders[k] != [] && image.orders[k][0].Initialized?)
  }

  datatype VenueOrder = VenueOrder(status: string, filledQty: real, avgPrice: Option<real>, filledAt: Option<int>,
                                   venueOrderId: string)

  /** What the broker says. An absent symbol is flat. */
  datatype Venue = Venue(orders: map<string, VenueOrder>, positions: map<string, real>)

  const CORPSE_REASONS := ["ORDER_NOT_FOUND_AT_VENUE", "Connection timeout"]
  const VENUE_RESTING := {"new", "accepted", "held", "pending_new", "partially_filled"}
  const VENUE_FILLED := {"filled"}
  const VENUE_DONE := {"canceled", "expired", "done_for_day", "replaced", "stopped", "suspended"}

  /** Why nothing may be written. */
  datatype Refusal =
    | NothingToReviveTo | OtherOrder | NothingToShapeFrom | NoPriceForRemainder | UnknownInstrument(id: string)
    | UnknownPosition | NotOpen

  // ---- what an order's events mean -------------------------------------------------------------

  function FillQty(e: OrderEvent): real {
    if e.Filled? then e.fill.qty else 0.0
  }

  function FilledQty(events: seq<OrderEvent>): real {
    SumBy(events, FillQty)
  }

  function Ordered(events: seq<OrderEvent>): real
    requires events != []
  {
    if events[0].Initialized? then events[0].quantity else 0.0
  }

  function StatusOf(events: seq<OrderEvent>): Status
    requires events != []
  {
    match events[|events| - 1]
    case Initialized(_, _, _, _) => IsInitialized
    case Submitted(_) => IsSubmitted
    case Accepted(_, _) => IsAccepted
    case Rejected(_, _) => IsRejected
    case Filled(_) => if FilledQty(events) < Ordered(events) then IsPartiallyFilled else IsFilled
    case Canceled(_, _) => IsCanceled
    case Marked(m, _) => IsMarked(m)
  }

  // ---- corpses ---------------------------------------------------------------------------------

  /** The position of the first rejection. */
  function FirstRejected(events: seq<OrderEvent>): (r: nat)
    ensures r <= |events|
    ensures r < |events| ==> events[r].Rejected?
    ensures forall i :: 0 <= i < r ==> !events[i].Rejected?
  {
    if events == [] || events[0].Rejected? then 0
    else
      var r := FirstRejected(events[1..]);
      assert forall i :: 0 < i < |events| ==> events[i] == events[1..][i - 1];
      1 + r
  }

  function FirstAccepted(events: seq<OrderEvent>): (r: Option<OrderEvent>)
    ensures r.Some? ==> r.value in events && r.value.Accepted?
    ensures r.None? ==> forall e :: e in events ==> !e.Accepted?
  {
    if events == [] then None
    else
      assert events == [events[0]] + events[1..];
      if events[0].Accepted? then Some(events[0]) else FirstAccepted(events[1..])
  }

  predicate StartsWith(s: string, prefix: string) {
    prefix <= s
  }

  /** The order is rejected, for a reason that means the venue was not heard, and the venue knows it. */
  predicate IsCorpse(image: Image, venue: Venue, coid: string)
    requires coid in image.orders && image.orders[coid] != []
  {
    var events := image.orders[coid];
    && StatusOf(events).IsRejected?
    && (exists r :: r in CORPSE_REASONS && StartsWith(events[|events| - 1].reason, r))
    && coid in venue.orders
  }

  // ---- the fills the cache holds for an order ----------------------------------------------------

  function FillsIn(fills: seq<Fill>, coid: string): seq<Fill> {
    if fills == [] then []
    else (if fills[0].coid == coid then [WithPositionId(fills[0])] else []) + FillsIn(fills[1..], coid)
  }

  function FillsOf(positions: map<string, seq<Fill>>, keys: seq<string>, coid: string): seq<Fill>
    requires forall k :: k in keys ==> k in positions
  {
    if keys == [] then []
    else
      assert keys == [keys[0]] + keys[1..];
      FillsIn(positions[keys[0]], coid) + FillsOf(positions, keys[1..], coid)
  }

  /** Time order; on a tie the witnessed fill comes before the inferred one. */
  predicate InTime(a: Fill, b: Fill) {
    a.ts < b.ts || (a.ts == b.ts && (!a.reconciliation || b.reconciliation))
  }

  /** The first of each trade id. */
  function FirstOfTrade(fills: seq<Fill>, seen: set<string>): seq<Fill> {
    if fills == [] then []
    else if fills[0].tradeId in seen then FirstOfTrade(fills[1..], seen)
    else [fills[0]] + FirstOfTrade(fills[1..], seen + {fills[0].tradeId})
  }

  function LiveFills(image: Image, coid: string): seq<Fill>
    requires WellFormed(image)
  {
    FirstOfTrade(Sort(FillsOf(image.positions, image.positionKeys, coid), InTime), {})
  }

  /** Some fill on the instrument exists to shape a synthetic one from. */
  predicate HasTemplate(positions: map<string, seq<Fill>>, instrument: string) {
    exists k :: k in positions && exists f :: f in positions[k] && f.instrument == instrument
  }

  // ---- the revival -------------------------------------------------------------------------------

  function QtyOf(f: Fill): real { f.qty }

  /** In order, the fills that still fit under the venue's total; one that does not is skipped. */
  function Fitting(live: seq<Fill>, kept: real, total: real): seq<Fill> {
    if live == [] then []
    else if kept + live[0].qty > total then Fitting(live[1..], kept, total)
    else [live[0]] + Fitting(live[1..], kept + live[0].qty, total)
  }

  function AsEvents(fills: seq<Fill>): (r: seq<OrderEvent>)
    ensures |r| == |fills|
    ensures forall i :: 0 <= i < |r| ==> r[i] == Filled(fills[i])
  {
    seq(|fills|, i requires 0 <= i < |fills| => Filled(fills[i]))
  }

  /** The deterministic trade id of a remainder; distinct orders have distinct ones. */
  function SyntheticTradeId(venueOrderId: string): string {
    venueOrderId + "-807"
  }

  function Remainder(coid: string, init: OrderEvent, vo: VenueOrder, qty: real): Fill
    requires init.Initialized? && vo.avgPrice.Some? && vo.filledAt.Some?
  {
    Fill(coid, init.instrument, init.strategy, PositionKey(init.instrument, init.strategy),
         SyntheticTradeId(vo.venueOrderId), vo.venueOrderId, init.side, qty, vo.avgPrice.value,
         vo.filledAt.value, vo.filledAt.value, true)
  }

  datatype Revival = Revival(coid: string, instrument: string, strategy: string, before: Status, after: Status,
                             events: seq<OrderEvent>, keptQty: real, syntheticQty: real)

  /** The prefix, the fills that fit and the remainder, before any cancellation. */
  function Refilled(image: Image, coid: string, vo: VenueOrder)
    : Result<(seq<OrderEvent>, real, real), Refusal>
    requires WellFormed(image) && coid in image.orders
  {
    var events := image.orders[coid];
    var prefix := events[..FirstRejected(events)];
    if vo.filledQty <= 0.0 then Ok((prefix, 0.0, 0.0))
    else
      var live := LiveFills(image, coid);
      if live == [] && !HasTemplate(image.positions, events[0].instrument) then Err(NothingToShapeFrom)
      else
        var fits := Fitting(live, 0.0, vo.filledQty);
        var keptQty := SumBy(fits, QtyOf);
        var remainder := vo.filledQty - keptQty;
        if remainder <= 0.0 then Ok((prefix + AsEvents(fits), keptQty, 0.0))
        else if vo.avgPrice.None? || vo.filledAt.None? then Err(NoPriceForRemainder)
        else Ok((prefix + AsEvents(fits) + [Filled(Remainder(coid, events[0], vo, remainder))], keptQty, remainder))
  }

  function CancelTime(vo: VenueOrder, accepted: OrderEvent): int
    requires accepted.Accepted?
  {
    if vo.filledAt.Some? && vo.filledAt.value != 0 then vo.filledAt.value else accepted.ts
  }

  function Revive(image: Image, coid: string, vo: VenueOrder): Result<Revival, Refusal>
    requires WellFormed(image) && coid in image.orders
    requires StatusOf(image.orders[coid]).IsRejected?
  {
    var events := image.orders[coid];
    var accepted := FirstAccepted(events[..FirstRejected(events)]);
    if accepted.None? then Err(NothingToReviveTo)
    else if accepted.value.venueOrderId != vo.venueOrderId then Err(OtherOrder)
    else
      match Refilled(image, coid, vo)
      case Err(e) => Err(e)
      case Ok((refilled, keptQty, syntheticQty)) =>
        AcceptedSurvives(events, refilled);
        var done := vo.status in VENUE_DONE && StatusOf(refilled) != IsFilled;
        var revived := if done then refilled + [Canceled(vo.venueOrderId, CancelTime(vo, accepted.value))]
                       else refilled;
        Ok(Revival(coid, events[0].instrument, events[0].strategy, StatusOf(events), StatusOf(revived), revived,
                   keptQty, syntheticQty))
  }

  lemma {:induction false} AcceptedSurvives(events: seq<OrderEvent>, refilled: seq<OrderEvent>)
    requires events[..FirstRejected(events)] <= refilled && FirstAccepted(events[..FirstRejected(events)]).Some?
    ensures refilled != []
  {
  }

  // ---- the loop that keeps what fits -------------------------------------------------------------

  /** `revive_order`: the history a corpse is rewritten to, grown in place. */
  method ReviveOrder(image: Image, coid: string, vo: VenueOrder) returns (r: Result<Revival, Refusal>)
    requires WellFormed(image) && coid in image.orders
    requires StatusOf(image.orders[coid]).IsRejected?
    ensures r == Revive(image, coid, vo)
  {
    hide WellFormed, LiveFills, HasTemplate, StatusOf, FirstAccepted, SumBy;
    var events := image.orders[coid];
    assert events != [] && events[0].Initialized? by { OrderBegins(image, coid); }
    var cut := FirstRejected(events);
    var kept := events[..cut];
    var accepted := FirstAccepted(kept);
    if accepted.None? {
      return Err(NothingToReviveTo);
    }
    if accepted.value.venueOrderId != vo.venueOrderId {
      return Err(OtherOrder);
    }
    var keptQty, syntheticQty := 0.0, 0.0;
    if vo.filledQty > 0.0 {
      var live := LiveFills(image, coid);
      if live == [] && !HasTemplate(image.positions, events[0].instrument) {
        return Err(NothingToShapeFrom);
      }
      var fits;
      fits, keptQty := KeepFitting(live, vo.filledQty);
      kept := kept + AsEvents(fits);
      var remainder := vo.filledQty - keptQty;
      if remainder > 0.0 {
        if vo.avgPrice.None? || vo.filledAt.None? {
          return Err(NoPriceForRemainder);
        }
        kept := kept + [Filled(Remainder(coid, events[0], vo, remainder))];
        syntheticQty := remainder;
      }
    }
    assert Refilled(image, coid, vo) == Ok((kept, keptQty, syntheticQty));
    AcceptedSurvives(events, kept);
    if vo.status in VENUE_DONE && StatusOf(kept) != IsFilled {
      kept := kept + [Canceled(vo.venueOrderId, CancelTime(vo, accepted.value))];
    }
    return Ok(Revival(coid, events[0].instrument, events[0].strategy, StatusOf(events), StatusOf(kept), kept,
                      keptQty, syntheticQty));
  }

  lemma {:induction false} OrderBegins(image: Image, coid: string)
    requires WellFormed(image) && coid in image.orders
    ensures image.orders[coid] != [] && image.orders[coid][0].Initialized?
  {
  }

  /** Take the fills in order while they fit; skip, do not stop at, one that does not. */
  method KeepFitting(live: seq<Fill>, total: real) returns (fits: seq<Fill>, keptQty: real)
    ensures fits == Fitting(live, 0.0, total) && keptQty == SumBy(fits, QtyOf)
  {
    fits, keptQty := [], 0.0;
    var n := 0;
    assert live[0..] == live;
    while n < |live|
      invariant n <= |live|
      invariant keptQty == SumBy(fits, QtyOf)
      invariant fits + Fitting(live[n..], keptQty, total) == Fitting(live, 0.0, total)
    {
      var f := live[n];
      assert live[n..][0] == f && live[n..][1..] == live[n + 1..];
      if keptQty + f.qty <= total {
        var rest := Fitting(live[n + 1..], keptQty + f.qty, total);
        assert fits + ([f] + rest) == fits + [f] + rest;
        SumByConcat(fits, [f], QtyOf);
        SumOfOneFill(f);
        fits := fits + [f];
        keptQty := keptQty + f.qty;
      }
      n := n + 1;
    }
  }

  lemma {:induction false} SumOfOneFill(f: Fill)
    ensures SumBy([f], QtyOf) == f.qty
  {
    assert SumBy([f], QtyOf) == QtyOf(f) + SumBy([f][1..], QtyOf);
  }

  // ---- accounting --------------------------------------------------------------------------------

  /** What is kept stays under the venue's total. */
  lemma {:induction false} FittingUnder(live: seq<Fill>, kept: real, total: real)
    requires kept <= total
    ensures kept + SumBy(Fitting(live, kept, total), QtyOf) <= total
  {
    if live != [] {
      if kept + live[0].qty > total {
        FittingUnder(live[1..], kept, total);
      } else {
        FittingUnder(live[1..], kept + live[0].qty, total);
      }
    }
  }

  /**
   The greedy fit, decided fill by fill: the next one in time is kept exactly when it fits on top of what has
   been kept before it.
   */
  lemma {:induction false} FittingIsGreedy(live: seq<Fill>, f: Fill, kept: real, total: real)
    ensures Fitting(live + [f], kept, total)
         == if kept + SumBy(Fitting(live, kept, total), QtyOf) + f.qty <= total
            then Fitting(live, kept, total) + [f]
            else Fitting(live, kept, total)
  {
    if live == [] {
      assert Fitting([f][1..], kept + f.qty, total) == [] == Fitting([f][1..], kept, total);
      assert [] + [f] == [f];
    } else {
      assert (live + [f])[1..] == live[1..] + [f] && (live + [f])[0] == live[0];
      if kept + live[0].qty > total {
        FittingIsGreedy(live[1..], f, kept, total);
      } else {
        FittingIsGreedy(live[1..], f, kept + live[0].qty, total);
        var rest := Fitting(live[1..], kept + live[0].qty, total);
        assert ([live[0]] + rest) + [f] == [live[0]] + (rest + [f]);
      }
    }
  }

  /** No skipped fill would fit at the end either: quantities only add up. */
  lemma {:induction false} SkippedNeverFits(live: seq<Fill>, kept: real, total: real, f: Fill)
    requires (forall g :: g in live ==> g.qty >= 0.0) && f in live && f !in Fitting(live, kept, total)
    ensures kept + SumBy(Fitting(live, kept, total), QtyOf) + f.qty > total
  {
    assert live == [live[0]] + live[1..];
    FittingMembers(live, kept, total);
    SumByNonNegative(Fitting(live, kept, total), QtyOf);
    if kept + live[0].qty > total {
      if f != live[0] {
        SkippedNeverFits(live[1..], kept, total, f);
      }
    } else {
      assert f in live[1..];
      SkippedNeverFits(live[1..], kept + live[0].qty, total, f);
    }
  }

  lemma {:induction false} FittingMembers(live: seq<Fill>, kept: real, total: real)
    ensures forall f :: f in Fitting(live, kept, total) ==> f in live
  {
    if live != [] {
      assert live == [live[0]] + live[1..];
      FittingMembers(live[1..], kept, total);
      FittingMembers(live[1..], kept + live[0].qty, total);
    }
  }

  predicate DistinctTrades(fills: seq<Fill>) {
    forall i, j :: 0 <= i < j < |fills| ==> fills[i].tradeId != fills[j].tradeId
  }

  lemma {:induction false} DistinctTail(fills: seq<Fill>)
    requires DistinctTrades(fills) && fills != []
    ensures DistinctTrades(fills[1..]) && forall f :: f in fills[1..] ==> f.tradeId != fills[0].tradeId
  {
    assert forall i :: 0 <= i < |fills[1..]| ==> fills[1..][i] == fills[i + 1];
  }

  lemma {:induction false} FittingDistinct(live: seq<Fill>, kept: real, total: real)
    requires DistinctTrades(live)
    ensures DistinctTrades(Fitting(live, kept, total))
  {
    hide DistinctTrades;
    if live == [] {
      assert Fitting(live, kept, total) == live;
    } else {
      DistinctTail(live);
      FittingDistinct(live[1..], kept, total);
      FittingDistinct(live[1..], kept + live[0].qty, total);
      FittingMembers(live[1..], kept + live[0].qty, total);
      DistinctWithFirst(live[0], Fitting(live[1..], kept + live[0].qty, total));
    }
  }

  lemma {:induction false} DistinctWithFirst(f: Fill, rest: seq<Fill>)
    requires DistinctTrades(rest) && forall g :: g in rest ==> g.tradeId != f.tradeId
    ensures DistinctTrades([f] + rest)
  {
    assert forall i :: 0 <= i < |rest| ==> rest[i] in rest;
  }

  /** `r` has, of every trade of `fills` that was not seen before, one that comes first in time. */
  ghost predicate CoversTrades(r: seq<Fill>, fills: seq<Fill>, seen: set<string>) {
    forall f :: f in fills && f.tradeId !in seen ==> exists g :: g in r && g.tradeId == f.tradeId && InTime(g, f)
  }

  /** The first of each trade id: every id that was there, each once, none already seen. */
  lemma {:induction false} FirstOfTradeLaws(fills: seq<Fill>, seen: set<string>)
    requires SortedBy(fills, InTime)
    ensures DistinctTrades(FirstOfTrade(fills, seen))
    ensures forall f :: f in FirstOfTrade(fills, seen) ==> f in fills && f.tradeId !in seen
    ensures CoversTrades(FirstOfTrade(fills, seen), fills, seen)
  {
    hide DistinctTrades, CoversTrades;
    if fills == [] {
      NothingToCover(seen);
    } else {
      assert fills == [fills[0]] + fills[1..];
      if fills[0].tradeId in seen {
        FirstOfTradeLaws(fills[1..], seen);
        CoverSkips(FirstOfTrade(fills[1..], seen), fills, seen);
      } else {
        var rest := FirstOfTrade(fills[1..], seen + {fills[0].tradeId});
        FirstOfTradeLaws(fills[1..], seen + {fills[0].tradeId});
        DistinctWithFirst(fills[0], rest);
        CoverTakes(rest, fills, seen);
      }
    }
  }

  lemma {:induction false} NothingToCover(seen: set<string>)
    ensures DistinctTrades([]) && CoversTrades([], [], seen)
  {
  }

  lemma {:induction false} CoverSkips(r: seq<Fill>, fills: seq<Fill>, seen: set<string>)
    requires fills != [] && fills[0].tradeId in seen && CoversTrades(r, fills[1..], seen)
    ensures CoversTrades(r, fills, seen)
  {
    assert fills == [fills[0]] + fills[1..];
  }

  lemma {:induction false} CoverTakes(rest: seq<Fill>, fills: seq<Fill>, seen: set<string>)
    requires fills != [] && CoversTrades(rest, fills[1..], seen + {fills[0].tradeId}) && SortedBy(fills, InTime)
    ensures CoversTrades([fills[0]] + rest, fills, seen)
  {
    assert fills == [fills[0]] + fills[1..];
    forall f | f in fills && f.tradeId !in seen
      ensures exists g :: g in [fills[0]] + rest && g.tradeId == f.tradeId && InTime(g, f)
    {
      if f.tradeId == fills[0].tradeId {
        assert fills[0] in [fills[0]] + rest;
      } else {
        var g :| g in rest && g.tradeId == f.tradeId && InTime(g, f);
        assert g in [fills[0]] + rest;
      }
    }
  }

  lemma {:induction false} InTimeIsOrder()
    ensures TotalOrder(InTime)
  {
  }

  lemma {:induction false} FillsInMembers(fills: seq<Fill>, coid: string)
    ensures forall f :: f in fills && f.coid == coid ==> WithPositionId(f) in FillsIn(fills, coid)
    ensures forall g :: g in FillsIn(fills, coid) ==> g.coid == coid && g.positionId != ""
  {
    if fills != [] {
      assert fills == [fills[0]] + fills[1..];
      FillsInMembers(fills[1..], coid);
    }
  }

  lemma {:induction false} FillsOfMembers(positions: map<string, seq<Fill>>, keys: seq<string>, coid: string)
    requires forall k :: k in keys ==> k in positions
    ensures forall k, f :: k in keys && f in positions[k] && f.coid == coid ==>
              WithPositionId(f) in FillsOf(positions, keys, coid)
    ensures forall g :: g in FillsOf(positions, keys, coid) ==> g.coid == coid && g.positionId != ""
  {
    if keys != [] {
      assert keys == [keys[0]] + keys[1..];
      FillsInMembers(positions[keys[0]], coid);
      FillsOfMembers(positions, keys[1..], coid);
    }
  }

  /**
   The live fills of an order: no trade id twice; every trade the cache holds for it, in any position list, is
   represented by the one of its id that comes first, a witnessed fill before an inferred one; all are the order's
   own and book to a position.
   */
  lemma {:induction false} LiveFillsLaws(image: Image, coid: string)
    requires WellFormed(image)
    ensures DistinctTrades(LiveFills(image, coid))
    ensures forall f :: f in LiveFills(image, coid) ==> f.coid == coid && f.positionId != ""
    ensures forall k, f :: k in image.positions && f in image.positions[k] && f.coid == coid ==>
              Represents(LiveFills(image, coid), f)
  {
    hide *;
    LiveFillsDistinct(image, coid);
    forall k, f | k in image.positions && f in image.positions[k] && f.coid == coid
      ensures Represents(LiveFills(image, coid), f)
    {
      FillIsRepresented(image, coid, k, f);
    }
  }

  /** The trade of `f` is among `live`, by a fill that comes no later. */
  ghost predicate Represents(live: seq<Fill>, f: Fill) {
    exists g :: g in live && g.tradeId == f.tradeId && InTime(g, f)
  }

  lemma {:induction false} LiveFillsDistinct(image: Image, coid: string)
    requires WellFormed(image)
    ensures DistinctTrades(LiveFills(image, coid))
    ensures forall f :: f in LiveFills(image, coid) ==> f.coid == coid && f.positionId != ""
    ensures CoversTrades(LiveFills(image, coid), Sort(FillsOf(image.positions, image.positionKeys, coid), InTime), {})
  {
    hide DistinctTrades, CoversTrades, Sort, FirstOfTrade, InTime, FillsOf;
    var all := FillsOf(image.positions, image.positionKeys, coid);
    FillsOfMembers(image.positions, image.positionKeys, coid);
    SortMembers(all, InTime);
    InTimeIsOrder();
    SortSorts(all, InTime);
    FirstOfTradeLaws(Sort(all, InTime), {});
  }

  lemma {:induction false} FillIsRepresented(image: Image, coid: string, k: string, f: Fill)
    requires WellFormed(image) && k in image.positions && f in image.positions[k] && f.coid == coid
    ensures Represents(LiveFills(image, coid), f)
  {
    hide Sort, FillsOf, LiveFills;
    var all := FillsOf(image.positions, image.positionKeys, coid);
    LiveFillsDistinct(image, coid);
    FillsOfMembers(image.positions, image.positionKeys, coid);
    SortMembers(all, InTime);
    var w := WithPositionId(f);
    assert w in Sort(all, InTime);
    var g :| g in LiveFills(image, coid) && g.tradeId == w.tradeId && InTime(g, w);
    assert InTime(g, f);
  }

  // ---- what a revival is -------------------------------------------------------------------------

  lemma {:induction false} FilledOfFills(fills: seq<Fill>)
    ensures FilledQty(AsEvents(fills)) == SumBy(fills, QtyOf)
  {
    if fills != [] {
      assert AsEvents(fills)[1..] == AsEvents(fills[1..]);
      FilledOfFills(fills[1..]);
    }
  }

  lemma {:induction false} FilledOfOne(e: OrderEvent)
    ensures FilledQty([e]) == FillQty(e)
  {
    assert SumBy([e], FillQty) == FillQty(e) + SumBy([e][1..], FillQty);
  }

  /** The verbatim part of a revived history: everything before the first rejection. */
  function Prefix(events: seq<OrderEvent>): seq<OrderEvent> {
    events[..FirstRejected(events)]
  }

  /** The remainder as the one synthetic event, when there is one. */
  function SyntheticPart(coid: string, init: OrderEvent, vo: VenueOrder, qty: real): seq<OrderEvent>
    requires init.Initialized?
  {
    if qty > 0.0 && vo.avgPrice.Some? && vo.filledAt.Some? then [Filled(Remainder(coid, init, vo, qty))] else []
  }

  /** The whole shape of a revived history. */
  ghost predicate Revived(image: Image, vo: VenueOrder, rv: Revival, fits: seq<Fill>, canceled: seq<OrderEvent>)
    requires WellFormed(image) && rv.coid in image.orders
  {
    var events := image.orders[rv.coid];
    && rv.events == Prefix(events) + (AsEvents(fits) + (SyntheticPart(rv.coid, events[0], vo, rv.syntheticQty) + canceled))
    && fits == (if vo.filledQty > 0.0 then Fitting(LiveFills(image, rv.coid), 0.0, vo.filledQty) else [])
    && rv.keptQty == SumBy(fits, QtyOf)
    && |SyntheticPart(rv.coid, events[0], vo, rv.syntheticQty)| == (if rv.syntheticQty > 0.0 then 1 else 0)
    && (forall e :: e in canceled ==> e.Canceled?) && |canceled| <= 1
    && (canceled != [] ==> vo.status in VENUE_DONE)
    && rv.keptQty + rv.syntheticQty == Max(0.0, vo.filledQty)
    && rv.syntheticQty >= 0.0
    && rv.instrument == events[0].instrument && rv.strategy == events[0].strategy
    && rv.events != [] && rv.after == StatusOf(rv.events)
  }

  lemma {:induction false} RevivalShape(image: Image, coid: string, vo: VenueOrder)
    returns (fits: seq<Fill>, canceled: seq<OrderEvent>)
    requires WellFormed(image) && coid in image.orders && StatusOf(image.orders[coid]).IsRejected?
    requires Revive(image, coid, vo).Ok?
    ensures Revived(image, vo, Revive(image, coid, vo).value, fits, canceled)
    ensures Revive(image, coid, vo).value.coid == coid
  {
    hide WellFormed, LiveFills, HasTemplate, StatusOf, FirstAccepted, FirstRejected;
    var rv := Revive(image, coid, vo).value;
    fits := if vo.filledQty > 0.0 then Fitting(LiveFills(image, coid), 0.0, vo.filledQty) else [];
    if vo.filledQty > 0.0 {
      FittingUnder(LiveFills(image, coid), 0.0, vo.filledQty);
    }
    assert image.orders[coid] != [] && image.orders[coid][0].Initialized? by { OrderBegins(image, coid); }
    var init := image.orders[coid][0];
    var refilled := Refilled(image, coid, vo).value.0;
    var synthetic := SyntheticPart(coid, init, vo, rv.syntheticQty);
    RefilledShape(image, coid, vo);
    canceled := rv.events[|refilled|..];
    assert rv.events == refilled + canceled;
    Regroup4(Prefix(image.orders[coid]), AsEvents(fits), synthetic, canceled);
  }

  lemma {:induction false} Regroup4(a: seq<OrderEvent>, b: seq<OrderEvent>, c: seq<OrderEvent>, d: seq<OrderEvent>)
    ensures (a + (b + c)) + d == a + (b + (c + d))
  {
  }

  lemma {:induction false} RefilledShape(image: Image, coid: string, vo: VenueOrder)
    requires WellFormed(image) && coid in image.orders && Refilled(image, coid, vo).Ok?
    ensures var (refilled, keptQty, syntheticQty) := Refilled(image, coid, vo).value;
            var fits := if vo.filledQty > 0.0 then Fitting(LiveFills(image, coid), 0.0, vo.filledQty) else [];
            var synthetic := SyntheticPart(coid, image.orders[coid][0], vo, syntheticQty);
            && refilled == Prefix(image.orders[coid]) + (AsEvents(fits) + synthetic)
            && keptQty == SumBy(fits, QtyOf)
            && |synthetic| == (if syntheticQty > 0.0 then 1 else 0)
            && syntheticQty >= 0.0
            && (keptQty <= Max(0.0, vo.filledQty) ==> keptQty + syntheticQty == Max(0.0, vo.filledQty))
  {
    hide LiveFills, HasTemplate, FirstRejected;
    var prefix := Prefix(image.orders[coid]);
    if vo.filledQty <= 0.0 {
      assert AsEvents([]) == [];
      assert prefix + ([] + []) == prefix;
    } else {
      var fits := Fitting(LiveFills(image, coid), 0.0, vo.filledQty);
      assert AsEvents(fits) + [] == AsEvents(fits);
      var synthetic := SyntheticPart(coid, image.orders[coid][0], vo, Refilled(image, coid, vo).value.2);
      assert (prefix + AsEvents(fits)) + synthetic == prefix + (AsEvents(fits) + synthetic);
    }
  }

  predicate NoneRejected(events: seq<OrderEvent>) {
    forall e :: e in events ==> !e.Rejected?
  }

  /**
   A revival's books: the history before the first rejection is kept verbatim and no rejection remains; the kept
   fills are distinct trades, the greedy fit in time order under the venue's total; and kept quantity plus the single
   remainder is the venue's filled quantity exactly.
   */
  lemma {:induction false} RevivalAccounting(image: Image, coid: string, vo: VenueOrder)
    requires WellFormed(image) && coid in image.orders && StatusOf(image.orders[coid]).IsRejected?
    requires Revive(image, coid, vo).Ok?
    ensures var rv := Revive(image, coid, vo).value;
            var fits := Fitting(LiveFills(image, coid), 0.0, vo.filledQty);
            && Prefix(image.orders[coid]) <= rv.events
            && NoneRejected(rv.events)
            && rv.events != [] && rv.after == StatusOf(rv.events) && rv.after != IsRejected
            && rv.keptQty + rv.syntheticQty == Max(0.0, vo.filledQty)
            && (vo.filledQty > 0.0 ==> rv.keptQty == SumBy(fits, QtyOf) && DistinctTrades(fits))
            && FilledQty(rv.events) == FilledQty(Prefix(image.orders[coid])) + Max(0.0, vo.filledQty)
  {
    hide WellFormed, StatusOf, Revive, LiveFills, FirstRejected, DistinctTrades, Fitting, SyntheticPart;
    var rv := Revive(image, coid, vo).value;
    var fits, canceled := RevivalShape(image, coid, vo);
    var events := image.orders[coid];
    assert events != [] && events[0].Initialized? by { OrderBegins(image, coid); }
    var synthetic := SyntheticPart(coid, events[0], vo, rv.syntheticQty);
    SyntheticIs(coid, events[0], vo, rv.syntheticQty);
    FilledParts(Prefix(events), fits, synthetic, canceled);
    PrefixNoneRejected(events);
    PartsNoneRejected(Prefix(events), fits, synthetic, canceled);
    LastNotRejected(rv.events);
    if vo.filledQty > 0.0 {
      LiveFillsLaws(image, coid);
      FittingDistinct(LiveFills(image, coid), 0.0, vo.filledQty);
    }
  }

  lemma {:induction false} LastNotRejected(events: seq<OrderEvent>)
    requires NoneRejected(events) && events != []
    ensures StatusOf(events) != IsRejected
  {
    assert events[|events| - 1] in events;
  }

  lemma {:induction false} PrefixNoneRejected(events: seq<OrderEvent>)
    ensures NoneRejected(Prefix(events))
  {
  }

  lemma {:induction false} SyntheticIs(coid: string, init: OrderEvent, vo: VenueOrder, qty: real)
    requires init.Initialized?
    ensures NoneRejected(SyntheticPart(coid, init, vo, qty))
    ensures |SyntheticPart(coid, init, vo, qty)| == 1 ==> FilledQty(SyntheticPart(coid, init, vo, qty)) == qty
    ensures |SyntheticPart(coid, init, vo, qty)| == 0 ==> FilledQty(SyntheticPart(coid, init, vo, qty)) == 0.0
  {
    if qty > 0.0 && vo.avgPrice.Some? && vo.filledAt.Some? {
      FilledOfOne(Filled(Remainder(coid, init, vo, qty)));
    }
  }

  lemma {:induction false} PartsNoneRejected(prefix: seq<OrderEvent>, fits: seq<Fill>, synthetic: seq<OrderEvent>,
                                             canceled: seq<OrderEvent>)
    requires NoneRejected(prefix) && NoneRejected(synthetic) && forall e :: e in canceled ==> e.Canceled?
    ensures NoneRejected(prefix + (AsEvents(fits) + (synthetic + canceled)))
  {
  }

  lemma {:induction false} FilledParts(prefix: seq<OrderEvent>, fits: seq<Fill>, synthetic: seq<OrderEvent>,
                                       canceled: seq<OrderEvent>)
    requires (forall e :: e in canceled ==> e.Canceled?) && |canceled| <= 1
    ensures FilledQty(prefix + (AsEvents(fits) + (synthetic + canceled)))
         == FilledQty(prefix) + SumBy(fits, QtyOf) + FilledQty(synthetic)
  {
    SumByConcat(prefix, AsEvents(fits) + (synthetic + canceled), FillQty);
    SumByConcat(AsEvents(fits), synthetic + canceled, FillQty);
    SumByConcat(synthetic, canceled, FillQty);
    FilledOfFills(fits);
    if canceled != [] {
      assert canceled == [canceled[0]] && canceled[0] in canceled;
      FilledOfOne(canceled[0]);
    }
  }

  /** Closed at the venue, an order is revived filled or canceled; open at the venue, it is not canceled by the repair. */
  lemma {:induction false} RevivedAsTheVenueClosed(image: Image, coid: string, vo: VenueOrder)
    requires WellFormed(image) && coid in image.orders && StatusOf(image.orders[coid]).IsRejected?
    requires Revive(image, coid, vo).Ok?
    ensures vo.status in VENUE_DONE ==>
              Revive(image, coid, vo).value.after == IsFilled || Revive(image, coid, vo).value.after == IsCanceled
    ensures vo.status !in VENUE_DONE && (forall e :: e in Prefix(image.orders[coid]) ==> !e.Canceled?) ==>
              Revive(image, coid, vo).value.after != IsCanceled
  {
    hide WellFormed, LiveFills, HasTemplate, FirstAccepted, FirstRejected, FilledQty;
    var rv := Revive(image, coid, vo).value;
    var fits, canceled := RevivalShape(image, coid, vo);
    assert image.orders[coid] != [] && image.orders[coid][0].Initialized? by { OrderBegins(image, coid); }
    assert rv.events[|rv.events| - 1] in rv.events;
  }

  /** The revived order as a whole has filled what the venue says exactly when nothing had filled before it was
      rejected: fills already in the kept prefix are counted on top. */
  lemma {:induction false} RevivedTotalIffPrefixUnfilled(image: Image, coid: string, vo: VenueOrder)
    requires WellFormed(image) && coid in image.orders && StatusOf(image.orders[coid]).IsRejected?
    requires Revive(image, coid, vo).Ok? && vo.filledQty >= 0.0
    ensures FilledQty(Revive(image, coid, vo).value.events) == vo.filledQty
         <==> FilledQty(Prefix(image.orders[coid])) == 0.0
  {
    RevivalAccounting(image, coid, vo);
  }

  // ---- a rejected order is refused, or revived, for these reasons --------------------------------

  /** Exactly when a corpse can be revived. */
  lemma {:induction false} RevivableIff(image: Image, coid: string, vo: VenueOrder)
    requires WellFormed(image) && coid in image.orders && StatusOf(image.orders[coid]).IsRejected?
    ensures var accepted := FirstAccepted(Prefix(image.orders[coid]));
            var live := LiveFills(image, coid);
            Revive(image, coid, vo).Ok? <==>
              && accepted.Some? && accepted.value.venueOrderId == vo.venueOrderId
              && (vo.filledQty > 0.0 ==>
                    && (live != [] || HasTemplate(image.positions, image.orders[coid][0].instrument))
                    && (SumBy(Fitting(live, 0.0, vo.filledQty), QtyOf) == vo.filledQty
                        || (vo.avgPrice.Some? && vo.filledAt.Some?)))
  {
    hide LiveFills, HasTemplate, StatusOf, FirstAccepted, FirstRejected;
    if vo.filledQty > 0.0 {
      FittingUnder(LiveFills(image, coid), 0.0, vo.filledQty);
    }
  }

  // ---- a worked case -------------------------------------------------------------------------------

  /** A buy of two that had filled one before it was marked rejected; the position holds that fill, the venue filled both. */
  function PartFill(): Fill {
    Fill("O-1", "X.V", "S", "X.V-S", "t-1", "v-1", Buy, 1.0, 10.0, 2, 2, false)
  }

  function PartFilled(): seq<OrderEvent> {
    [Initialized("X.V", "S", Buy, 2.0), Accepted("v-1", 1), Filled(PartFill()), Rejected("Connection timeout", 3)]
  }

  function PartImage(): Image {
    Image(map["O-1" := PartFilled()], ["O-1"], map["X.V-S" := [PartFill()]], ["X.V-S"], {"X.V"}, {"X.V-S"}, map[])
  }

  lemma {:induction false} PartFilledPrefix()
    ensures Prefix(PartFilled()) == PartFilled()[..3] && FilledQty(PartFilled()[..3]) == 1.0
    ensures FirstAccepted(PartFilled()[..3]) == Some(PartFilled()[1])
  {
    var e, p := PartFilled(), PartFilled()[..3];
    assert FirstRejected(e) == 3;
    assert p == [e[0], e[1], e[2]] && p[1..] == [e[1], e[2]] && [e[1], e[2]][1..] == [e[2]] && [e[2]][1..] == [];
    assert SumBy([e[2]], FillQty) == 1.0 && SumBy([e[1], e[2]], FillQty) == 1.0;
    assert FirstAccepted(p[1..]) == Some(e[1]);
  }

  /** Revived, it has filled three where the venue filled two: the fill before the rejection is counted on top. */
  lemma {:induction false} PrefixFillCountsTwice()
    ensures WellFormed(PartImage())
    ensures var vo := VenueOrder("filled", 2.0, Some(10.0), Some(5), "v-1");
            && Revive(PartImage(), "O-1", vo).Ok?
            && FilledQty(Revive(PartImage(), "O-1", vo).value.events) == 3.0
  {
    hide Revive, LiveFills, FilledQty, FirstRejected, FirstAccepted;
    var image, vo := PartImage(), VenueOrder("filled", 2.0, Some(10.0), Some(5), "v-1");
    assert WellFormed(image) && image.orders["O-1"] == PartFilled();
    assert StatusOf(PartFilled()).IsRejected?;
    PartFilledPrefix();
    assert PartFill() in image.positions["X.V-S"];
    assert HasTemplate(image.positions, "X.V");
    RevivableIff(image, "O-1", vo);
    RevivalAccounting(image, "O-1", vo);
  }
}
