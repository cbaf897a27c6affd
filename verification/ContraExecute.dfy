/**
 Turning an approved plan into legs against a fresh read of the book (backend/api/contra_execute.py): each
 pair, eviction and surplus eviction is rebuilt from the live positions and refused unless its fingerprint
 is the approved one.
 */
module ContraExecute {
  import opened Prelude
  import opened Netting
  import opened ContraClose

  datatype RepairOrder = RepairOrder(instrument: string, fingerprint: Fingerprint, legs: seq<Leg>,
                                     unbookedRealized: real, partial: bool)

  datatype ExecutionPlan = ExecutionPlan(orders: seq<RepairOrder>, refused: seq<Refusal>)

  /** What is read at execution time. `broker` is `None` when no venue read was handed over at all. */
  datatype Fresh = Fresh(byKey: seq<Position>, mute: set<Key>, broker: Option<map<string, Qty>>,
                         resting: set<string>, complete: bool)

  predicate SameQty(a: Qty, b: Qty) {
    a.Known? && b.Known? && Abs(a.v - b.v) <= QTY_TOLERANCE
  }

  type Key = (string, string)

  function KeyOf(p: Position): Key {
    (p.instrument, p.strategy)
  }

  /** A shape missing `is_open` or `ts_opened`. */
  predicate IsMute(p: Position) {
    p.open.None? || p.stamp.None?
  }

  function MuteKeys(positions: seq<Position>): set<Key> {
    set p | p in positions && IsMute(p) :: KeyOf(p)
  }

  /** Writing a dict entry: a later position of a lane replaces the earlier one, where it stood. */
  function Put(s: seq<Position>, p: Position): seq<Position> {
    if s == [] then [p]
    else if KeyOf(s[0]) == KeyOf(p) then [p] + s[1..]
    else [s[0]] + Put(s[1..], p)
  }

  /** The open, describable positions by instrument and lane, in first-written order. */
  function ByKey(positions: seq<Position>): seq<Position> {
    if positions == [] then []
    else
      var r := ByKey(positions[..|positions| - 1]);
      var p := positions[|positions| - 1];
      if IsMute(p) || !IsOpen(p) then r else Put(r, p)
  }

  function Lookup(s: seq<Position>, key: Key): (r: Option<Position>)
    ensures r.Some? ==> r.value in s && KeyOf(r.value) == key
    ensures r.None? ==> forall p :: p in s ==> KeyOf(p) != key
  {
    if s == [] then None
    else if KeyOf(s[0]) == key then Some(s[0])
    else
      assert s == [s[0]] + s[1..];
      Lookup(s[1..], key)
  }

  function OnInstrument(s: seq<Position>, instrument: string): (r: seq<Position>)
    ensures forall p :: p in r <==> p in s && p.instrument == instrument
  {
    if s == [] then []
    else
      assert s == [s[0]] + s[1..];
      (if s[0].instrument == instrument then [s[0]] else []) + OnInstrument(s[1..], instrument)
  }

  /** A fresh read, indexed. */
  function ReadBook(positions: seq<Position>, broker: Option<map<string, Qty>>, resting: set<string>,
                    complete: bool): Fresh
  {
    Fresh(ByKey(positions), MuteKeys(positions), broker, resting, complete)
  }

  function LiveLegs(f: Fresh, instrument: string): seq<Position> {
    OnInstrument(f.byKey, instrument)
  }

  /** What the venue says now. Silence is zero only under a read stated complete. */
  function VenueRead(f: Fresh, instrument: string): Qty {
    if f.broker.Some? && instrument in f.broker.value then f.broker.value[instrument]
    else if f.broker.Some? && f.complete then Known(0.0)
    else Unknown
  }

  /** What the venue says now, where silence is never zero. */
  function VenueStated(f: Fresh, instrument: string): Qty {
    if f.broker.Some? && instrument in f.broker.value then f.broker.value[instrument] else Unknown
  }

  predicate Rests(f: Fresh, instrument: string) {
    SymbolPart(instrument) in f.resting
  }

  predicate MuteOn(f: Fresh, instrument: string) {
    exists k | k in f.mute :: k.0 == instrument
  }

  // ---- pairs ---------------------------------------------------------------------------------

  /** The fingerprint of the same pair, rebuilt from the live legs and the re-read venue. */
  function LivePrint(pair: ContraPair, long: Position, short: Position, venue: Qty): Fingerprint {
    PairPrint(pair.instrument, pair.longStrategy, pair.shortStrategy, long.id, short.id, long.qty, short.qty,
              long.avgPx, short.avgPx, venue, long.Stamp(), short.Stamp())
  }

  function PairOrder(live: ContraPair): RepairOrder {
    RepairOrder(live.instrument, live.Print(), live.Legs(), live.UnbookedRealized(), live.IsPartial())
  }

  function DecidePair(f: Fresh, pair: ContraPair): Result<RepairOrder, Reason> {
    var longKey, shortKey := (pair.instrument, pair.longStrategy), (pair.instrument, pair.shortStrategy);
    if Rests(f, pair.instrument) then Err(Resting)
    else if longKey in f.mute || shortKey in f.mute then Err(Mute)
    else
      var long, short := Lookup(f.byKey, longKey), Lookup(f.byKey, shortKey);
      var venue := VenueRead(f, pair.instrument);
      if long.None? || short.None? then Err(LegGone)
      else if !SameQty(venue, Known(pair.brokerQty)) then Err(BrokerMoved)
      else if LivePrint(pair, long.value, short.value, venue) != pair.Print() then Err(Moved)
      else
        var quantity := Min(Abs(long.value.Signed()), Abs(short.value.Signed()));
        Ok(PairOrder(PairOf(pair.instrument, long.value, short.value, quantity, venue.v)))
  }

  // ---- evictions -----------------------------------------------------------------------------

  function LiveLines(legs: seq<Position>): (r: seq<PrintLine>)
    ensures |r| == |legs|
  {
    seq(|legs|, i requires 0 <= i < |legs| =>
      PrintLine(legs[i].strategy, legs[i].id, legs[i].qty, legs[i].avgPx, legs[i].Stamp()))
  }

  function Lanes(legs: seq<Position>): set<string> {
    set p | p in legs :: p.strategy
  }

  function PlannedLanes(legs: seq<Leg>): set<string> {
    set l | l in legs :: l.strategy
  }

  function DecideEviction(f: Fresh, ev: Eviction): Result<RepairOrder, Reason> {
    if Rests(f, ev.instrument) then Err(Resting)
    else if MuteOn(f, ev.instrument) then Err(Mute)
    else
      var legs := Sort(LiveLegs(f, ev.instrument), ByLane);
      var venue := VenueRead(f, ev.instrument);
      if Lanes(legs) != PlannedLanes(ev.legs) then Err(LanesMoved)
      else if !SameQty(venue, Known(0.0)) then Err(VenueNotZero)
      else if EvictPrint(ev.instrument, venue, LiveLines(legs)) != ev.Print() then Err(Moved)
      else
        var closing := ClosingLegs(ev.instrument, legs);
        Ok(RepairOrder(ev.instrument, ev.Print(), closing, BookValue(closing), false))
  }

  // ---- surplus evictions ---------------------------------------------------------------------

  function DecideSurplus(f: Fresh, se: SurplusEviction): Result<RepairOrder, Reason> {
    if Rests(f, se.instrument) then Err(Resting)
    else if MuteOn(f, se.instrument) then Err(Mute)
    else
      var venue := VenueStated(f, se.instrument);
      if !SameQty(venue, Known(se.brokerQty)) then Err(BrokerMoved)
      else
        match SurplusShape(LiveLegs(f, se.instrument), venue)
        case NoSurplus => Err(SurplusMoved)
        case Named(_) => Err(SurplusMoved)
        case SurplusLeg(x, ownSum) =>
          var leg := Leg(se.instrument, x.strategy, x.id, Sell, Abs(x.Signed()), x.avgPx);
          var live := SurplusEviction(se.instrument, leg, x.Stamp(), venue.v, ownSum);
          if live.Print() != se.Print() then Err(Moved)
          else Ok(RepairOrder(live.instrument, live.Print(), [live.leg], live.UnbookedRealized(), false))
  }

  // ---- the execution plan --------------------------------------------------------------------

  function Record(plan: ExecutionPlan, instrument: string, d: Result<RepairOrder, Reason>): ExecutionPlan {
    match d
    case Ok(order) => plan.(orders := plan.orders + [order])
    case Err(reason) => plan.(refused := plan.refused + [Refusal(instrument, reason)])
  }

  function OverPairs(f: Fresh, pairs: seq<ContraPair>): ExecutionPlan {
    if pairs == [] then ExecutionPlan([], [])
    else
      var n := |pairs| - 1;
      Record(OverPairs(f, pairs[..n]), pairs[n].instrument, DecidePair(f, pairs[n]))
  }

  function OverEvictions(f: Fresh, pairs: seq<ContraPair>, evictions: seq<Eviction>): ExecutionPlan {
    if evictions == [] then OverPairs(f, pairs)
    else
      var n := |evictions| - 1;
      Record(OverEvictions(f, pairs, evictions[..n]), evictions[n].instrument, DecideEviction(f, evictions[n]))
  }

  function OverSurplus(f: Fresh, pairs: seq<ContraPair>, evictions: seq<Eviction>,
                       surplus: seq<SurplusEviction>): ExecutionPlan
  {
    if surplus == [] then OverEvictions(f, pairs, evictions)
    else
      var n := |surplus| - 1;
      Record(OverSurplus(f, pairs, evictions, surplus[..n]), surplus[n].instrument, DecideSurplus(f, surplus[n]))
  }

  function Prepare(f: Fresh, plan: ContraPlan): ExecutionPlan {
    OverSurplus(f, plan.pairs, plan.evictions, plan.surplus)
  }

  /** Index the open positions by lane and set aside the shapes that cannot describe themselves. */
  method IndexPositions(positions: seq<Position>) returns (byKey: seq<Position>, mute: set<Key>)
    ensures byKey == ByKey(positions) && mute == MuteKeys(positions)
  {
    byKey, mute := [], {};
    for n := 0 to |positions|
      invariant byKey == ByKey(positions[..n]) && mute == MuteKeys(positions[..n])
    {
      assert positions[..n + 1] == positions[..n] + [positions[n]];
      var p := positions[n];
      if IsMute(p) {
        mute := mute + {KeyOf(p)};
      } else if IsOpen(p) {
        byKey := Put(byKey, p);
      }
    }
    assert positions[..|positions|] == positions;
  }

  /** `prepare_execution`. A working order outside the book's vocabulary raises: `Err` with the items. */
  method PrepareExecution(plan: ContraPlan, positions: seq<Position>, broker: Option<map<string, Qty>>,
                          working: set<string>, known: Option<set<string>>, wellFormed: set<string>, complete: bool)
    returns (r: Result<ExecutionPlan, set<string>>)
    ensures r.Err? <==> ValidatedWorking(working, Universe(positions, known), wellFormed).Err?
    ensures r.Ok? ==> r.value == Prepare(ReadBook(positions, broker, SymbolsOf(working), complete), plan)
  {
    hide DecidePair, DecideEviction, DecideSurplus;
    var validated := ValidatedWorking(working, Universe(positions, known), wellFormed);
    if validated.Err? {
      return Err(validated.error);
    }
    var byKey, mute := IndexPositions(positions);
    var f := Fresh(byKey, mute, broker, SymbolsOf(validated.value), complete);
    var out := ExecutionPlan([], []);
    for n := 0 to |plan.pairs|
      invariant out == OverPairs(f, plan.pairs[..n])
    {
      assert plan.pairs[..n + 1][..n] == plan.pairs[..n];
      out := Record(out, plan.pairs[n].instrument, DecidePair(f, plan.pairs[n]));
    }
    assert plan.pairs[..|plan.pairs|] == plan.pairs;
    for n := 0 to |plan.evictions|
      invariant out == OverEvictions(f, plan.pairs, plan.evictions[..n])
    {
      assert plan.evictions[..n + 1][..n] == plan.evictions[..n];
      out := Record(out, plan.evictions[n].instrument, DecideEviction(f, plan.evictions[n]));
    }
    assert plan.evictions[..|plan.evictions|] == plan.evictions;
    for n := 0 to |plan.surplus|
      invariant out == OverSurplus(f, plan.pairs, plan.evictions, plan.surplus[..n])
    {
      assert plan.surplus[..n + 1][..n] == plan.surplus[..n];
      out := Record(out, plan.surplus[n].instrument, DecideSurplus(f, plan.surplus[n]));
    }
    assert plan.surplus[..|plan.surplus|] == plan.surplus;
    return Ok(out);
  }
}
