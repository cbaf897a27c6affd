/**
 The repair plan (backend/api/cache_repair.py:485-579): which orders are revived, and what becomes of every position
 on an instrument where a revived order fired.
 */
module CachePlan {
  import opened Prelude
  import opened CacheReplay
  import opened CacheOrders

  datatype Rewrite = Rewrite(pid: string, events: seq<Fill>, isOpen: bool, same: bool)

  datatype Plan = Plan(revivals: seq<Revival>, rewrites: seq<Rewrite>, refusals: map<string, (real, real)>,
                       unexplained: seq<string>, leftAlone: seq<string>, dropOrders: seq<string>)
  {
    predicate IsNoop() {
      revivals == [] && dropOrders == [] && forall rw :: rw in rewrites ==> rw.same
    }

    predicate IsRefused() {
      refusals != map[] || unexplained != []
    }
  }

  // ---- which corpses are revived -----------------------------------------------------------------

  /** The venue still rests it, filled it, or closed it after some of it had filled. */
  predicate WorthReviving(vo: VenueOrder) {
    || vo.status in VENUE_RESTING
    || vo.status in VENUE_FILLED
    || (vo.status in VENUE_DONE && vo.filledQty > 0.0)
  }

  function Corpses(image: Image, venue: Venue): (r: set<string>)
    requires WellFormed(image)
    ensures forall c :: c in r <==> c in image.orders && IsCorpse(image, venue, c)
  {
    set coid | coid in image.orders && IsCorpse(image, venue, coid)
  }

  /** The corpses the venue knows, in order, and what is done with each. */
  function ReviveAll(image: Image, venue: Venue, coids: seq<string>): Result<(seq<Revival>, seq<string>), Refusal>
    requires WellFormed(image) && forall c :: c in coids ==> c in Corpses(image, venue)
    decreases |coids|
  {
    if coids == [] then Ok(([], []))
    else
      var n := |coids| - 1;
      var c := coids[n];
      assert c in coids && c in Corpses(image, venue);
      match ReviveAll(image, venue, coids[..n])
      case Err(e) => Err(e)
      case Ok((revivals, left)) =>
        if !WorthReviving(venue.orders[c]) then Ok((revivals, left + [c]))
        else if image.orders[c][0].instrument !in image.instruments then Err(UnknownInstrument(image.orders[c][0].instrument))
        else
          match Revive(image, c, venue.orders[c])
          case Err(e) => Err(e)
          case Ok(rv) => Ok((revivals + [rv], left))
  }

  // ---- which lanes fired -------------------------------------------------------------------------

  datatype Lane = Lane(instrument: string, strategy: string)

  /** The latest fill among the events, no earlier than zero. */
  function LastFillTs(events: seq<OrderEvent>): int {
    if events == [] then 0
    else
      var rest := LastFillTs(events[..|events| - 1]);
      var e := events[|events| - 1];
      if e.Filled? && e.fill.ts > rest then e.fill.ts else rest
  }

  predicate DidFire(rv: Revival) {
    rv.after == IsFilled || rv.keptQty + rv.syntheticQty > 0.0
  }

  /** The lanes whose revived order moved quantity, and when it last did. */
  function Fired(revivals: seq<Revival>): map<Lane, int> {
    if revivals == [] then map[]
    else
      var n := |revivals| - 1;
      var rv, before := revivals[n], Fired(revivals[..n]);
      if !DidFire(rv) then before
      else
        var lane, last := Lane(rv.instrument, rv.strategy), LastFillTs(rv.events);
        before[lane := if lane in before && before[lane] > last then before[lane] else last]
  }

  // ---- what becomes of one position --------------------------------------------------------------

  /** Position ids on an instrument begin with its id and a dash. */
  predicate Belongs(pid: string, instrument: string) {
    instrument + "-" <= pid
  }

  function StrategyOf(pid: string, instrument: string): string
    requires Belongs(pid, instrument)
  {
    pid[|instrument| + 1..]
  }

  const COCKPIT_PREFIXES := ["kumo-", "PROT-", "RPR-", "TR-", "FL-"]

  predicate PlacedByCockpit(coid: string) {
    exists p :: p in COCKPIT_PREFIXES && StartsWith(coid, p)
  }

  function LaneFillsIn(events: seq<OrderEvent>, lane: Lane, after: int): seq<Fill> {
    if events == [] then []
    else
      var e := events[0];
      (if e.Filled? && e.fill.instrument == lane.instrument && e.fill.strategy == lane.strategy && e.fill.ts > after
       then [WithPositionId(e.fill)] else [])
      + LaneFillsIn(events[1..], lane, after)
  }

  function LaneFillsOf(orders: map<string, seq<OrderEvent>>, keys: seq<string>, lane: Lane, after: int): seq<Fill>
    requires forall k :: k in keys ==> k in orders
  {
    if keys == [] then []
    else
      assert keys == [keys[0]] + keys[1..];
      (if StartsWith(keys[0], "kumo-") then LaneFillsIn(orders[keys[0]], lane, after) else [])
      + LaneFillsOf(orders, keys[1..], lane, after)
  }

  predicate ByTs(a: Fill, b: Fill) {
    a.ts <= b.ts
  }

  /** The lane's own entries and exits after its stop fired. */
  function LaneFillsAfter(image: Image, lane: Lane, after: int): seq<Fill>
    requires WellFormed(image)
  {
    Sort(LaneFillsOf(image.orders, image.orderKeys, lane, after), ByTs)
  }

  datatype Decision = LeftClosed | Unexplained | Rewritten(rewrite: Rewrite)

  /** The four rules. */
  function Decide(image: Image, fired: map<Lane, int>, instrument: string, pid: string): Decision
    requires WellFormed(image) && pid in image.positions && Belongs(pid, instrument)
  {
    var raw := image.positions[pid];
    var lane := Lane(instrument, StrategyOf(pid, instrument));
    var cur := Current(raw);
    if cur == [] || NetOf(cur) == 0.0 then LeftClosed
    else if lane in fired then
      var held := Current(LaneFillsAfter(image, lane, fired[lane]));
      if held == [] || NetOf(held) == 0.0 then Rewritten(Rewrite(pid, [], false, false))
      else Rewritten(Rewrite(pid, held, true, held == raw))
    else if NetOf(cur) < 0.0 then Unexplained
    else if forall f :: f in cur ==> !PlacedByCockpit(f.coid) then Rewritten(Rewrite(pid, [], false, false))
    else Rewritten(Rewrite(pid, raw, true, true))
  }

  /** What the decision leaves open. */
  function NetLeft(d: Decision): real {
    if d.Rewritten? then NetOf(Current(d.rewrite.events)) else 0.0
  }

  // ---- the instruments, one after the other ------------------------------------------------------

  function SymbolOf(instrument: string): string {
    if instrument == [] || instrument[0] == '.' then [] else [instrument[0]] + SymbolOf(instrument[1..])
  }

  function VenueNet(venue: Venue, instrument: string): real {
    var symbol := SymbolOf(instrument);
    if symbol in venue.positions then venue.positions[symbol] else 0.0
  }

  datatype Planned = Planned(rewrites: seq<Rewrite>, refusals: map<string, (real, real)>, unexplained: seq<string>)

  /** The decisions over a list of position ids; those of other instruments are passed over. */
  function DecideAll(image: Image, fired: map<Lane, int>, instrument: string, pids: seq<string>)
    : (seq<Rewrite>, seq<string>, real)
    requires WellFormed(image) && forall p :: p in pids ==> p in image.positions
    decreases |pids|
  {
    if pids == [] then ([], [], 0.0)
    else
      var n := |pids| - 1;
      var p := pids[n];
      assert p in pids;
      var (rewrites, unexplained, net) := DecideAll(image, fired, instrument, pids[..n]);
      if !Belongs(p, instrument) then (rewrites, unexplained, net)
      else
        match Decide(image, fired, instrument, p)
        case LeftClosed => (rewrites, unexplained, net)
        case Unexplained => (rewrites, unexplained + [p], net)
        case Rewritten(rw) => (rewrites + [rw], unexplained, net + NetOf(Current(rw.events)))
  }

  function PlanInstruments(image: Image, fired: map<Lane, int>, venue: Venue, instruments: seq<string>)
    : Result<Planned, Refusal>
    requires WellFormed(image)
    decreases |instruments|
  {
    if instruments == [] then Ok(Planned([], map[], []))
    else
      var n := |instruments| - 1;
      var i := instruments[n];
      match PlanInstruments(image, fired, venue, instruments[..n])
      case Err(e) => Err(e)
      case Ok(before) =>
        if i !in image.instruments then Err(UnknownInstrument(i))
        else
          var (rewrites, unexplained, net) := DecideAll(image, fired, i, SortedStrings(image.positions.Keys));
          Ok(Planned(before.rewrites + rewrites,
                     if net != VenueNet(venue, i) then before.refusals[SymbolOf(i) := (net, VenueNet(venue, i))]
                     else before.refusals,
                     before.unexplained + unexplained))
  }

  function FiredInstruments(fired: map<Lane, int>): set<string> {
    set lane | lane in fired :: lane.instrument
  }

  function PlanRepair(image: Image, venue: Venue): Result<Plan, Refusal>
    requires WellFormed(image)
  {
    match ReviveAll(image, venue, SortedStrings(Corpses(image, venue)))
    case Err(e) => Err(e)
    case Ok((revivals, left)) =>
      var fired := Fired(revivals);
      match PlanInstruments(image, fired, venue, SortedStrings(FiredInstruments(fired)))
      case Err(e) => Err(e)
      case Ok(p) => Ok(Plan(revivals, p.rewrites, p.refusals, p.unexplained, left, []))
  }

  // ---- the loops ---------------------------------------------------------------------------------

  /** Every revival is of an order the image holds, whose initialization names its lane. */
  ghost predicate OfImage(image: Image, revivals: seq<Revival>)
    requires WellFormed(image)
  {
    forall rv :: rv in revivals ==>
      && rv.coid in image.orders
      && image.orders[rv.coid][0].instrument == rv.instrument && image.orders[rv.coid][0].strategy == rv.strategy
  }

  /** `plan_positions`: the lanes that fired, then every position of every instrument they are on. */
  method PlanPositions(image: Image, revivals: seq<Revival>, venue: Venue) returns (r: Result<Planned, Refusal>)
    requires WellFormed(image) && OfImage(image, revivals)
    ensures r == PlanInstruments(image, Fired(revivals), venue, SortedStrings(FiredInstruments(Fired(revivals))))
  {
    hide WellFormed, DecideAll, SortedStrings, VenueNet, SymbolOf, FiredInstruments;
    var fired := FindFired(image, revivals);
    var instruments := SortedStrings(FiredInstruments(fired));
    var planned := Planned([], map[], []);
    var n := 0;
    while n < |instruments|
      invariant n <= |instruments|
      invariant PlanInstruments(image, fired, venue, instruments[..n]) == Ok(planned)
    {
      var i := instruments[n];
      assert instruments[..n + 1][..n] == instruments[..n];
      if i !in image.instruments {
        RefusalSticks(image, fired, venue, instruments, n + 1);
        return Err(UnknownInstrument(i));
      }
      var rewrites, unexplained, net := DecideInstrument(image, fired, i);
      var refusals := planned.refusals;
      if net != VenueNet(venue, i) {
        refusals := refusals[SymbolOf(i) := (net, VenueNet(venue, i))];
      }
      planned := Planned(planned.rewrites + rewrites, refusals, planned.unexplained + unexplained);
      n := n + 1;
    }
    assert instruments[..n] == instruments;
    return Ok(planned);
  }

  lemma {:induction false} RefusalSticks(image: Image, fired: map<Lane, int>, venue: Venue, instruments: seq<string>, n: nat)
    requires WellFormed(image) && n <= |instruments| && PlanInstruments(image, fired, venue, instruments[..n]).Err?
    ensures PlanInstruments(image, fired, venue, instruments) == PlanInstruments(image, fired, venue, instruments[..n])
    decreases |instruments|
  {
    hide WellFormed, DecideAll, SortedStrings, VenueNet, SymbolOf;
    if n == |instruments| {
      assert instruments[..n] == instruments;
    } else {
      var m := |instruments| - 1;
      assert instruments[..m][..n] == instruments[..n];
      RefusalSticks(image, fired, venue, instruments[..m], n);
    }
  }

  /** The lane of a revived order is looked up in the cached order itself. */
  method FindFired(image: Image, revivals: seq<Revival>) returns (fired: map<Lane, int>)
    requires WellFormed(image) && OfImage(image, revivals)
    ensures fired == Fired(revivals)
  {
    fired := map[];
    var n := 0;
    while n < |revivals|
      invariant n <= |revivals|
      invariant fired == Fired(revivals[..n])
    {
      var rv := revivals[n];
      assert revivals[..n + 1][..n] == revivals[..n] && rv in revivals;
      if DidFire(rv) {
        var init := image.orders[rv.coid][0];
        var lane, last := Lane(rv.instrument, init.strategy), LastFillTs(rv.events);
        if lane !in fired || fired[lane] <= last {
          fired := fired[lane := last];
        } else {
          fired := fired[lane := fired[lane]];
        }
      }
      n := n + 1;
    }
    assert revivals[..n] == revivals;
  }

  /** A revival carries the name and lane of its order. */
  lemma {:induction false} RevivedIsOfImage(image: Image, coid: string, vo: VenueOrder, revivals: seq<Revival>)
    requires WellFormed(image) && coid in image.orders && StatusOf(image.orders[coid]).IsRejected?
    requires Revive(image, coid, vo).Ok? && OfImage(image, revivals)
    ensures OfImage(image, revivals + [Revive(image, coid, vo).value])
  {
    hide StatusOf, Refilled, FirstAccepted, FirstRejected;
  }

  lemma {:induction false} DecideNext(image: Image, fired: map<Lane, int>, instrument: string, pids: seq<string>, n: nat)
    requires WellFormed(image) && n < |pids| && forall p :: p in pids ==> p in image.positions
    ensures pids[n] in image.positions
    ensures forall p :: p in pids[..n] || p in pids[..n + 1] ==> p in image.positions
    ensures DecideAll(image, fired, instrument, pids[..n + 1])
         == var (rewrites, unexplained, net) := DecideAll(image, fired, instrument, pids[..n]);
            if !Belongs(pids[n], instrument) then (rewrites, unexplained, net)
            else
              match Decide(image, fired, instrument, pids[n])
              case LeftClosed => (rewrites, unexplained, net)
              case Unexplained => (rewrites, unexplained + [pids[n]], net)
              case Rewritten(rw) => (rewrites + [rw], unexplained, net + NetOf(Current(rw.events)))
  {
    hide WellFormed, Decide, Belongs, NetOf, Current;
    assert pids[..n + 1][..n] == pids[..n];
    assert pids[n] in pids;
  }

  method DecideInstrument(image: Image, fired: map<Lane, int>, instrument: string)
    returns (rewrites: seq<Rewrite>, unexplained: seq<string>, net: real)
    requires WellFormed(image)
    ensures (rewrites, unexplained, net) == DecideAll(image, fired, instrument, SortedStrings(image.positions.Keys))
  {
    hide *;
    rewrites, unexplained, net := [], [], 0.0;
    var pids := SortedStrings(image.positions.Keys);
    NothingToDecide(image, fired, instrument);
    var n := 0;
    while n < |pids|
      invariant n <= |pids|
      invariant forall p :: p in pids[..n] ==> p in image.positions
      invariant (rewrites, unexplained, net) == DecideAll(image, fired, instrument, pids[..n])
    {
      var p := pids[n];
      DecideNext(image, fired, instrument, pids, n);
      if Belongs(p, instrument) {
        match Decide(image, fired, instrument, p)
        case LeftClosed =>
        case Unexplained =>
          unexplained := unexplained + [p];
        case Rewritten(rw) =>
          rewrites := rewrites + [rw];
          net := net + NetOf(Current(rw.events));
      }
      n := n + 1;
    }
    assert pids[..n] == pids;
  }

  lemma {:induction false} NothingToDecide(image: Image, fired: map<Lane, int>, instrument: string)
    requires WellFormed(image)
    ensures DecideAll(image, fired, instrument, []) == ([], [], 0.0)
  {
  }

  lemma {:induction false} ReviveNext(image: Image, venue: Venue, coids: seq<string>, n: nat)
    requires WellFormed(image) && n < |coids| && forall c :: c in coids ==> c in Corpses(image, venue)
    ensures var c := coids[n];
            && c in image.orders && image.orders[c] != [] && c in venue.orders && StatusOf(image.orders[c]).IsRejected?
            && (forall k :: k in coids[..n] || k in coids[..n + 1] ==> k in Corpses(image, venue))
            && ReviveAll(image, venue, coids[..n + 1])
            == match ReviveAll(image, venue, coids[..n])
               case Err(e) => Err(e)
               case Ok((revivals, left)) =>
                 if !WorthReviving(venue.orders[c]) then Ok((revivals, left + [c]))
                 else if image.orders[c][0].instrument !in image.instruments
                 then Err(UnknownInstrument(image.orders[c][0].instrument))
                 else
                   match Revive(image, c, venue.orders[c])
                   case Err(e) => Err(e)
                   case Ok(rv) => Ok((revivals + [rv], left))
  {
    hide Revive, WorthReviving;
    assert coids[..n + 1][..n] == coids[..n];
    assert coids[n] in coids;
    assert coids[n] in Corpses(image, venue);
  }

  lemma {:induction false} ReviveStops(image: Image, venue: Venue, coids: seq<string>, n: nat)
    requires WellFormed(image) && n <= |coids| && forall c :: c in coids ==> c in Corpses(image, venue)
    requires ReviveAll(image, venue, coids[..n]).Err?
    ensures ReviveAll(image, venue, coids) == ReviveAll(image, venue, coids[..n])
    decreases |coids|
  {
    hide Revive, WorthReviving, WellFormed, Corpses;
    if n == |coids| {
      assert coids[..n] == coids;
    } else {
      var m := |coids| - 1;
      assert coids[..m][..n] == coids[..n];
      ReviveStops(image, venue, coids[..m], n);
    }
  }

  /** `plan_repair`: pure, from an image of the cache and what the venue says. */
  method MakePlan(image: Image, venue: Venue) returns (r: Result<Plan, Refusal>)
    requires WellFormed(image)
    ensures r == PlanRepair(image, venue)
  {
    hide ReviveAll, Revive, WorthReviving, WellFormed, Corpses, PlanInstruments, Fired, FiredInstruments, SortedStrings,
      StatusOf;
    var coids := SortedStrings(Corpses(image, venue));
    var revivals, left := [], [];
    var n := 0;
    NothingToRevive(image, venue);
    while n < |coids|
      invariant n <= |coids|
      invariant forall k :: k in coids[..n] ==> k in Corpses(image, venue)
      invariant ReviveAll(image, venue, coids[..n]) == Ok((revivals, left))
      invariant OfImage(image, revivals)
    {
      var c := coids[n];
      ReviveNext(image, venue, coids, n);
      var vo := venue.orders[c];
      if !WorthReviving(vo) {
        left := left + [c];
      } else {
        var init := image.orders[c][0];
        assert init.Initialized? by { OrderBegins(image, c); }
        if init.instrument !in image.instruments {
          ReviveStops(image, venue, coids, n + 1);
          return Err(UnknownInstrument(init.instrument));
        }
        var rv := ReviveOrder(image, c, vo);
        if rv.Err? {
          ReviveStops(image, venue, coids, n + 1);
          return Err(rv.error);
        }
        RevivedIsOfImage(image, c, vo, revivals);
        revivals := revivals + [rv.value];
      }
      n := n + 1;
    }
    assert coids[..n] == coids;
    var p := PlanPositions(image, revivals, venue);
    if p.Err? {
      return Err(p.error);
    }
    return Ok(Plan(revivals, p.value.rewrites, p.value.refusals, p.value.unexplained, left, []));
  }

  lemma {:induction false} NothingToRevive(image: Image, venue: Venue)
    requires WellFormed(image)
    ensures ReviveAll(image, venue, []) == Ok(([], []))
  {
  }
}
