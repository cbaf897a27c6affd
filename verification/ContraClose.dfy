/**
 Planning the repair of a mis-attributed book (backend/api/contra_close.py): every instrument of a
 multi-lane book is classified against the venue's quantity as a set of offsetting pairs, a whole-book
 eviction, the eviction of one EXTERNAL surplus leg, a refusal, or silence.
 */
module ContraClose {
  import opened Prelude
  import opened Netting

  const QTY_TOLERANCE: real := 0.000001
  const EXTERNAL_LANE := "EXTERNAL"

  /** A quantity read from elsewhere: NaN, or nothing at all, is `Unknown` and never zero. */
  datatype Qty = Unknown | Known(v: real)

  /** `open` and `stamp` are `None` when the shape read lacks the attribute altogether. */
  datatype Position = Position(instrument: string, strategy: string, id: string, qty: Qty, avgPx: real,
                               open: Option<bool>, stamp: Option<int>)
  {
    function Signed(): real {
      if qty.Known? then qty.v else 0.0
    }

    function Stamp(): int {
      if stamp.Some? then stamp.value else 0
    }
  }

  predicate IsOpen(p: Position) { p.open == Some(true) }
  predicate IsLong(p: Position) { p.Signed() > 0.0 }
  predicate IsShort(p: Position) { p.Signed() < 0.0 }
  predicate IsExternal(p: Position) { p.strategy == EXTERNAL_LANE }
  predicate IsReal(p: Position) { p.strategy != EXTERNAL_LANE }
  function SignedOf(p: Position): real { p.Signed() }

  function HoldingOf(p: Position): Holding {
    Holding(p.instrument, p.strategy, p.id, p.Signed(), p.avgPx, 0.0)
  }

  datatype PrintLine = PrintLine(strategy: string, id: string, signed: Qty, px: real, stamp: int)

  /** The digest as the tuple of fields it hashes. The three namespaces are disjoint constructors. */
  datatype Fingerprint =
    | PairPrint(instrument: string, longStrategy: string, shortStrategy: string, longId: string,
                shortId: string, longQty: Qty, shortQty: Qty, longPx: real, shortPx: real,
                brokerQty: Qty, longOpened: int, shortOpened: int)
    | EvictPrint(instrument: string, brokerQty: Qty, lines: seq<PrintLine>)
    | SurplusPrint(instrument: string, brokerQty: Qty, realLanes: real, line: PrintLine)

  datatype ContraPair = ContraPair(instrument: string, longStrategy: string, shortStrategy: string,
                                   longId: string, shortId: string, quantity: real, longPx: real,
                                   shortPx: real, longQty: real, shortQty: real, brokerQty: real,
                                   longOpened: int, shortOpened: int)
  {
    function UnbookedRealized(): real {
      Times(shortPx - longPx, quantity)
    }

    predicate IsPartial() {
      Abs(longQty) - quantity > QTY_TOLERANCE
    }

    /** `quantity` is not part of it. */
    function Print(): Fingerprint {
      PairPrint(instrument, longStrategy, shortStrategy, longId, shortId, Known(longQty), Known(shortQty),
                longPx, shortPx, Known(brokerQty), longOpened, shortOpened)
    }

    /** The two legs that book this pair at its planned quantity: the short is bought back first. */
    function Legs(): seq<Leg> {
      [Leg(instrument, shortStrategy, shortId, Buy, quantity, shortPx),
       Leg(instrument, longStrategy, longId, Sell, quantity, longPx)]
    }
  }

  datatype Eviction = Eviction(instrument: string, legs: seq<Leg>, stamps: seq<int>, brokerQty: real)
  {
    function Print(): Fingerprint {
      EvictPrint(instrument, Known(brokerQty), PrintLines(legs, stamps))
    }

    function UnbookedRealized(): real {
      BookValue(legs)
    }
  }

  datatype SurplusEviction = SurplusEviction(instrument: string, leg: Leg, stamp: int, brokerQty: real,
                                             realLanes: real)
  {
    function Print(): Fingerprint {
      SurplusPrint(instrument, Known(brokerQty), realLanes, PrintLineOf(leg, stamp))
    }

    function UnbookedRealized(): real {
      BookValue([leg])
    }
  }

  function PrintLineOf(l: Leg, stamp: int): PrintLine {
    PrintLine(l.strategy, l.positionId, Known(-l.Signed()), l.price, stamp)
  }

  /** `zip` of the legs with their stamps: as long as the shorter of the two. */
  function PrintLines(legs: seq<Leg>, stamps: seq<int>): seq<PrintLine> {
    if legs == [] || stamps == [] then []
    else [PrintLineOf(legs[0], stamps[0])] + PrintLines(legs[1..], stamps[1..])
  }

  /** What a set of closing legs writes off the book: bought back minus given back. */
  function BookValue(legs: seq<Leg>): real {
    if legs == [] then 0.0 else Times(legs[0].price, legs[0].Signed()) + BookValue(legs[1..])
  }

  datatype Reason =
    | CannotSayOpen | NoStamp | UnreadableQty | Resting | RealLanesOverSum | ManyExternal | WouldNotLand
    | TooManyLegs | NoOffsettingLong | BrokerSilent | BrokerNotANumber | BrokerShort | NetDisagrees
    | NoPosition | NotLong | NotShort | QuantityNotPositive | QuantityDoesNotFit
    | Mute | LegGone | BrokerMoved | Moved | LanesMoved | VenueNotZero | SurplusMoved

  datatype Refusal = Refusal(instrument: string, reason: Reason)

  datatype ContraPlan = ContraPlan(pairs: seq<ContraPair>, refused: seq<Refusal>, evictions: seq<Eviction>,
                                   surplus: seq<SurplusEviction>)

  // ---- the resting-order vocabulary ----------------------------------------------------------

  /**
   The working orders in the book's own vocabulary, or the offending ones. `wellFormed` holds the items
   the instrument-id parser accepts in upper case; a well-formed item must be a known id or name a symbol
   no known id has.
   */
  function ValidatedWorking(working: set<string>, known: set<string>, wellFormed: set<string>)
    : (r: Result<set<string>, set<string>>)
    ensures r.Ok? ==> r.value == working
    ensures r.Err? ==> r.error != {} && r.error <= working
  {
    var symbols := set k | k in known :: SymbolPart(k);
    var bad := set w | w in working
                       && (w !in wellFormed || (w !in known && (w in symbols || SymbolPart(w) in symbols)));
    if bad == {} then Ok(working) else Err(bad)
  }

  function SymbolsOf(ids: set<string>): set<string> {
    set w | w in ids :: SymbolPart(w)
  }

  // ---- one instrument ------------------------------------------------------------------------

  datatype Surplus = NoSurplus | Named(reason: Reason) | SurplusLeg(leg: Position, realSum: real)

  /** The one predicate of the surplus rule, read by the planner and by the executor. */
  function SurplusShape(legs: seq<Position>, venue: Qty): Surplus {
    if venue.Unknown? || (exists p | p in legs :: IsShort(p)) then NoSurplus
    else
      var longs := Filter(legs, IsLong);
      var surplus := SumBy(longs, SignedOf) - venue.v;
      if surplus <= QTY_TOLERANCE then NoSurplus
      else
        var external := Filter(longs, IsExternal);
        var own := Filter(longs, IsReal);
        var ownSum := SumBy(own, SignedOf);
        if own == [] then NoSurplus
        else if external == [] then Named(RealLanesOverSum)
        else if |external| > 1 then Named(ManyExternal)
        else if Abs(ownSum - venue.v) > QTY_TOLERANCE || Abs(external[0].Signed() - surplus) > QTY_TOLERANCE then
          Named(WouldNotLand)
        else SurplusLeg(external[0], ownSum)
  }

  /** The leg that closes a whole position at its own basis. */
  function ClosingLeg(instrument: string, p: Position): Leg {
    Leg(instrument, p.strategy, p.id, if IsLong(p) then Sell else Buy, Abs(p.Signed()), p.avgPx)
  }

  function ClosingLegs(instrument: string, legs: seq<Position>): (r: seq<Leg>)
    ensures |r| == |legs|
    ensures forall i :: 0 <= i < |legs| ==> r[i] == ClosingLeg(instrument, legs[i])
  {
    seq(|legs|, i requires 0 <= i < |legs| => ClosingLeg(instrument, legs[i]))
  }

  function Stamps(legs: seq<Position>): (r: seq<int>)
    ensures |r| == |legs|
    ensures forall i :: 0 <= i < |legs| ==> r[i] == legs[i].Stamp()
  {
    seq(|legs|, i requires 0 <= i < |legs| => legs[i].Stamp())
  }

  predicate ByLane(a: Position, b: Position) {
    if a.strategy == b.strategy then StrLe(a.id, b.id) else StrLe(a.strategy, b.strategy)
  }

  predicate ById(a: Position, b: Position) {
    StrLe(a.id, b.id)
  }

  /** `broker.get(instrument, 0.0)`: silence reads as zero here, and callers decide whether it may. */
  function BrokerOrZero(broker: map<string, Qty>, instrument: string): Qty {
    if instrument in broker then broker[instrument] else Known(0.0)
  }

  predicate NearZero(q: Qty) {
    q.Known? && Abs(q.v) <= QTY_TOLERANCE
  }

  datatype Slot = Slot(pos: Position, rem: real)
  datatype Take = Take(long: Position, short: Position, quantity: real)

  function Slots(legs: seq<Position>): (r: seq<Slot>)
    ensures |r| == |legs|
    ensures forall i :: 0 <= i < |legs| ==> r[i] == Slot(legs[i], Abs(legs[i].Signed()))
  {
    seq(|legs|, i requires 0 <= i < |legs| => Slot(legs[i], Abs(legs[i].Signed())))
  }

  /** One step of a cursor: what is left of the leg, or the next leg when no more than `tol` is left. */
  function Advance(slots: seq<Slot>, take: real, tol: real): (r: seq<Slot>)
    requires slots != []
  {
    if slots[0].rem - take <= tol then slots[1..]
    else [slots[0].(rem := slots[0].rem - take)] + slots[1..]
  }

  /** Two cursors over longs and shorts, each step taking what both legs can give. */
  function Match(longs: seq<Slot>, shorts: seq<Slot>, tol: real): seq<Take>
    requires tol >= 0.0
    decreases |longs| + |shorts|
  {
    if longs == [] || shorts == [] then []
    else
      var take := Min(longs[0].rem, shorts[0].rem);
      (if take > tol then [Take(longs[0].pos, shorts[0].pos, take)] else [])
      + Match(Advance(longs, take, tol), Advance(shorts, take, tol), tol)
  }

  /** The slots with `take` given at the cursor, and where the cursor goes next. */
  function Give(slots: seq<Slot>, at: nat, take: real): (r: seq<Slot>)
    requires at < |slots|
    ensures |r| == |slots|
  {
    slots[at := Slot(slots[at].pos, slots[at].rem - take)]
  }

  function Next(slots: seq<Slot>, at: nat, tol: real): (r: nat)
    requires at < |slots|
    ensures at <= r <= |slots|
  {
    if slots[at].rem <= tol then at + 1 else at
  }

  /** Writing back what is left and moving the cursor past an exhausted leg is one `Advance`. */
  lemma {:induction false} CursorAdvances(slots: seq<Slot>, at: nat, take: real, tol: real)
    requires at < |slots|
    ensures Give(slots, at, take)[Next(Give(slots, at, take), at, tol)..] == Advance(slots[at..], take, tol)
  {
    var slots' := Give(slots, at, take);
    assert slots[at..][1..] == slots[at + 1..] == slots'[at + 1..];
    assert slots'[at..] == [slots'[at]] + slots'[at + 1..];
  }

  /** The takes of the loop from two cursors on: the same matching, over slots written back in place. */
  ghost function MatchFrom(longs: seq<Slot>, li: nat, shorts: seq<Slot>, si: nat, tol: real): seq<Take>
    requires tol >= 0.0 && li <= |longs| && si <= |shorts|
    decreases |longs| - li + |shorts| - si
  {
    if li == |longs| || si == |shorts| then []
    else
      var take := Min(longs[li].rem, shorts[si].rem);
      var longs', shorts' := Give(longs, li, take), Give(shorts, si, take);
      (if take > tol then [Take(longs[li].pos, shorts[si].pos, take)] else [])
      + MatchFrom(longs', Next(longs', li, tol), shorts', Next(shorts', si, tol), tol)
  }

  lemma {:induction false} MatchFromIsMatch(longs: seq<Slot>, li: nat, shorts: seq<Slot>, si: nat, tol: real)
    requires tol >= 0.0 && li <= |longs| && si <= |shorts|
    ensures MatchFrom(longs, li, shorts, si, tol) == Match(longs[li..], shorts[si..], tol)
    decreases |longs| - li + |shorts| - si
  {
    if li < |longs| && si < |shorts| {
      var take := Min(longs[li].rem, shorts[si].rem);
      var longs', shorts' := Give(longs, li, take), Give(shorts, si, take);
      CursorAdvances(longs, li, take, tol);
      CursorAdvances(shorts, si, take, tol);
      MatchFromIsMatch(longs', Next(longs', li, tol), shorts', Next(shorts', si, tol), tol);
    }
  }

  lemma {:induction false} Regroup<T>(a: seq<T>, b: seq<T>, c: seq<T>)
    ensures a + (b + c) == (a + b) + c
  {
  }

  method MatchLegs(longs: seq<Slot>, shorts: seq<Slot>, tol: real) returns (takes: seq<Take>)
    requires tol >= 0.0
    ensures takes == Match(longs, shorts, tol)
  {
    takes := [];
    var remainingLong, remainingShort := longs, shorts;
    var li, si := 0, 0;
    ghost var whole := MatchFrom(longs, 0, shorts, 0, tol);
    while li < |remainingLong| && si < |remainingShort|
      invariant 0 <= li <= |remainingLong| && 0 <= si <= |remainingShort|
      invariant takes + MatchFrom(remainingLong, li, remainingShort, si, tol) == whole
      decreases |remainingLong| - li + |remainingShort| - si
    {
      var lp, lq := remainingLong[li].pos, remainingLong[li].rem;
      var sp, sq := remainingShort[si].pos, remainingShort[si].rem;
      var take := Min(lq, sq);
      ghost var before := takes;
      ghost var step := if take > tol then [Take(lp, sp, take)] else [];
      ghost var rest := MatchFrom(Give(remainingLong, li, take), Next(Give(remainingLong, li, take), li, tol),
                                  Give(remainingShort, si, take), Next(Give(remainingShort, si, take), si, tol), tol);
      assert MatchFrom(remainingLong, li, remainingShort, si, tol) == step + rest;
      Regroup(before, step, rest);
      if take > tol {
        takes := takes + [Take(lp, sp, take)];
      }
      assert takes == before + step;
      remainingLong := remainingLong[li := Slot(lp, lq - take)];
      remainingShort := remainingShort[si := Slot(sp, sq - take)];
      if remainingLong[li].rem <= tol {
        li := li + 1;
      }
      if remainingShort[si].rem <= tol {
        si := si + 1;
      }
    }
    MatchFromIsMatch(longs, 0, shorts, 0, tol);
    assert longs[0..] == longs && shorts[0..] == shorts;
  }

  function PairOf(instrument: string, long: Position, short: Position, quantity: real, brokerQty: real)
    : ContraPair
  {
    ContraPair(instrument, long.strategy, short.strategy, long.id, short.id, quantity, long.avgPx,
               short.avgPx, long.Signed(), short.Signed(), brokerQty, long.Stamp(), short.Stamp())
  }

  function PairsOf(instrument: string, takes: seq<Take>, brokerQty: real): (r: seq<ContraPair>)
    ensures |r| == |takes|
    ensures forall i :: 0 <= i < |takes| ==>
              r[i] == PairOf(instrument, takes[i].long, takes[i].short, takes[i].quantity, brokerQty)
  {
    seq(|takes|, i requires 0 <= i < |takes| =>
      PairOf(instrument, takes[i].long, takes[i].short, takes[i].quantity, brokerQty))
  }

  datatype Outcome =
    | Silent
    | Refused(reason: Reason)
    | Paired(pairs: seq<ContraPair>)
    | Evicted(eviction: Eviction)
    | SurplusEvicted(surplus: SurplusEviction)

  function FlattenTakes(legs: seq<Position>): seq<Take> {
    Match(Slots(Sort(Filter(legs, IsLong), ById)), Slots(Sort(Filter(legs, IsShort), ById)), QTY_TOLERANCE)
  }

  function EvictAll(instrument: string, legs: seq<Position>, brokerQty: real): Eviction {
    var ordered := Sort(legs, ByLane);
    Eviction(instrument, ClosingLegs(instrument, ordered), Stamps(ordered), brokerQty)
  }

  /** The decision for one instrument: its open legs against what the venue said. */
  function PlanInstrument(instrument: string, legs: seq<Position>, broker: map<string, Qty>,
                          resting: set<string>, complete: bool): Outcome
  {
    if exists p | p in legs :: p.stamp.None? then Refused(NoStamp)
    else if exists p | p in legs :: p.qty.Unknown? then Refused(UnreadableQty)
    else
      var longs := Filter(legs, IsLong);
      var shorts := Filter(legs, IsShort);
      var net := SumBy(legs, SignedOf);
      var venue := BrokerOrZero(broker, instrument);
      var rests := SymbolPart(instrument) in resting;
      if complete && NearZero(venue) && Abs(net) > QTY_TOLERANCE then
        if rests then Refused(Resting) else Evicted(EvictAll(instrument, legs, venue.v))
      else
        var stated := if complete && instrument in broker then broker[instrument] else Unknown;
        match SurplusShape(legs, stated)
        case SurplusLeg(x, ownSum) =>
          if rests then Refused(Resting)
          else if stated.Known? then
            SurplusEvicted(SurplusEviction(instrument,
              Leg(instrument, x.strategy, x.id, Sell, Abs(x.Signed()), x.avgPx), x.Stamp(), stated.v, ownSum))
          else Silent
        case Named(reason) => Refused(reason)
        case NoSurplus =>
          if shorts == [] then Silent
          else if rests then Refused(Resting)
          else if |legs| > 2 then
            if (instrument in broker || complete) && NearZero(venue) && Abs(net) <= QTY_TOLERANCE then
              Paired(PairsOf(instrument, FlattenTakes(legs), venue.v))
            else Refused(TooManyLegs)
          else if longs == [] then Refused(NoOffsettingLong)
          else if instrument !in broker && !complete then Refused(BrokerSilent)
          else if venue.Unknown? then Refused(BrokerNotANumber)
          else if venue.v < 0.0 then Refused(BrokerShort)
          else if Abs(longs[0].Signed() + shorts[0].Signed() - venue.v) > QTY_TOLERANCE then Refused(NetDisagrees)
          else Paired([PairOf(instrument, longs[0], shorts[0],
                              Min(Abs(longs[0].Signed()), Abs(shorts[0].Signed())), venue.v)])
  }

  // ---- the whole book ------------------------------------------------------------------------

  /** The instruments with an open position, each once, in first-seen order. */
  function OpenInstruments(positions: seq<Position>): seq<string> {
    if positions == [] then []
    else
      var r := OpenInstruments(positions[..|positions| - 1]);
      var p := positions[|positions| - 1];
      if IsOpen(p) && p.instrument !in r then r + [p.instrument] else r
  }

  /** The open positions on one instrument, in book order. */
  function LegsOf(positions: seq<Position>, instrument: string): seq<Position> {
    if positions == [] then []
    else
      var r := LegsOf(positions[..|positions| - 1], instrument);
      var p := positions[|positions| - 1];
      if IsOpen(p) && p.instrument == instrument then r + [p] else r
  }

  /** One refusal for every shape that cannot say whether it is open. */
  function Unreadable(positions: seq<Position>): seq<Refusal> {
    if positions == [] then []
    else
      var r := Unreadable(positions[..|positions| - 1]);
      var p := positions[|positions| - 1];
      if p.open.None? then r + [Refusal(p.instrument, CannotSayOpen)] else r
  }

  function Blocked(positions: seq<Position>): set<string> {
    set p | p in positions && p.open.None? :: p.instrument
  }

  function Outcomes(positions: seq<Position>, broker: map<string, Qty>, resting: set<string>, complete: bool,
                    instrument: string): Outcome
  {
    PlanInstrument(instrument, LegsOf(positions, instrument), broker, resting, complete)
  }

  function Add(plan: ContraPlan, instrument: string, outcome: Outcome): ContraPlan {
    match outcome
    case Silent => plan
    case Refused(reason) => plan.(refused := plan.refused + [Refusal(instrument, reason)])
    case Paired(pairs) => plan.(pairs := plan.pairs + pairs)
    case Evicted(e) => plan.(evictions := plan.evictions + [e])
    case SurplusEvicted(s) => plan.(surplus := plan.surplus + [s])
  }

  /** The plan over a list of instruments: what each of them contributes, in order. */
  function PlanOver(positions: seq<Position>, broker: map<string, Qty>, resting: set<string>, complete: bool,
                    instruments: seq<string>): ContraPlan
  {
    if instruments == [] then ContraPlan([], Unreadable(positions), [], [])
    else
      var n := |instruments| - 1;
      var plan := PlanOver(positions, broker, resting, complete, instruments[..n]);
      if instruments[n] in Blocked(positions) then plan
      else Add(plan, instruments[n], Outcomes(positions, broker, resting, complete, instruments[n]))
  }

  function Plan(positions: seq<Position>, broker: map<string, Qty>, resting: set<string>, complete: bool)
    : ContraPlan
  {
    PlanOver(positions, broker, resting, complete, Sort(OpenInstruments(positions), StrLe))
  }

  function Universe(positions: seq<Position>, known: Option<set<string>>): set<string> {
    if known.Some? then known.value else set p | p in positions :: p.instrument
  }

  lemma {:induction false} NothingGrouped()
    ensures OpenInstruments([]) == [] && Unreadable([]) == [] && forall i :: LegsOf([], i) == []
  {
  }

  lemma {:induction false} GroupNext(positions: seq<Position>, n: nat)
    requires n < |positions|
    ensures var p := positions[n];
            var names := OpenInstruments(positions[..n]);
            && OpenInstruments(positions[..n + 1])
               == (if IsOpen(p) && p.instrument !in names then names + [p.instrument] else names)
            && Unreadable(positions[..n + 1])
               == (if p.open.None? then Unreadable(positions[..n]) + [Refusal(p.instrument, CannotSayOpen)]
                   else Unreadable(positions[..n]))
    ensures forall i :: LegsOf(positions[..n + 1], i)
                     == if IsOpen(positions[n]) && positions[n].instrument == i then LegsOf(positions[..n], i) + [positions[n]]
                        else LegsOf(positions[..n], i)
  {
    assert positions[..n + 1][..n] == positions[..n];
  }

  /** Group the open legs by instrument, and refuse the shapes that cannot say whether they are open. */
  method GroupLegs(positions: seq<Position>)
    returns (names: seq<string>, byInstrument: map<string, seq<Position>>, unreadable: seq<Refusal>)
    ensures names == OpenInstruments(positions)
    ensures byInstrument.Keys == set i | i in names
    ensures forall i :: i in byInstrument ==> byInstrument[i] == LegsOf(positions, i)
    ensures unreadable == Unreadable(positions)
  {
    hide LegsOf, OpenInstruments, Unreadable;
    names, byInstrument, unreadable := [], map[], [];
    NothingGrouped();
    for n := 0 to |positions|
      invariant names == OpenInstruments(positions[..n])
      invariant byInstrument.Keys == set i | i in names
      invariant forall i :: i in byInstrument ==> byInstrument[i] == LegsOf(positions[..n], i)
      invariant forall i :: i !in byInstrument ==> LegsOf(positions[..n], i) == []
      invariant unreadable == Unreadable(positions[..n])
    {
      GroupNext(positions, n);
      var p := positions[n];
      if p.open.None? {
        unreadable := unreadable + [Refusal(p.instrument, CannotSayOpen)];
      } else if p.open.value {
        if p.instrument !in byInstrument {
          names := names + [p.instrument];
          byInstrument := byInstrument[p.instrument := []];
        }
        byInstrument := byInstrument[p.instrument := byInstrument[p.instrument] + [p]];
      }
    }
    assert positions[..|positions|] == positions;
  }

  /** `plan_contra_closes`. A working order outside the book's vocabulary raises: `Err` with the items. */
  method PlanContraCloses(positions: seq<Position>, broker: map<string, Qty>, working: set<string>,
                          known: Option<set<string>>, wellFormed: set<string>, complete: bool)
    returns (r: Result<ContraPlan, set<string>>)
    ensures r.Err? <==> ValidatedWorking(working, Universe(positions, known), wellFormed).Err?
    ensures r.Ok? ==> r.value == Plan(positions, broker, SymbolsOf(working), complete)
  {
    hide PlanInstrument, LegsOf, Sort, OpenInstruments, Unreadable;
    var validated := ValidatedWorking(working, Universe(positions, known), wellFormed);
    if validated.Err? {
      return Err(validated.error);
    }
    var resting := SymbolsOf(validated.value);
    var names, byInstrument, unreadable := GroupLegs(positions);
    var blocked := Blocked(positions);
    var order := Sort(names, StrLe);
    SortMembers(names, StrLe);
    var plan := ContraPlan([], unreadable, [], []);
    for n := 0 to |order|
      invariant plan == PlanOver(positions, broker, resting, complete, order[..n])
    {
      assert order[..n + 1][..n] == order[..n];
      var instrument := order[n];
      assert instrument in names;
      if instrument !in blocked {
        var legs := byInstrument[instrument];
        var outcome := PlanInstrument(instrument, legs, broker, resting, complete);
        plan := Add(plan, instrument, outcome);
      }
    }
    assert order[..|order|] == order;
    return Ok(plan);
  }

  /** A position as the worked examples have it: open, at a basis of one, in a lane named like itself. */
  function WitnessLeg(id: string, qty: real): Position {
    Position("CGAU.XNYS", id, id, Known(qty), 1.0, Some(true), Some(1))
  }

  // ---- the operator's pairing ----------------------------------------------------------------

  predicate Describable(p: Position) {
    IsOpen(p) && p.stamp.Some?
  }

  /** `plan_operator_pair`: one pair a human named; the split is theirs, the total never. */
  function PlanOperatorPair(positions: seq<Position>, broker: map<string, Qty>, instrument: string,
                            longStrategy: string, shortStrategy: string, quantity: real,
                            resting: set<string>, complete: bool): Result<ContraPair, seq<Reason>>
  {
    var legs := Filter(LegsOf(positions, instrument), Describable);
    var venue := BrokerOrZero(broker, instrument);
    if SymbolPart(instrument) in resting then Err([Resting])
    else if legs == [] then Err([NoPosition])
    else if instrument !in broker && !complete then Err([BrokerSilent])
    else if venue.Unknown? then Err([BrokerNotANumber])
    else
      var long := FirstIn(Filter(legs, IsLong), longStrategy);
      var short := FirstIn(Filter(legs, IsShort), shortStrategy);
      if long.None? || short.None? then
        Err((if long.None? then [NotLong] else []) + (if short.None? then [NotShort] else []))
      else if quantity <= QTY_TOLERANCE then Err([QuantityNotPositive])
      else if quantity > Abs(long.value.Signed()) + QTY_TOLERANCE
           || quantity > Abs(short.value.Signed()) + QTY_TOLERANCE then Err([QuantityDoesNotFit])
      else Ok(PairOf(instrument, long.value, short.value, quantity, venue.v))
  }

  function FirstIn(legs: seq<Position>, strategy: string): (r: Option<Position>)
    ensures r.Some? ==> r.value in legs && r.value.strategy == strategy
    ensures r.None? ==> forall p :: p in legs ==> p.strategy != strategy
  {
    if legs == [] then None
    else if legs[0].strategy == strategy then Some(legs[0])
    else
      assert legs == [legs[0]] + legs[1..];
      FirstIn(legs[1..], strategy)
  }
}
