/**
 Where the executed plan lands: exactly as planned where every pair closes the whole of its smaller leg, on the venue's net in
 any case, and past flat in a leg of a flatten exactly when its pairs fall short of whole by more than the plan leaves of it.
 */
module ContraLands {
  import opened Prelude
  import opened Netting
  import opened ContraClose
  import opened ContraFlatten
  import opened ContraPlanProofs
  import opened ContraWholeBook
  import opened ContraExecute
  import opened ContraExecuteProofs
  import opened ContraExecuted
  import opened ContraSingleLeg

  // ---- nets ----------------------------------------------------------------------------------

  predicate JoinsTwo(pair: ContraPair, instrument: string) {
    pair.instrument == instrument && pair.longId != pair.shortId
  }

  lemma {:induction false} PairsNetNothing(pairs: seq<ContraPair>, instrument: string)
    requires forall x :: x in pairs ==> JoinsTwo(x, instrument)
    ensures SignedOn(PairLegs(pairs), instrument) == 0.0
  {
    if pairs != [] {
      assert pairs[0] in pairs && forall x :: x in pairs[1..] ==> x in pairs;
      PairsNetNothing(pairs[1..], instrument);
      PairTotals(pairs[0], "");
      SignedOnConcat(pairs[0].Legs(), PairLegs(pairs[1..]), instrument);
    }
  }

  lemma {:induction false} ExecutableJoins(r: Read, pairs: seq<ContraPair>, instrument: string)
    requires forall x :: x in pairs ==> JoinsTwo(x, instrument)
    ensures forall x :: x in Executable(r, pairs) ==> JoinsTwo(x, instrument)
  {
    hide MutePair;
    if pairs != [] {
      assert pairs[0] in pairs && forall x :: x in pairs[1..] ==> x in pairs;
      ExecutableJoins(r, pairs[1..], instrument);
    }
  }

  /** Whatever part of an instrument's pairs is booked, at whatever quantity, its net stays. */
  lemma {:induction false} PairedNetStays(r: Read, instrument: string)
    requires NettingBook(r.positions) && OutcomeAt(r, instrument).Paired?
    ensures SignedOn(OutcomeLegs(OutcomeAt(r, instrument)), instrument) == 0.0
    ensures SignedOn(OutcomeLegs(ExecutedAt(r, instrument)), instrument) == 0.0
  {
    hide OutcomeAt, NettingBook, SignedOn, PairLegs, LegsOf, Distinct, PlanInstrument;
    var pairs := OutcomeAt(r, instrument).pairs;
    LegsReady(r.positions, instrument);
    forall x | x in pairs
      ensures JoinsTwo(x, instrument)
    {
      var long, short := PlannedPair(r, instrument, x);
      if long.id == short.id {
        SameId(LegsOf(r.positions, instrument), long, short);
      }
    }
    PairsNetNothing(pairs, instrument);
    ExecutableJoins(r, pairs, instrument);
    PairsNetNothing(Executable(r, pairs), instrument);
  }

  // ---- executed as planned -------------------------------------------------------------------

  /** Nothing on the instrument is mute, and each of its pairs is planned at the whole of its smaller leg. */
  ghost predicate ExecutesWhole(r: Read, instrument: string) {
    && !MuteIn(r, instrument)
    && (OutcomeAt(r, instrument).Paired? ==>
          forall x :: x in OutcomeAt(r, instrument).pairs ==> x.instrument == instrument && x == Wholly(x))
  }

  lemma {:induction false} ExecutableSame(r: Read, instrument: string, pairs: seq<ContraPair>)
    requires !MuteIn(r, instrument) && forall x :: x in pairs ==> x.instrument == instrument && x == Wholly(x)
    ensures Executable(r, pairs) == pairs
  {
    if pairs != [] {
      assert pairs == [pairs[0]] + pairs[1..];
      assert pairs[0] in pairs && forall x :: x in pairs[1..] ==> x in pairs;
      NoMutePair(r, instrument, pairs[0]);
      ExecutableSame(r, instrument, pairs[1..]);
    }
  }

  lemma {:induction false} NoMutePair(r: Read, instrument: string, pair: ContraPair)
    requires !MuteIn(r, instrument) && pair.instrument == instrument
    ensures !MutePair(r, pair)
  {
    assert forall k :: k in Unchanged(r).mute ==> k.0 != instrument;
  }

  lemma {:induction false} ExecutedAsPlanned(r: Read, instrument: string)
    requires ExecutesWhole(r, instrument)
    ensures ExecutedAt(r, instrument) == OutcomeAt(r, instrument)
  {
    hide OutcomeAt, PlanInstrument;
    var o := OutcomeAt(r, instrument);
    if o.Paired? {
      ExecutableSame(r, instrument, o.pairs);
    } else if o.Evicted? || o.SurplusEvicted? {
      OutcomeInstrument(r, instrument);
      ActsIsDecision(r, instrument);
    }
  }

  lemma {:induction false} ActsIsDecision(r: Read, instrument: string)
    requires Acts(OutcomeAt(r, instrument))
    ensures OutcomeAt(r, instrument) == Decision(r, instrument) && instrument in OpenInstruments(r.positions)
  {
    hide PlanInstrument, OpenInstruments;
  }

  /** The executor leaves the instrument as it is: nothing was planned, or what was is all-or-nothing beside a mute shape. */
  predicate LeftAlone(r: Read, instrument: string) {
    || !Acts(OutcomeAt(r, instrument))
    || (MuteIn(r, instrument) && !OutcomeAt(r, instrument).Paired?)
  }

  lemma {:induction false} LeftAloneHasNoLegs(r: Read, instrument: string)
    requires LeftAlone(r, instrument)
    ensures OutcomeLegs(ExecutedAt(r, instrument)) == []
  {
    hide OutcomeAt, PlanInstrument;
    var o := OutcomeAt(r, instrument);
    if o.Evicted? || o.SurplusEvicted? {
      OutcomeInstrument(r, instrument);
      ActsIsDecision(r, instrument);
    }
  }

  /** What the executed plan makes of position `i`, before and after. */
  ghost predicate LandsAt(r: Read, book: seq<Holding>, after: seq<Holding>, i: nat)
    requires i < |book| == |after|
  {
    var instrument := book[i].instrument;
    && (LeftAlone(r, instrument) ==> after[i] == book[i])
    && (!LeftAlone(r, instrument) ==>
          && BrokerOrZero(r.broker, instrument).Known?
          && Abs(NetOn(after, instrument) - BrokerOrZero(r.broker, instrument).v) <= NetSlackOf(r, instrument))
    && (!LeftAlone(r, instrument) && OutcomeAt(r, instrument).Paired? ==>
          NetOn(after, instrument) == NetOn(book, instrument))
    && (!LeftAlone(r, instrument) && OutcomeAt(r, instrument).Evicted? ==> after[i].qty == 0.0)
    && (!LeftAlone(r, instrument) && ExecutesWhole(r, instrument) ==>
          after[i].qty >= -ShortSlackOf(r, instrument) && ClosedTowardsFlat(book[i], after[i]))
  }

  lemma {:induction false} NettingReady(r: Read)
    requires NettingBook(r.positions)
    ensures Ready(r)
  {
    NettingDistinct(r.positions);
    UniqueIsDistinct(OpenOf(r.positions));
  }

  lemma {:induction false} ExecutedNetLands(r: Read, p: Position)
    requires NettingBook(r.positions) && p in r.positions && IsOpen(p) && !LeftAlone(r, p.instrument)
    ensures BrokerOrZero(r.broker, p.instrument).Known?
    ensures Abs(SumBy(LegsOf(r.positions, p.instrument), SignedOf)
                + SignedOn(OutcomeLegs(ExecutedAt(r, p.instrument)), p.instrument)
                - BrokerOrZero(r.broker, p.instrument).v) <= NetSlackOf(r, p.instrument)
  {
    hide OutcomeAt, OutcomeLegs, SignedOn, SumBy, NetSlackOf, ShortSlackOf, BrokerOrZero, LegsOf, ExecutedAt, NettingBook, Ready;
    NettingReady(r);
    ActedTarget(r, p.instrument);
    if OutcomeAt(r, p.instrument).Paired? {
      PairedNetStays(r, p.instrument);
    } else {
      ExecutedAsPlanned(r, p.instrument);
    }
  }

  lemma {:induction false} EvictedToZero(r: Read, p: Position)
    requires NettingBook(r.positions) && p in r.positions && IsOpen(p)
    requires OutcomeAt(r, p.instrument).Evicted? && !MuteIn(r, p.instrument)
    ensures p.Signed() + SignedAt(OutcomeLegs(ExecutedAt(r, p.instrument)), p.id) == 0.0
  {
    hide PlanInstrument, NettingBook, SignedAt, Sort, Repairs, MuteIn, EvictAll;
    var legs := LegsOf(r.positions, p.instrument);
    ExecutedAsPlanned(r, p.instrument);
    ActsIsDecision(r, p.instrument);
    LegsReady(r.positions, p.instrument);
    ActingFacts(p.instrument, legs, r.broker, r.resting, r.complete);
    EvictionRepairs(p.instrument, legs, BrokerOrZero(r.broker, p.instrument).v);
  }

  /** Where the executor books what was planned, it keeps what the planner promised of each position. */
  lemma {:induction false} WholeKeepsPromise(r: Read, p: Position)
    requires NettingBook(r.positions) && p in r.positions && IsOpen(p)
    requires Acts(OutcomeAt(r, p.instrument)) && ExecutesWhole(r, p.instrument)
    ensures var q := p.Signed() + SignedAt(OutcomeLegs(ExecutedAt(r, p.instrument)), p.id);
            q >= -ShortSlackOf(r, p.instrument) && ClosedTowardsFlat(HoldingOf(p), HoldingOf(p).(qty := q))
  {
    hide OutcomeAt, PlanInstrument, NettingBook, SignedAt, Within, ShortSlackOf, NetSlackOf, ExecutesWhole, ExecutedAt;
    NettingReady(r);
    ExecutedAsPlanned(r, p.instrument);
    ActedRepairs(r, p.instrument);
    LegsOfMembers(r.positions, p.instrument);
    assert p in LegsOf(r.positions, p.instrument);
    WithinSigned(OutcomeLegs(OutcomeAt(r, p.instrument)), HoldingOf(p));
  }

  lemma {:induction false} NetOfInstrument(r: Read, instrument: string)
    requires NettingBook(r.positions)
    ensures NetOn(Book(OpenOf(r.positions)), instrument) == SumBy(LegsOf(r.positions, instrument), SignedOf)
  {
    hide SumBy, LegsOf, NetOn;
    NettingDistinct(r.positions);
    LegsOfBook(r.positions, instrument);
  }

  /**
   The whole execution plan booked at once. An instrument the executor leaves alone is exactly as it was. Every other nets to
   what the venue stated; its pairs do not move its net at all; an eviction leaves it flat; and where its pairs are whole no
   position of it flips and no short is left.
   */
  lemma {:induction false} ExecutedPlanLands(r: Read)
    requires NettingBook(r.positions)
    ensures |AfterOrders(r)| == |Book(OpenOf(r.positions))|
    ensures forall i: nat :: i < |AfterOrders(r)| ==> LandsAt(r, Book(OpenOf(r.positions)), AfterOrders(r), i)
  {
    var open := OpenOf(r.positions);
    var book, after := Book(open), AfterOrders(r);
    ExecutedPlanMoves(r);
    forall i: nat | i < |after|
      ensures LandsAt(r, book, after, i)
    {
      assert open[i] in open && book[i] == HoldingOf(open[i]);
      OneLands(r, open[i], book, after, i);
    }
  }

  lemma {:induction false} OneLands(r: Read, p: Position, book: seq<Holding>, after: seq<Holding>, i: nat)
    requires NettingBook(r.positions) && p in r.positions && IsOpen(p) && i < |book| == |after| && book[i] == HoldingOf(p)
    requires book == Book(OpenOf(r.positions)) && after[i] == book[i].(qty := book[i].qty + MovedBy(r, book[i]))
    requires NetOn(after, p.instrument)
          == NetOn(book, p.instrument) + SignedOn(OutcomeLegs(ExecutedAt(r, p.instrument)), p.instrument)
    ensures LandsAt(r, book, after, i)
  {
    hide OutcomeAt, OutcomeLegs, SignedOn, SumBy, NetSlackOf, ShortSlackOf, BrokerOrZero, LegsOf, ExecutedAt, NettingBook, ExecutesWhole, NetOn,
         MuteIn, Book, OpenOf;
    if LeftAlone(r, p.instrument) {
      LeftAloneHasNoLegs(r, p.instrument);
    } else {
      ExecutedNetLands(r, p);
      NetOfInstrument(r, p.instrument);
      if OutcomeAt(r, p.instrument).Paired? {
        PairedNetStays(r, p.instrument);
      }
      if OutcomeAt(r, p.instrument).Evicted? {
        EvictedToZero(r, p);
      }
      if ExecutesWhole(r, p.instrument) {
        WholeKeepsPromise(r, p);
      }
    }
  }

  // ---- a flatten, executed -------------------------------------------------------------------

  /** The takes whose two lanes the executor can read. */
  function Heard(r: Read, instrument: string, takes: seq<Take>): seq<Take> {
    if takes == [] then []
    else
      (if MuteTake(r, instrument, takes[0]) then [] else [takes[0]]) + Heard(r, instrument, takes[1..])
  }

  /** The executor's pairs of a flatten are its takes, those it can read, each at the whole of its smaller leg. */
  lemma {:induction false} FlattenExecutes(r: Read, instrument: string, takes: seq<Take>, venue: real)
    ensures Executable(r, PairsOf(instrument, takes, venue)) == PairsOf(instrument, Executed(Heard(r, instrument, takes)), venue)
  {
    var pairs := PairsOf(instrument, takes, venue);
    hide Heard, Executed, MuteTake, MutePair;
    if takes == [] {
      NothingExecutes(r, instrument);
      assert pairs == [];
    } else {
      var t, rest := takes[0], Executed(Heard(r, instrument, takes[1..]));
      assert pairs[1..] == PairsOf(instrument, takes[1..], venue);
      FlattenExecutes(r, instrument, takes[1..], venue);
      HeardFirst(r, instrument, takes);
      TakeIsPair(r, instrument, t, venue);
      if MuteTake(r, instrument, t) {
        assert [] + Executable(r, pairs[1..]) == Executable(r, pairs[1..]);
      } else {
        PairsOfFirst(instrument, t.(quantity := Whole(t)), rest, venue);
      }
    }
  }

  lemma {:induction false} NothingExecutes(r: Read, instrument: string)
    ensures Executable(r, []) == [] && Executed(Heard(r, instrument, [])) == []
  {
  }

  lemma {:induction false} TakeIsPair(r: Read, instrument: string, t: Take, venue: real)
    ensures var pair := PairOf(instrument, t.long, t.short, t.quantity, venue);
            && (MutePair(r, pair) <==> MuteTake(r, instrument, t))
            && Wholly(pair) == PairOf(instrument, t.long, t.short, Whole(t), venue)
  {
    hide MuteKeys;
  }

  lemma {:induction false} PairsOfFirst(instrument: string, t: Take, rest: seq<Take>, venue: real)
    ensures PairsOf(instrument, [t] + rest, venue)
         == [PairOf(instrument, t.long, t.short, t.quantity, venue)] + PairsOf(instrument, rest, venue)
  {
  }

  predicate MuteTake(r: Read, instrument: string, t: Take) {
    || (instrument, t.long.strategy) in MuteKeys(r.positions)
    || (instrument, t.short.strategy) in MuteKeys(r.positions)
  }

  lemma {:induction false} HeardFirst(r: Read, instrument: string, takes: seq<Take>)
    requires takes != []
    ensures var t, rest := takes[0], Heard(r, instrument, takes[1..]);
            Executed(Heard(r, instrument, takes))
            == if MuteTake(r, instrument, t) then Executed(rest) else [t.(quantity := Whole(t))] + Executed(rest)
  {
    hide MuteTake;
    var t, rest := takes[0], Heard(r, instrument, takes[1..]);
    assert [] + rest == rest && ([t] + rest)[1..] == rest;
  }

  lemma {:induction false} AllHeard(r: Read, instrument: string, takes: seq<Take>)
    requires !MuteIn(r, instrument)
    ensures Heard(r, instrument, takes) == takes
  {
    assert forall k :: k in Unchanged(r).mute ==> k.0 != instrument;
    if takes != [] {
      assert takes == [takes[0]] + takes[1..];
      AllHeard(r, instrument, takes[1..]);
    }
  }

  /** A flatten of three legs or more, with nothing mute beside it. */
  predicate FlattenAt(r: Read, instrument: string) {
    && OutcomeAt(r, instrument).Paired? && |LegsOf(r.positions, instrument)| > 2 && !MuteIn(r, instrument)
  }

  function TakesAt(r: Read, instrument: string): seq<Take> {
    FlattenTakes(LegsOf(r.positions, instrument))
  }

  /** The planner's flatten is its takes, the executor's the same takes at the whole of their smaller legs. */
  lemma {:induction false} FlattenAsExecuted(r: Read, instrument: string)
    requires FlattenAt(r, instrument)
    ensures BrokerOrZero(r.broker, instrument).Known? && Abs(SumBy(LegsOf(r.positions, instrument), SignedOf)) <= QTY_TOLERANCE
    ensures OutcomeAt(r, instrument) == Paired(PairsOf(instrument, TakesAt(r, instrument), BrokerOrZero(r.broker, instrument).v))
    ensures ExecutedAt(r, instrument)
         == Paired(PairsOf(instrument, Executed(TakesAt(r, instrument)), BrokerOrZero(r.broker, instrument).v))
  {
    hide PlanInstrument, FlattenTakes, Executed, LegsOf;
    ActsIsDecision(r, instrument);
    ActingFacts(instrument, LegsOf(r.positions, instrument), r.broker, r.resting, r.complete);
    FlattenExecutes(r, instrument, TakesAt(r, instrument), BrokerOrZero(r.broker, instrument).v);
    AllHeard(r, instrument, TakesAt(r, instrument));
  }

  /** By how much the pairs of one leg fall short of whole, together. */
  function Excess(takes: seq<Take>, id: string): real {
    if takes == [] then 0.0
    else (if takes[0].long.id == id || takes[0].short.id == id then Whole(takes[0]) - takes[0].quantity else 0.0)
         + Excess(takes[1..], id)
  }

  function Taken(takes: seq<Take>, id: string): real {
    LongTaken(takes, id) + ShortTaken(takes, id)
  }

  lemma {:induction false} ExecutedExceeds(takes: seq<Take>, id: string)
    requires forall t :: t in takes ==> t.long.id != t.short.id && t.quantity <= Whole(t)
    ensures Taken(Executed(takes), id) == Taken(takes, id) + Excess(takes, id)
    ensures Excess(takes, id) >= 0.0
    ensures forall t :: t in takes && (t.long.id == id || t.short.id == id) ==> Whole(t) - t.quantity <= Excess(takes, id)
    ensures (forall t :: t in takes && (t.long.id == id || t.short.id == id) ==> t.quantity == Whole(t)) ==>
              Excess(takes, id) == 0.0
  {
    if takes != [] {
      assert takes == [takes[0]] + takes[1..];
      assert takes[0] in takes && forall t :: t in takes[1..] ==> t in takes;
      ExecutedExceeds(takes[1..], id);
      assert Executed(takes)[1..] == Executed(takes[1..]);
    }
  }

  /** What the planned flatten leaves of a leg. */
  function Left(takes: seq<Take>, p: Position): real {
    Abs(p.Signed()) - Taken(takes, p.id)
  }

  /** The facts about a flatten's takes that the executor's over-closing turns on. */
  ghost predicate FlattenFacts(legs: seq<Position>, takes: seq<Take>, slack: real) {
    && (forall t :: t in takes ==> t.long in legs && t.short in legs && IsLong(t.long) && IsShort(t.short)
                                   && t.long.id != t.short.id && t.quantity <= Whole(t))
    && (forall p :: p in legs ==> 0.0 <= Left(takes, p) <= slack)
    && (forall p :: p in legs && !IsShort(p) ==> ShortTaken(takes, p.id) == 0.0 && ShortTaken(Executed(takes), p.id) == 0.0)
    && (forall p :: p in legs && !IsLong(p) ==> LongTaken(takes, p.id) == 0.0 && LongTaken(Executed(takes), p.id) == 0.0)
  }

  lemma {:induction false} ExecutedElsewhereNothing(takes: seq<Take>, id: string)
    ensures (forall t :: t in takes ==> t.long.id != id) ==> LongTaken(Executed(takes), id) == 0.0
    ensures (forall t :: t in takes ==> t.short.id != id) ==> ShortTaken(Executed(takes), id) == 0.0
  {
    if takes != [] {
      assert takes == [takes[0]] + takes[1..];
      ExecutedElsewhereNothing(takes[1..], id);
      assert Executed(takes)[1..] == Executed(takes[1..]);
    }
  }

  lemma {:induction false} TakeFacts(instrument: string, legs: seq<Position>, t: Take)
    requires Distinct(legs) && (forall p :: p in legs ==> p.instrument == instrument) && t in FlattenTakes(legs)
    ensures t.long in legs && t.short in legs && IsLong(t.long) && IsShort(t.short)
    ensures t.long.id != t.short.id && t.quantity <= Whole(t)
  {
    hide FlattenTakes, SideSlots, Distinct;
    FlattenTakesOfBook(instrument, legs);
    var takes, longs, shorts := FlattenTakes(legs), SideSlots(legs, true), SideSlots(legs, false);
    TakesJoinTwoLegs(instrument, legs, longs, shorts, takes);
    var a :| a in longs && a.pos == t.long;
    var b :| b in shorts && b.pos == t.short;
    TakeAtMostTotal(takes, t);
    FlattenFits(legs);
  }

  lemma {:induction false} FlattenFits(legs: seq<Position>)
    requires Distinct(legs)
    ensures forall s :: s in SideSlots(legs, true) ==> 0.0 <= LongTaken(FlattenTakes(legs), s.pos.id) <= s.rem
    ensures forall s :: s in SideSlots(legs, false) ==> 0.0 <= ShortTaken(FlattenTakes(legs), s.pos.id) <= s.rem
  {
    hide SideSlots, Match;
    SortedSide(legs, true);
    SortedSide(legs, false);
    SidesOf(legs);
    TakesFit(SideSlots(legs, true), SideSlots(legs, false), QTY_TOLERANCE);
  }

  lemma {:induction false} FlattenHasFacts(instrument: string, legs: seq<Position>)
    requires Distinct(legs) && (forall p :: p in legs ==> p.instrument == instrument) && |legs| > 2
    requires Abs(SumBy(legs, SignedOf)) <= QTY_TOLERANCE
    ensures FlattenFacts(legs, FlattenTakes(legs), Slack(|legs| + 1, QTY_TOLERANCE))
  {
    hide FlattenTakes, SideSlots, Distinct, Slack, SumBy, Executed;
    var takes, longs, shorts := FlattenTakes(legs), SideSlots(legs, true), SideSlots(legs, false);
    forall t | t in takes
      ensures t.long in legs && t.short in legs && IsLong(t.long) && IsShort(t.short)
      ensures t.long.id != t.short.id && t.quantity <= Whole(t)
    {
      TakeFacts(instrument, legs, t);
    }
    FlattenTakesOfBook(instrument, legs);
    FlattenTakesExhaust(instrument, legs);
    forall p | p in legs
      ensures 0.0 <= Left(takes, p) <= Slack(|legs| + 1, QTY_TOLERANCE)
      ensures !IsShort(p) ==> ShortTaken(takes, p.id) == 0.0 && ShortTaken(Executed(takes), p.id) == 0.0
      ensures !IsLong(p) ==> LongTaken(takes, p.id) == 0.0 && LongTaken(Executed(takes), p.id) == 0.0
    {
      OtherSide(legs, takes, p);
      NothingTakenElsewhere(takes, p.id);
      ExecutedElsewhereNothing(takes, p.id);
      assert IsLong(p) ==> Slot(p, Abs(p.Signed())) in longs;
      assert IsShort(p) ==> Slot(p, Abs(p.Signed())) in shorts;
    }
  }

  lemma {:induction false} OtherSide(legs: seq<Position>, takes: seq<Take>, p: Position)
    requires Distinct(legs) && p in legs
    requires forall t :: t in takes ==> t.long in legs && t.short in legs && IsLong(t.long) && IsShort(t.short)
    ensures !IsShort(p) ==> forall t :: t in takes ==> t.short.id != p.id
    ensures !IsLong(p) ==> forall t :: t in takes ==> t.long.id != p.id
  {
    hide Distinct;
    forall t | t in takes
      ensures !IsShort(p) ==> t.short.id != p.id
      ensures !IsLong(p) ==> t.long.id != p.id
    {
      if t.short.id == p.id {
        SameId(legs, t.short, p);
      }
      if t.long.id == p.id {
        SameId(legs, t.long, p);
      }
    }
  }

  /** The pair closes part of this leg. */
  predicate Takes(t: Take, p: Position) {
    t.long.id == p.id || t.short.id == p.id
  }

  /** Past flat: on the other side of zero from where it was. */
  predicate Past(p: Position, q: real) {
    (IsLong(p) && q < 0.0) || (IsShort(p) && q > 0.0)
  }

  /**
   Where the executor's orders for a flatten leave each leg. The plan leaves `Left` of it, between nothing and the slack; the
   executor takes `Excess` more, the amount by which its pairs fall short of whole. So it ends past flat exactly when the
   excess is more than what the plan leaves, past by the difference.
   */
  lemma {:induction false} FlattenFlipsIff(r: Read, instrument: string, p: Position)
    requires NettingBook(r.positions) && FlattenAt(r, instrument) && p in LegsOf(r.positions, instrument)
    ensures var takes := TakesAt(r, instrument);
            var q := p.Signed() + SignedAt(OutcomeLegs(ExecutedAt(r, instrument)), p.id);
            && (Past(p, q) <==> Excess(takes, p.id) > Left(takes, p))
            && (Past(p, q) ==> Abs(q) == Excess(takes, p.id) - Left(takes, p))
            && (p.Signed() == 0.0 ==> q == 0.0)
            && 0.0 <= Left(takes, p) <= SlackOf(r, instrument)
            && 0.0 <= Excess(takes, p.id)
            && (forall t :: t in takes && Takes(t, p) && Whole(t) - t.quantity > SlackOf(r, instrument) ==> Past(p, q))
            && ((forall t :: t in takes && Takes(t, p) ==> t.quantity == Whole(t)) ==> !Past(p, q))
  {
    hide LegsOf, NettingBook, Distinct, FlattenTakes, OutcomeAt, PairsOf, PairLegs, SignedAt, LongTaken, ShortTaken, Executed,
         SumBy, Slack, ExecutedAt, FlattenAt, Excess;
    var legs, takes := LegsOf(r.positions, instrument), TakesAt(r, instrument);
    LegsReady(r.positions, instrument);
    assert |legs| > 2 by { FlattenIsLarge(r, instrument); }
    FlattenAsExecuted(r, instrument);
    FlattenHasFacts(instrument, legs);
    ExecutedExceeds(takes, p.id);
    ExecutedJoinsTwo(takes);
    TakesTotals(instrument, Executed(takes), BrokerOrZero(r.broker, instrument).v, p.id);
  }

  lemma {:induction false} FlattenIsLarge(r: Read, instrument: string)
    requires FlattenAt(r, instrument)
    ensures |LegsOf(r.positions, instrument)| > 2
  {
  }

  lemma {:induction false} ExecutedJoinsTwo(takes: seq<Take>)
    requires forall t :: t in takes ==> t.long.id != t.short.id
    ensures forall t :: t in Executed(takes) ==> t.long.id != t.short.id
  {
    if takes != [] {
      assert takes == [takes[0]] + takes[1..];
      ExecutedJoinsTwo(takes[1..]);
    }
  }

  /** A flatten with one leg on a side: only that leg can end past flat, and by no more than the tolerance. */
  lemma {:induction false} SingleLegLands(r: Read, instrument: string, long: bool, p: Position)
    requires NettingBook(r.positions) && FlattenAt(r, instrument) && p in LegsOf(r.positions, instrument)
    requires |SideLegs(LegsOf(r.positions, instrument), long)| == 1
    ensures var q := p.Signed() + SignedAt(OutcomeLegs(ExecutedAt(r, instrument)), p.id);
            Past(p, q) ==> (if long then IsLong(p) else IsShort(p)) && Abs(q) <= QTY_TOLERANCE
  {
    hide LegsOf, NettingBook, Distinct, FlattenTakes, OutcomeAt, PairsOf, PairLegs, SignedAt, LongTaken, ShortTaken, Executed,
         SumBy, ExecutedAt, FlattenAt, SideLegs, SideSlots, RunsOut, SingleLegBooked;
    var legs, takes := LegsOf(r.positions, instrument), TakesAt(r, instrument);
    LegsReady(r.positions, instrument);
    assert |legs| > 2 by { FlattenIsLarge(r, instrument); }
    FlattenAsExecuted(r, instrument);
    FlattenHasFacts(instrument, legs);
    ExecutedJoinsTwo(takes);
    TakesTotals(instrument, Executed(takes), BrokerOrZero(r.broker, instrument).v, p.id);
    if long {
      SingleLongFlatten(legs);
    } else {
      SingleShortFlatten(legs);
    }
    SingleTaken(legs, long, p);
  }

  /** What a single-leg flatten takes of one leg of the book. */
  lemma {:induction false} SingleTaken(legs: seq<Position>, long: bool, p: Position)
    requires Distinct(legs) && p in legs && |SideLegs(legs, long)| == 1 && SingleLegBooked(legs, long)
    ensures IsLong(p) ==> LongTaken(Executed(FlattenTakes(legs)), p.id) <= p.Signed() + (if long then QTY_TOLERANCE else 0.0)
    ensures IsShort(p) ==> ShortTaken(Executed(FlattenTakes(legs)), p.id) <= -p.Signed() + (if long then 0.0 else QTY_TOLERANCE)
  {
    hide SideSlots, SideLegs, Distinct, FlattenTakes, Executed, RunsOut;
    SortedSide(legs, true);
    SortedSide(legs, false);
    assert IsLong(p) ==> Slot(p, Abs(p.Signed())) in SideSlots(legs, true);
    assert IsShort(p) ==> Slot(p, Abs(p.Signed())) in SideSlots(legs, false);
  }

  // ---- whole shares --------------------------------------------------------------------------

  predicate IsWhole(x: real) {
    x == x.Floor as real
  }

  predicate WholeShares(legs: seq<Position>) {
    forall p :: p in legs ==> IsWhole(p.Signed())
  }

  predicate WholeRems(slots: seq<Slot>) {
    forall s :: s in slots ==> s.rem >= 0.0 && IsWhole(s.rem)
  }

  lemma {:induction false} AdvanceWhole(slots: seq<Slot>, take: real, tol: real)
    requires slots != [] && WholeRems(slots) && 0.0 <= take <= slots[0].rem && IsWhole(take) && 0.0 <= tol < 1.0
    ensures Advance(slots, take, tol) == Advance(slots, take, 0.0) && WholeRems(Advance(slots, take, 0.0))
  {
    assert slots[0] in slots && forall s :: s in slots[1..] ==> s in slots;
    var left := slots[0].rem - take;
    assert left == (slots[0].rem.Floor - take.Floor) as real;
  }

  /** Of whole shares, a tolerance below one share changes nothing in the matching. */
  lemma {:induction false} MatchOfWhole(longs: seq<Slot>, shorts: seq<Slot>, tol: real)
    requires WholeRems(longs) && WholeRems(shorts) && 0.0 <= tol < 1.0
    ensures Match(longs, shorts, tol) == Match(longs, shorts, 0.0)
    decreases |longs| + |shorts|
  {
    hide IsWhole;
    if longs != [] && shorts != [] {
      assert longs[0] in longs && shorts[0] in shorts;
      var take := Min(longs[0].rem, shorts[0].rem);
      WholeAboveTolerance(take, tol);
      AdvanceWhole(longs, take, tol);
      AdvanceWhole(shorts, take, tol);
      hide WholeRems, Advance;
      MatchOfWhole(Advance(longs, take, 0.0), Advance(shorts, take, 0.0), tol);
    }
  }

  lemma {:induction false} WholeAboveTolerance(x: real, tol: real)
    requires IsWhole(x) && 0.0 <= tol < 1.0
    ensures x > tol <==> x > 0.0
  {
  }

  lemma {:induction false} SumOfWhole(legs: seq<Position>)
    requires WholeShares(legs)
    ensures IsWhole(SumBy(legs, SignedOf))
  {
    hide IsWhole;
    if legs == [] {
      ZeroIsWhole();
    } else {
      assert legs[0] in legs && forall p :: p in legs[1..] ==> p in legs;
      SumOfWhole(legs[1..]);
      WholeAdds(legs[0].Signed(), SumBy(legs[1..], SignedOf));
    }
  }

  lemma {:induction false} ZeroIsWhole()
    ensures IsWhole(0.0)
  {
  }

  lemma {:induction false} WholeAdds(a: real, b: real)
    requires IsWhole(a) && IsWhole(b)
    ensures IsWhole(a + b)
  {
    assert a + b == (a.Floor + b.Floor) as real;
  }

  lemma {:induction false} AbsOfWhole(x: real)
    requires IsWhole(x)
    ensures IsWhole(Abs(x))
  {
    if x < 0.0 {
      assert -x == (-(x.Floor)) as real;
    }
  }

  lemma {:induction false} SideOfWhole(legs: seq<Position>, long: bool)
    requires Distinct(legs) && WholeShares(legs)
    ensures WholeRems(SideSlots(legs, long))
  {
    hide SideSlots, Distinct, IsWhole;
    SortedSide(legs, long);
    forall s | s in SideSlots(legs, long)
      ensures s.rem >= 0.0 && IsWhole(s.rem)
    {
      AbsOfWhole(s.pos.Signed());
    }
  }

  /** A flatten of whole shares leaves nothing of any leg. */
  lemma {:induction false} WholeLeavesNothing(legs: seq<Position>)
    requires Distinct(legs) && WholeShares(legs) && Abs(SumBy(legs, SignedOf)) <= QTY_TOLERANCE
    ensures forall p :: p in legs && IsLong(p) ==> LongTaken(FlattenTakes(legs), p.id) == Abs(p.Signed())
    ensures forall p :: p in legs && IsShort(p) ==> ShortTaken(FlattenTakes(legs), p.id) == Abs(p.Signed())
  {
    hide SideSlots, Distinct, Match, SumBy;
    var longs, shorts := SideSlots(legs, true), SideSlots(legs, false);
    SumOfWhole(legs);
    SidesDiffer(legs);
    SortedSide(legs, true);
    SortedSide(legs, false);
    SideOfWhole(legs, true);
    SideOfWhole(legs, false);
    SidesOf(legs);
    MatchOfWhole(longs, shorts, QTY_TOLERANCE);
    ExactlyExhausted(longs, shorts);
    forall p | p in legs
      ensures IsLong(p) ==> LongTaken(FlattenTakes(legs), p.id) == Abs(p.Signed())
      ensures IsShort(p) ==> ShortTaken(FlattenTakes(legs), p.id) == Abs(p.Signed())
    {
      assert IsLong(p) ==> Slot(p, Abs(p.Signed())) in longs;
      assert IsShort(p) ==> Slot(p, Abs(p.Signed())) in shorts;
    }
  }

  /** And what its pairs erase is exactly the book value of all its legs, the number an eviction of the book would record. */
  lemma {:induction false} WholeShareMoney(instrument: string, legs: seq<Position>)
    requires Distinct(legs) && (forall p :: p in legs ==> p.instrument == instrument) && WholeShares(legs)
    requires Abs(SumBy(legs, SignedOf)) <= QTY_TOLERANCE
    ensures Erased(FlattenTakes(legs)) == BookValue(CloseAll(instrument, SideSlots(legs, true), SideSlots(legs, false)))
  {
    hide SideSlots, FlattenTakes, SumBy, CloseAll, Erased, WholeShares;
    WholeLeavesNothing(legs);
    SortedSide(legs, true);
    SortedSide(legs, false);
    FlattenTakesOfBook(instrument, legs);
    ErasedIsBookValue(instrument, FlattenTakes(legs), SideSlots(legs, true), SideSlots(legs, false));
  }

  /** Of whole shares a leg of a flatten ends past flat exactly when one of its own pairs is not whole. */
  lemma {:induction false} WholeShareFlipsIff(r: Read, instrument: string, p: Position)
    requires NettingBook(r.positions) && FlattenAt(r, instrument) && p in LegsOf(r.positions, instrument)
    requires WholeShares(LegsOf(r.positions, instrument))
    ensures Past(p, p.Signed() + SignedAt(OutcomeLegs(ExecutedAt(r, instrument)), p.id))
       <==> exists t :: t in TakesAt(r, instrument) && Takes(t, p) && t.quantity != Whole(t)
  {
    hide LegsOf, NettingBook, Distinct, FlattenTakes, OutcomeAt, SignedAt, LongTaken, ShortTaken, Executed, SumBy, ExecutedAt,
         FlattenAt, WholeShares, SlackOf, Excess, Whole;
    var legs, takes := LegsOf(r.positions, instrument), TakesAt(r, instrument);
    LegsReady(r.positions, instrument);
    FlattenAsExecuted(r, instrument);
    assert |legs| > 2 by { FlattenIsLarge(r, instrument); }
    FlattenFlipsIff(r, instrument, p);
    FlattenHasFacts(instrument, legs);
    WholeLeavesNothing(legs);
    ExecutedExceeds(takes, p.id);
    if t :| t in takes && Takes(t, p) && t.quantity != Whole(t) {
      assert Excess(takes, p.id) > 0.0;
      NothingLeft(takes, legs, p);
    }
  }

  lemma {:induction false} NothingLeft(takes: seq<Take>, legs: seq<Position>, p: Position)
    requires p in legs && FlattenFacts(legs, takes, Slack(|legs| + 1, QTY_TOLERANCE))
    requires IsLong(p) ==> LongTaken(takes, p.id) == Abs(p.Signed())
    requires IsShort(p) ==> ShortTaken(takes, p.id) == Abs(p.Signed())
    ensures Left(takes, p) == 0.0
  {
  }
}
