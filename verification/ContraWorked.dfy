/**
 Worked books, planned, prepared, verified and booked in one armed tick: the inputs at which the executor and the booker part
 from the plan.
 */
module ContraWorked {
  import opened Prelude
  import opened Netting
  import opened ContraClose
  import opened ContraFlatten
  import opened ContraPlanProofs
  import opened ContraWholeBook
  import opened ContraExecute
  import opened ContraExecuteProofs
  import opened ContraFresh
  import opened ContraExecuted
  import opened ContraLands
  import opened ContraLedger
  import opened ContraRuns
  import opened ContraPipeline

  const NAME := "CGAU.XNYS"

  /** A complete read that mentions nothing: every instrument is flat at the venue, and nothing rests. */
  function Quiet(positions: seq<Position>): Read {
    Read(positions, map[], {}, true)
  }

  /** Every position is open, describable and readable, on the one instrument, in a lane and under an id of its own. */
  ghost predicate Plain(positions: seq<Position>) {
    && positions != []
    && (forall p :: p in positions ==> p.instrument == NAME && IsOpen(p) && p.stamp.Some? && p.qty.Known? && p.id != "")
    && (forall i, j :: 0 <= i < j < |positions| ==>
          positions[i].id != positions[j].id && positions[i].strategy != positions[j].strategy)
  }

  lemma {:induction false} AllOpen(positions: seq<Position>)
    requires forall p :: p in positions ==> p.instrument == NAME && IsOpen(p)
    ensures LegsOf(positions, NAME) == positions
    ensures OpenInstruments(positions) == if positions == [] then [] else [NAME]
  {
    if positions != [] {
      var n := |positions| - 1;
      assert positions == positions[..n] + [positions[n]];
      AllOpen(positions[..n]);
    }
  }

  lemma {:induction false} OpenIsAll(positions: seq<Position>)
    requires forall p :: p in positions ==> IsOpen(p)
    ensures OpenOf(positions) == positions
  {
    if positions != [] {
      assert positions == [positions[0]] + positions[1..];
      OpenIsAll(positions[1..]);
    }
  }

  lemma {:induction false} PlainFacts(positions: seq<Position>)
    requires Plain(positions)
    ensures NettingBook(positions) && IdsUnique(positions) && MuteKeys(positions) == {} && Blocked(positions) == {}
    ensures LegsOf(positions, NAME) == positions && OpenOf(positions) == positions
    ensures OutcomeAt(Quiet(positions), NAME) == PlanInstrument(NAME, positions, map[], {}, true)
    ensures !MuteIn(Quiet(positions), NAME)
  {
    hide PlanInstrument;
    AllOpen(positions);
    OpenIsAll(positions);
    forall i, j | 0 <= i < j < |positions|
      ensures KeyOf(positions[i]) != KeyOf(positions[j])
    {
    }
  }

  /** Three legs or more, with a short, that net to zero within the tolerance at a venue that is flat: a flatten. */
  lemma {:induction false} FlattenIsPlanned(positions: seq<Position>)
    requires Plain(positions) && |positions| > 2 && Abs(SumBy(positions, SignedOf)) <= QTY_TOLERANCE
    requires exists p :: p in positions && IsShort(p)
    ensures OutcomeAt(Quiet(positions), NAME) == Paired(PairsOf(NAME, FlattenTakes(positions), 0.0))
    ensures FlattenAt(Quiet(positions), NAME)
  {
    hide *;
    PlainFacts(positions);
    PlainIsReadable(positions);
    FlattenDecided(positions);
    IsFlattenAt(positions);
  }

  lemma {:induction false} PlainIsReadable(positions: seq<Position>)
    requires Plain(positions)
    ensures forall p :: p in positions ==> p.qty.Known? && p.stamp.Some?
  {
  }

  lemma {:induction false} IsFlattenAt(positions: seq<Position>)
    requires OutcomeAt(Quiet(positions), NAME).Paired? && LegsOf(positions, NAME) == positions && |positions| > 2
    requires !MuteIn(Quiet(positions), NAME)
    ensures FlattenAt(Quiet(positions), NAME)
  {
    hide OutcomeAt, LegsOf, MuteIn;
  }

  lemma {:induction false} FlattenDecided(legs: seq<Position>)
    requires forall p :: p in legs ==> p.qty.Known? && p.stamp.Some?
    requires |legs| > 2 && Abs(SumBy(legs, SignedOf)) <= QTY_TOLERANCE && exists p :: p in legs && IsShort(p)
    ensures PlanInstrument(NAME, legs, map[], {}, true) == Paired(PairsOf(NAME, FlattenTakes(legs), 0.0))
  {
    hide FlattenTakes, SumBy, PairsOf, SymbolPart, IsShort;
    var p :| p in legs && IsShort(p);
    assert p in Filter(legs, IsShort);
  }

  /** What an armed tick of the node does to a plain book that is to be flattened. */
  lemma {:induction false} FlattenBooked(positions: seq<Position>, takes: seq<Take>)
    requires Plain(positions) && |positions| > 2 && Abs(SumBy(positions, SignedOf)) <= QTY_TOLERANCE
    requires exists p :: p in positions && IsShort(p)
    requires takes == FlattenTakes(positions) && forall t :: t in takes ==> t.long.id != t.short.id
    ensures var r := Quiet(positions);
            && TickLegs(map[], NodeTick(r, 0)) == OrderLegs(NodeOrders(r))
            && |AfterOrders(r)| == |positions|
            && (forall i :: 0 <= i < |positions| ==>
                  AfterOrders(r)[i] == HoldingOf(positions[i]).(
                    qty := positions[i].Signed() + ShortTaken(Executed(takes), positions[i].id)
                                                 - LongTaken(Executed(takes), positions[i].id)))
  {
    hide FlattenTakes, SumBy, OutcomeAt, MuteIn, NettingBook, IdsUnique, Executed, AfterOrders, TickLegs, NodeTick, NodeOrders,
         LegsOf, FlattenAt, Plain, OrderLegs, PlanOf, ApplyAll, OpenOf;
    var r := Quiet(positions);
    PlainFacts(positions);
    FlattenIsPlanned(positions);
    FlattenAsExecuted(r, NAME);
    ExecutedPlanMoves(r);
    ExecutedJoinsTwo(takes);
    NothingEvicted(r);
    NothingBooked();
    NodeTickBooks(r, map[], 0);
    forall i | 0 <= i < |positions|
      ensures MovedBy(r, Book(positions)[i])
           == ShortTaken(Executed(takes), positions[i].id) - LongTaken(Executed(takes), positions[i].id)
    {
      TakesTotals(NAME, Executed(takes), 0.0, positions[i].id);
      PlainInstrument(positions, i);
    }
  }

  lemma {:induction false} PlainInstrument(positions: seq<Position>, i: nat)
    requires Plain(positions) && i < |positions|
    ensures positions[i].instrument == NAME
  {
    assert positions[i] in positions;
  }

  lemma {:induction false} NothingBooked()
    ensures forall f :: !IsBooked(map[], f)
  {
  }

  lemma {:induction false} NothingEvicted(r: Read)
    requires r.positions != [] && OutcomeAt(r, NAME).Paired? && Plain(r.positions)
    ensures NoFlatEvicted(r)
  {
    hide PlanInstrument, OutcomeAt, PlanOf;
    PlanFromOutcomes(r);
    forall x | x in PlanOf(r).evictions
      ensures LegsOf(r.positions, x.instrument) == []
    {
      OffInstrument(r.positions, x.instrument);
    }
  }

  lemma {:induction false} OffInstrument(positions: seq<Position>, instrument: string)
    ensures instrument != NAME && (forall p :: p in positions ==> p.instrument == NAME) ==> LegsOf(positions, instrument) == []
  {
    LegsOfMembers(positions, instrument);
    if LegsOf(positions, instrument) != [] {
      assert LegsOf(positions, instrument)[0] in LegsOf(positions, instrument);
    }
  }

  // ---- two longs against two shorts ----------------------------------------------------------

  function TwoByTwo(): seq<Position> {
    [WitnessLeg("1", 3.0), WitnessLeg("2", 1.0), WitnessLeg("3", -2.0), WitnessLeg("4", -2.0)]
  }

  /** One step of the matching, given what it takes and where it leaves the two sides. */
  lemma {:induction false} MatchNext(longs: seq<Slot>, shorts: seq<Slot>, take: real, ls: seq<Slot>, ss: seq<Slot>)
    requires longs != [] && shorts != [] && take == Min(longs[0].rem, shorts[0].rem) && take > QTY_TOLERANCE
    requires ls == if longs[0].rem - take <= QTY_TOLERANCE then longs[1..] else [longs[0].(rem := longs[0].rem - take)] + longs[1..]
    requires ss == if shorts[0].rem - take <= QTY_TOLERANCE then shorts[1..] else [shorts[0].(rem := shorts[0].rem - take)] + shorts[1..]
    ensures Match(longs, shorts, QTY_TOLERANCE)
         == [Take(longs[0].pos, shorts[0].pos, take)] + Match(ls, ss, QTY_TOLERANCE)
  {
  }

  lemma {:induction false} MatchOver(ss: seq<Slot>)
    ensures Match([], ss, QTY_TOLERANCE) == []
  {
  }

  lemma {:induction false} TwoByTwoTakes()
    ensures var b := TwoByTwo();
            FlattenTakes(b) == [Take(b[0], b[2], 2.0), Take(b[0], b[3], 1.0), Take(b[1], b[3], 1.0)]
  {
    hide Match, Sort, Filter, SumBy;
    var book := TwoByTwo();
    var l1, l2, s1, s2 := book[0], book[1], book[2], book[3];
    FourSides(book);
    var a, b := Slots([l1, l2]), Slots([s1, s2]);
    assert a == [Slot(l1, 3.0), Slot(l2, 1.0)] && b == [Slot(s1, 2.0), Slot(s2, 2.0)];
    var a1, b1 := [Slot(l1, 1.0), Slot(l2, 1.0)], [Slot(s2, 2.0)];
    var a2, b2 := [Slot(l2, 1.0)], [Slot(s2, 1.0)];
    MatchNext(a, b, 2.0, a1, b1);
    MatchNext(a1, b1, 1.0, a2, b2);
    MatchNext(a2, b2, 1.0, [], []);
    MatchOver([]);
  }

  predicate IsNumbered(p: Position, i: nat) {
    i < 4 && p.qty.Known? && p == WitnessLeg(["1", "2", "3", "4"][i], p.qty.v)
  }

  lemma {:induction false} TwoByTwoIsNumbered()
    ensures |TwoByTwo()| == 4 && forall i :: 0 <= i < 4 ==> IsNumbered(TwoByTwo()[i], i)
  {
    var b := TwoByTwo();
    assert IsNumbered(b[0], 0);
    assert IsNumbered(b[1], 1);
    assert IsNumbered(b[2], 2);
    assert IsNumbered(b[3], 3);
  }

  /** At most four worked positions, numbered from one. */
  lemma {:induction false} NumberedIsPlain(positions: seq<Position>)
    requires 0 < |positions| <= 4
    requires forall i :: 0 <= i < |positions| ==> IsNumbered(positions[i], i)
    ensures Plain(positions)
  {
    var names := ["1", "2", "3", "4"];
    assert names[0][0] == '1' && names[1][0] == '2' && names[2][0] == '3' && names[3][0] == '4';
    assert forall i, j :: 0 <= i < j < 4 ==> names[i][0] != names[j][0];
    assert forall i :: 0 <= i < |positions| ==> positions[i].id == names[i] && positions[i].strategy == names[i];
  }

  lemma {:induction false} TwoByTwoIsPlain()
    ensures Plain(TwoByTwo()) && |TwoByTwo()| == 4 && exists p :: p in TwoByTwo() && IsShort(p)
    ensures SumBy(TwoByTwo(), SignedOf) == 0.0
  {
    hide SumBy, Plain;
    FourSides(TwoByTwo());
    assert TwoByTwo()[2] in TwoByTwo() && IsShort(TwoByTwo()[2]);
    TwoByTwoIsNumbered();
    NumberedIsPlain(TwoByTwo());
  }

  /** The two sides of the book of four, each in the order of its ids. */
  lemma {:induction false} FourSides(book: seq<Position>)
    requires book == TwoByTwo()
    ensures Sort(Filter(book, IsLong), ById) == [book[0], book[1]] && Sort(Filter(book, IsShort), ById) == [book[2], book[3]]
    ensures SumBy(book, SignedOf) == 0.0
  {
    var l1, l2, s1, s2 := book[0], book[1], book[2], book[3];
    assert book[1..] == [l2, s1, s2] && [l2, s1, s2][1..] == [s1, s2] && [s1, s2][1..] == [s2] && [s2][1..] == [];
    assert Filter([s2], IsLong) == [] && Filter([s1, s2], IsLong) == [] && Filter([l2, s1, s2], IsLong) == [l2];
    assert Filter([s2], IsShort) == [s2] && Filter([s1, s2], IsShort) == [s1, s2] && Filter([l2, s1, s2], IsShort) == [s1, s2];
    SortOfTwo(l1, l2);
    SortOfTwo(s1, s2);
    assert SumBy([s2], SignedOf) == -2.0 && SumBy([s1, s2], SignedOf) == -4.0 && SumBy([l2, s1, s2], SignedOf) == -3.0;
  }

  lemma {:induction false} SortOfTwo(a: Position, b: Position)
    requires ById(a, b)
    ensures Sort([a, b], ById) == [a, b]
  {
    assert [a, b][1..] == [b] && [b][1..] == [];
    assert Sort([b], ById) == [b];
  }

  /**
   3 and 1 against 2 and 2. The plan is 2, 1 and 1, and would leave every leg flat. The executor accepts all three pairs and
   makes them 2, 2 and 1, the booker books all six legs, and the long of 3 ends short 1, the short of 2 long 1.
   */
  lemma {:induction false} TwoByTwoOverCloses()
    ensures var r := Quiet(TwoByTwo());
            && TakesAt(r, NAME) == [Take(TwoByTwo()[0], TwoByTwo()[2], 2.0), Take(TwoByTwo()[0], TwoByTwo()[3], 1.0),
                                    Take(TwoByTwo()[1], TwoByTwo()[3], 1.0)]
            && OutcomeAt(r, NAME) == Paired(PairsOf(NAME, TakesAt(r, NAME), 0.0))
            && |TickLegs(map[], NodeTick(r, 0))| == 6
            && |AfterOrders(r)| == 4
            && AfterOrders(r)[0].qty == -1.0 && AfterOrders(r)[1].qty == 0.0
            && AfterOrders(r)[2].qty == 0.0 && AfterOrders(r)[3].qty == 1.0
  {
    hide FlattenTakes, SumBy, OutcomeAt, AfterOrders, TickLegs, NodeTick, NodeOrders, Executed, Plain, LongTaken, ShortTaken, LegsOf,
         FlattenAt, MuteIn, NettingBook, IdsUnique, PairsOf, PlanInstrument, OpenOf, OpenInstruments, Blocked, MuteKeys, OrderLegs;
    var book := TwoByTwo();
    var takes := [Take(book[0], book[2], 2.0), Take(book[0], book[3], 1.0), Take(book[1], book[3], 1.0)];
    TwoByTwoTakes();
    TwoByTwoIsPlain();
    PlainFacts(book);
    FlattenIsPlanned(book);
    FlattenBooked(book, takes);
    TwoByTwoExecuted();
    OneInstrument(book);
    SixLegs(Quiet(book), takes[0].(quantity := 2.0), takes[1].(quantity := 2.0), takes[2].(quantity := 1.0));
  }

  lemma {:induction false} OneInstrument(positions: seq<Position>)
    requires Plain(positions)
    ensures OpenInstruments(positions) == [NAME]
  {
    AllOpen(positions);
  }

  /** What the executor takes of each leg: four of the long of 3, three of the second short of 2. */
  lemma {:induction false} TwoByTwoExecuted()
    ensures var b := TwoByTwo();
            var takes := [Take(b[0], b[2], 2.0), Take(b[0], b[3], 1.0), Take(b[1], b[3], 1.0)];
            && Executed(takes) == [takes[0].(quantity := 2.0), takes[1].(quantity := 2.0), takes[2].(quantity := 1.0)]
            && LongTaken(Executed(takes), "1") == 4.0 && ShortTaken(Executed(takes), "1") == 0.0
            && LongTaken(Executed(takes), "2") == 1.0 && ShortTaken(Executed(takes), "2") == 0.0
            && LongTaken(Executed(takes), "3") == 0.0 && ShortTaken(Executed(takes), "3") == 2.0
            && LongTaken(Executed(takes), "4") == 0.0 && ShortTaken(Executed(takes), "4") == 3.0
  {
    hide Executed, LongTaken, ShortTaken;
    var b := TwoByTwo();
    var t1, t2, t3 := Take(b[0], b[2], 2.0), Take(b[0], b[3], 1.0), Take(b[1], b[3], 1.0);
    var e1, e2, e3 := t1.(quantity := 2.0), t2.(quantity := 2.0), t3.(quantity := 1.0);
    ExecutedThree(t1, t2, t3);
    ThreeTakes(e1, e2, e3, "1");
    ThreeTakes(e1, e2, e3, "2");
    ThreeTakes(e1, e2, e3, "3");
    ThreeTakes(e1, e2, e3, "4");
  }

  lemma {:induction false} SixLegs(r: Read, e1: Take, e2: Take, e3: Take)
    requires NettingBook(r.positions) && FlattenAt(r, NAME) && Executed(TakesAt(r, NAME)) == [e1, e2, e3]
    requires OpenInstruments(r.positions) == [NAME] && Blocked(r.positions) == {}
    ensures |OrderLegs(NodeOrders(r))| == 6
  {
    hide FlattenTakes, OutcomeAt, Executed, LegsOf, NettingBook, FlattenAt, PlanInstrument;
    FlattenAsExecuted(r, NAME);
    PlanExecuted(r);
    SurvivingIsPrefix(r);
    assert [NAME][1..] == [] && Sort([NAME][1..], StrLe) == [] && Sort([NAME], StrLe) == [NAME];
    ExecutedStep(r, [NAME]);
    assert [NAME][..0] == [];
    ExecutedNothing(r);
    var pairs := PairsOf(NAME, [e1, e2, e3], BrokerOrZero(r.broker, NAME).v);
    OnlyPairs(ExecutedPrefix(r, []), pairs);
    ThreePairs(pairs);
  }

  lemma {:induction false} OnlyPairs(plan: ContraPlan, pairs: seq<ContraPair>)
    requires PlanLegs(plan) == []
    ensures PlanLegs(Add(plan, NAME, Paired(pairs))) == PairLegs(pairs)
  {
    PairLegsConcat(plan.pairs, pairs);
    assert |PlanLegs(plan)| == |PairLegs(plan.pairs)| + |EvictionLegs(plan.evictions)| + |SurplusLegs(plan.surplus)|;
    assert PairLegs(plan.pairs) == [] && EvictionLegs(plan.evictions) == [] && SurplusLegs(plan.surplus) == [];
  }

  lemma {:induction false} ThreePairs(pairs: seq<ContraPair>)
    requires |pairs| == 3
    ensures |PairLegs(pairs)| == 6
  {
    assert |PairLegs(pairs[1..][1..][1..])| == 0;
    assert |PairLegs(pairs[1..][1..])| == 2;
    assert |PairLegs(pairs[1..])| == 4;
  }

  lemma {:induction false} ExecutedThree(t1: Take, t2: Take, t3: Take)
    ensures Executed([t1, t2, t3])
         == [t1.(quantity := Whole(t1)), t2.(quantity := Whole(t2)), t3.(quantity := Whole(t3))]
  {
    assert [t1, t2, t3][1..] == [t2, t3] && [t2, t3][1..] == [t3] && [t3][1..] == [];
    assert Executed([t3]) == [t3.(quantity := Whole(t3))];
    assert Executed([t2, t3]) == [t2.(quantity := Whole(t2)), t3.(quantity := Whole(t3))];
  }

  lemma {:induction false} ThreeTakes(t1: Take, t2: Take, t3: Take, id: string)
    ensures LongTaken([t1, t2, t3], id) == (if t1.long.id == id then t1.quantity else 0.0)
              + (if t2.long.id == id then t2.quantity else 0.0) + (if t3.long.id == id then t3.quantity else 0.0)
    ensures ShortTaken([t1, t2, t3], id) == (if t1.short.id == id then t1.quantity else 0.0)
              + (if t2.short.id == id then t2.quantity else 0.0) + (if t3.short.id == id then t3.quantity else 0.0)
  {
    assert [t1, t2, t3][1..] == [t2, t3];
    TwoTakes(t2, t3, id);
  }

  lemma {:induction false} TwoTakes(t1: Take, t2: Take, id: string)
    ensures LongTaken([t1, t2], id) == (if t1.long.id == id then t1.quantity else 0.0)
              + (if t2.long.id == id then t2.quantity else 0.0)
    ensures ShortTaken([t1, t2], id) == (if t1.short.id == id then t1.quantity else 0.0)
              + (if t2.short.id == id then t2.quantity else 0.0)
  {
    assert [t1, t2][1..] == [t2] && [t2][1..] == [];
    assert LongTaken([t2], id) == (if t2.long.id == id then t2.quantity else 0.0);
    assert ShortTaken([t2], id) == (if t2.short.id == id then t2.quantity else 0.0);
  }

  // ---- one long that runs out ----------------------------------------------------------------

  function OneLong(): seq<Position> {
    [WitnessLeg("1", 2.9999995), WitnessLeg("2", -2.0), WitnessLeg("3", -1.0)]
  }

  lemma {:induction false} ThreeSides(book: seq<Position>)
    requires book == OneLong()
    ensures Sort(Filter(book, IsLong), ById) == [book[0]] && Sort(Filter(book, IsShort), ById) == [book[1], book[2]]
    ensures SumBy(book, SignedOf) == -0.0000005
  {
    var l, s1, s2 := book[0], book[1], book[2];
    assert book[1..] == [s1, s2] && [s1, s2][1..] == [s2] && [s2][1..] == [] && [l][1..] == [];
    assert Filter([s2], IsLong) == [] && Filter([s1, s2], IsLong) == [] && Filter(book, IsLong) == [l];
    assert Filter([s2], IsShort) == [s2] && Filter([s1, s2], IsShort) == [s1, s2];
    assert Sort([l], ById) == [l];
    SortOfTwo(s1, s2);
    assert SumBy([s2], SignedOf) == -1.0 && SumBy([s1, s2], SignedOf) == -3.0;
  }

  lemma {:induction false} OneLongTakes()
    ensures var b := OneLong();
            FlattenTakes(b) == [Take(b[0], b[1], 2.0), Take(b[0], b[2], 0.9999995)]
  {
    hide Match, Sort, Filter, SumBy;
    var book := OneLong();
    var l, s1, s2 := book[0], book[1], book[2];
    ThreeSides(book);
    var a, b := [Slot(l, 2.9999995)], [Slot(s1, 2.0), Slot(s2, 1.0)];
    assert Slots([l]) == a && Slots([s1, s2]) == b;
    var a1, b1 := [Slot(l, 0.9999995)], [Slot(s2, 1.0)];
    MatchNext(a, b, 2.0, a1, b1);
    MatchNext(a1, b1, 0.9999995, [], []);
    MatchOver([]);
  }

  lemma {:induction false} OneLongIsPlain()
    ensures Plain(OneLong()) && |OneLong()| == 3 && exists p :: p in OneLong() && IsShort(p)
    ensures Abs(SumBy(OneLong(), SignedOf)) <= QTY_TOLERANCE
  {
    hide SumBy, Plain;
    ThreeSides(OneLong());
    assert OneLong()[2] in OneLong() && IsShort(OneLong()[2]);
    NumberedIsPlain(OneLong());
  }

  /** A long half a tolerance short of its two shorts: the executor books the second short whole, and the long ends below zero. */
  lemma {:induction false} OneLongMayFlip()
    ensures var r := Quiet(OneLong());
            && TakesAt(r, NAME) == [Take(OneLong()[0], OneLong()[1], 2.0), Take(OneLong()[0], OneLong()[2], 0.9999995)]
            && OutcomeAt(r, NAME) == Paired(PairsOf(NAME, TakesAt(r, NAME), 0.0))
            && |AfterOrders(r)| == 3
            && AfterOrders(r)[0].qty == -0.0000005 && AfterOrders(r)[1].qty == 0.0 && AfterOrders(r)[2].qty == 0.0
            && TickLegs(map[], NodeTick(r, 0)) == OrderLegs(NodeOrders(r))
  {
    hide FlattenTakes, SumBy, OutcomeAt, AfterOrders, TickLegs, NodeTick, NodeOrders, Executed, Plain, LongTaken, ShortTaken, LegsOf,
         FlattenAt, MuteIn, NettingBook, IdsUnique, PairsOf, PlanInstrument, OpenOf, OpenInstruments, Blocked, MuteKeys, OrderLegs;
    var book := OneLong();
    OneLongTakes();
    OneLongIsPlain();
    PlainFacts(book);
    FlattenIsPlanned(book);
    FlattenBooked(book, [Take(book[0], book[1], 2.0), Take(book[0], book[2], 0.9999995)]);
    OneLongExecuted();
  }

  lemma {:induction false} OneLongExecuted()
    ensures var b := OneLong();
            var e := Executed([Take(b[0], b[1], 2.0), Take(b[0], b[2], 0.9999995)]);
            && LongTaken(e, "1") == 3.0 && ShortTaken(e, "1") == 0.0
            && LongTaken(e, "2") == 0.0 && ShortTaken(e, "2") == 2.0
            && LongTaken(e, "3") == 0.0 && ShortTaken(e, "3") == 1.0
  {
    hide Executed, LongTaken, ShortTaken;
    var b := OneLong();
    var t1, t2 := Take(b[0], b[1], 2.0), Take(b[0], b[2], 0.9999995);
    var e2 := t2.(quantity := 1.0);
    ExecutedTwo(t1, t2);
    TwoTakes(t1, e2, "1");
    TwoTakes(t1, e2, "2");
    TwoTakes(t1, e2, "3");
  }

  lemma {:induction false} ExecutedTwo(t1: Take, t2: Take)
    ensures Executed([t1, t2]) == [t1.(quantity := Whole(t1)), t2.(quantity := Whole(t2))]
  {
    assert [t1, t2][1..] == [t2] && [t2][1..] == [];
    assert Executed([t2]) == [t2.(quantity := Whole(t2))];
  }

  // ---- an operator's pair --------------------------------------------------------------------

  function ThreeAgainstTwo(): seq<Position> {
    [WitnessLeg("1", 3.0), WitnessLeg("2", -2.0)]
  }

  /** The operator asks for one share of each. */
  function OneOfEach(): ContraPair {
    PairOf(NAME, ThreeAgainstTwo()[0], ThreeAgainstTwo()[1], 1.0, 0.0)
  }

  lemma {:induction false} OneOfEachIsPlanned()
    ensures PlanOperatorPair(ThreeAgainstTwo(), map[], NAME, "1", "2", 1.0, {}, true) == Ok(OneOfEach())
  {
    hide SymbolPart, LegsOf, OpenInstruments;
    var book := ThreeAgainstTwo();
    var long, short := book[0], book[1];
    assert long in book && short in book;
    AllOpen(book);
    assert book[1..] == [short] && [short][1..] == [] && [long][1..] == [];
    assert Filter([short], Describable) == [short] && Filter(book, Describable) == book;
    assert Filter([short], IsLong) == [] && Filter(book, IsLong) == [long];
    assert Filter([short], IsShort) == [short] && Filter(book, IsShort) == [short];
  }

  lemma {:induction false} ThreeAgainstTwoIsPlain()
    ensures Plain(ThreeAgainstTwo())
  {
    hide Plain;
    assert IsNumbered(ThreeAgainstTwo()[0], 0);
    assert IsNumbered(ThreeAgainstTwo()[1], 1);
    NumberedIsPlain(ThreeAgainstTwo());
  }

  /** Named one share of a long of 3 and a short of 2, the pair is accepted, passes the aim check and is booked at two. */
  lemma {:induction false} NamedOneBooksTwo()
    ensures var r := Quiet(ThreeAgainstTwo());
            var d := DecidePair(Unchanged(r), OneOfEach());
            && PlanOperatorPair(r.positions, r.broker, NAME, "1", "2", 1.0, r.resting, r.complete) == Ok(OneOfEach())
            && d.Ok? && Books(r.positions, d.value, map[])
            && SignedAt(OneOfEach().Legs(), "1") == -1.0 && SignedAt(OneOfEach().Legs(), "2") == 1.0
            && SignedAt(d.value.legs, "1") == -2.0 && SignedAt(d.value.legs, "2") == 2.0
  {
    hide DecidePair, PlanOperatorPair, SignedAt, NettingBook, IdsUnique, Books, LegsOf, MuteKeys, Plain, Blocked, OpenOf,
      OpenInstruments, OnlyCloses, NetOn, ApplyAll, OutcomeAt, MuteIn;
    var r := Quiet(ThreeAgainstTwo());
    OneOfEachIsPlanned();
    ThreeAgainstTwoIsPlain();
    PlainFacts(r.positions);
    OperatorSplitNeverTotal(r, NAME, "1", "2", 1.0);
    assert OneBook(r.positions, Unchanged(r)) by {
      hide *;
      QuietIsOneBook(r.positions);
    }
    NothingBooked();
    PairBooks(r.positions, Unchanged(r), OneOfEach(), map[]);
    assert OneOfEach().longId == "1" && OneOfEach().shortId == "2" && "1"[0] != "2"[0];
    PairTotals(OneOfEach(), "1");
    PairTotals(OneOfEach(), "2");
  }

  // ---- an eviction with a flat leg -----------------------------------------------------------

  function FlatLeg(): seq<Position> {
    [WitnessLeg("1", 5.0), WitnessLeg("2", 0.0)]
  }

  /** Five shares nobody at the venue has, beside an open leg at zero: evicted by the planner, accepted by the executor, and
      refused whole by the booker. */
  lemma {:induction false} FlatLegIsNotBooked()
    ensures var r := Quiet(FlatLeg());
            && OutcomeAt(r, NAME).Evicted?
            && DecideEviction(Unchanged(r), OutcomeAt(r, NAME).eviction).Ok?
            && !Books(r.positions, DecideEviction(Unchanged(r), OutcomeAt(r, NAME).eviction).value, map[])
  {
    hide DecideEviction, NettingBook, IdsUnique, Unchanged, Books, LegsOf;
    var book := FlatLeg();
    var r := Quiet(book);
    assert book[1..] == [book[1]] && [book[1]][1..] == [];
    assert SumBy(book, SignedOf) == 5.0;
    assert Plain(book);
    PlainFacts(book);
    assert OutcomeAt(r, NAME).Evicted?;
    PlannedEvictionAgrees(r, NAME);
    var ev := OutcomeAt(r, NAME).eviction;
    assert ev.instrument == NAME;
    hide OutcomeAt;
    assert OneBook(r.positions, Unchanged(r)) by {
      hide *;
      QuietIsOneBook(book);
    }
    assert book[1] in LegsOf(book, NAME) && book[1].Signed() == 0.0;
    NothingBooked();
    EvictionBooksIff(r.positions, Unchanged(r), ev, map[]);
  }

  lemma {:induction false} QuietIsOneBook(positions: seq<Position>)
    requires NettingBook(positions) && IdsUnique(positions)
    ensures OneBook(positions, Unchanged(Quiet(positions)))
  {
  }

  // ---- a mute shape beside a pair ------------------------------------------------------------

  /** A long and a short of one share, and a closed position in the long's lane that has no opening time. */
  function MuteBeside(): seq<Position> {
    [WitnessLeg("1", 1.0), WitnessLeg("2", -1.0), Position(NAME, "1", "9", Known(0.0), 1.0, Some(false), None)]
  }

  /** The planner pairs the two, and the executor refuses the pair. */
  lemma {:induction false} MuteLaneIsRefused()
    ensures var r := Quiet(MuteBeside());
            && OutcomeAt(r, NAME).Paired? && |OutcomeAt(r, NAME).pairs| == 1
            && DecidePair(Unchanged(r), OutcomeAt(r, NAME).pairs[0]) == Err(Mute)
  {
    hide DecidePair, OutcomeAt, MuteKeys;
    MuteBesidePaired();
    MuteKeyBeside();
    MuteIsRefused(Unchanged(Quiet(MuteBeside())), OutcomeAt(Quiet(MuteBeside()), NAME).pairs[0]);
  }

  lemma {:induction false} MuteIsRefused(f: Fresh, pair: ContraPair)
    requires !Rests(f, pair.instrument) && (pair.instrument, pair.longStrategy) in f.mute
    ensures DecidePair(f, pair) == Err(Mute)
  {
  }

  lemma {:induction false} MuteKeyBeside()
    ensures (NAME, "1") in MuteKeys(MuteBeside())
  {
    var p := MuteBeside()[2];
    assert p in MuteBeside() && IsMute(p) && KeyOf(p) == (NAME, "1");
  }

  lemma {:induction false} MuteBesidePaired()
    ensures OutcomeAt(Quiet(MuteBeside()), NAME)
         == Paired([PairOf(NAME, WitnessLeg("1", 1.0), WitnessLeg("2", -1.0), 1.0, 0.0)])
  {
    var legs := [WitnessLeg("1", 1.0), WitnessLeg("2", -1.0)];
    MuteBesideLegs();
    hide LegsOf, OpenInstruments, SymbolPart;
    assert legs[1..] == [legs[1]] && [legs[1]][1..] == [];
    assert Filter([legs[1]], IsLong) == [] && Filter([legs[1]], IsShort) == [legs[1]];
    assert SumBy([legs[1]], SignedOf) == -1.0 && SumBy(legs, SignedOf) == 0.0;
    assert legs[0] in legs && legs[1] in legs;
  }

  lemma {:induction false} MuteBesideLegs()
    ensures LegsOf(MuteBeside(), NAME) == [MuteBeside()[0], MuteBeside()[1]]
    ensures Blocked(MuteBeside()) == {} && NAME in OpenInstruments(MuteBeside())
  {
    var book := MuteBeside();
    assert book[..2][..1] == [book[0]] && book[..2] == [book[0], book[1]] && book[..2][..1][..0] == [];
    assert LegsOf(book[..2][..1], NAME) == [book[0]] && LegsOf(book[..2], NAME) == [book[0], book[1]];
    OpenInstrumentsMembers(book);
    assert book[0] in book && IsOpen(book[0]);
  }
}
