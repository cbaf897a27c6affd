/**
 Any part of a flatten, and its money, at the planner's own tolerance (backend/api/contra_close.py:716-749): whichever of the
 pairs are booked the net stays and no leg flips, and what the pairs erase is the book value of the legs to within what they
 leave of them.
 */
module ContraParts {
  import opened Prelude
  import opened Netting
  import opened ContraClose
  import opened ContraFlatten
  import opened ContraPlanProofs
  import opened ContraWholeBook

  lemma {:induction false} SelectMembers(takes: seq<Take>, mask: seq<bool>)
    requires |mask| == |takes|
    ensures forall t :: t in Select(takes, mask) ==> t in takes
  {
    if takes != [] {
      assert takes == [takes[0]] + takes[1..];
      SelectMembers(takes[1..], mask[1..]);
    }
  }

  /** What the pairs leave of each leg, none overdrawn. */
  lemma {:induction false} PartExhausts(legs: seq<Position>, mask: seq<bool>) returns (slack: real)
    requires Distinct(legs) && |mask| == |FlattenTakes(legs)|
    ensures Exhausts(SideSlots(legs, true), SideSlots(legs, false), Select(FlattenTakes(legs), mask), slack)
  {
    hide FlattenTakes, SideSlots, Select, Distinct, Match;
    var takes, longs, shorts := FlattenTakes(legs), SideSlots(legs, true), SideSlots(legs, false);
    SortedSide(legs, true);
    SortedSide(legs, false);
    SidesAreMatched(legs);
    TakesFit(longs, shorts, QTY_TOLERANCE);
    TakesAreFromSlots(longs, shorts, QTY_TOLERANCE);
    SumByNonNegative(longs, RemOf);
    SumByNonNegative(shorts, RemOf);
    slack := SumBy(longs, RemOf) + SumBy(shorts, RemOf);
    forall s | s in longs
      ensures 0.0 <= s.rem - LongTaken(Select(takes, mask), s.pos.id) <= slack
    {
      SubsetTakesLess(takes, mask, s.pos.id);
      var i :| 0 <= i < |longs| && longs[i] == s;
    }
    forall s | s in shorts
      ensures 0.0 <= s.rem - ShortTaken(Select(takes, mask), s.pos.id) <= slack
    {
      SubsetTakesLess(takes, mask, s.pos.id);
      var i :| 0 <= i < |shorts| && shorts[i] == s;
    }
  }

  lemma {:induction false} SidesAreMatched(legs: seq<Position>)
    ensures FlattenTakes(legs) == Match(SideSlots(legs, true), SideSlots(legs, false), QTY_TOLERANCE)
  {
  }

  lemma {:induction false} PartOfBook(instrument: string, legs: seq<Position>, mask: seq<bool>)
    requires Distinct(legs) && (forall p :: p in legs ==> p.instrument == instrument) && |mask| == |FlattenTakes(legs)|
    ensures TakesOfBook(instrument, legs, SideSlots(legs, true), SideSlots(legs, false), Select(FlattenTakes(legs), mask))
  {
    hide FlattenTakes, SideSlots, Select, Distinct;
    FlattenTakesOfBook(instrument, legs);
    SelectMembers(FlattenTakes(legs), mask);
  }

  /**
   Whichever of a flatten's pairs are booked, on the book it was planned on: the net is what it was, every position only gives
   back towards flat, at its own basis and without realizing anything, and by exactly the booked pairs of its own.
   */
  lemma {:induction false} AnyPartIsSafe(instrument: string, legs: seq<Position>, mask: seq<bool>, venue: real)
    requires Distinct(legs) && (forall p :: p in legs ==> p.instrument == instrument) && |mask| == |FlattenTakes(legs)|
    ensures var part := Select(FlattenTakes(legs), mask);
            var book, after := Book(legs), ApplyAll(Book(legs), PairLegs(PairsOf(instrument, part, venue)));
            && |after| == |book|
            && NetOn(after, instrument) == NetOn(book, instrument)
            && (forall i :: 0 <= i < |book| ==>
                  && ClosedTowardsFlat(book[i], after[i])
                  && after[i].qty == book[i].qty + ShortTaken(part, book[i].id) - LongTaken(part, book[i].id))
  {
    hide FlattenTakes, SideSlots, Select, Distinct, PairLegs, PairsOf, ApplyAll, NetOn, SignedAt, SignedOn, TakesOfBook, Exhausts, Aimed;
    var part, longs, shorts := Select(FlattenTakes(legs), mask), SideSlots(legs, true), SideSlots(legs, false);
    var moves, book := PairLegs(PairsOf(instrument, part, venue)), Book(legs);
    var slack := PartExhausts(legs, mask);
    PartOfBook(instrument, legs, mask);
    UniqueIsDistinct(legs);
    AllFlattened(instrument, legs, longs, shorts, part, venue, slack);
    AllTakesAim(instrument, legs, longs, shorts, part, venue);
    TakesJoinTwoLegs(instrument, legs, longs, shorts, part);
    forall i | 0 <= i < |book|
      ensures Netting.Within(moves, book[i])
      ensures SignedAt(moves, book[i].id) == ShortTaken(part, book[i].id) - LongTaken(part, book[i].id)
    {
      assert legs[i] in legs && Flattened(instrument, part, venue, slack, legs[i]);
      TakesTotals(instrument, part, venue, book[i].id);
    }
    ApplyAllCloses(book, moves);
    NetAfterAll(book, moves, instrument);
    TakesTotals(instrument, part, venue, "");
    forall i | 0 <= i < |book|
      ensures ClosedTowardsFlat(book[i], ApplyAll(book, moves)[i])
    {
      WithinSigned(moves, book[i]);
    }
  }

  // ---- the money -----------------------------------------------------------------------------

  function PriceOf(s: Slot): real { s.pos.avgPx }

  predicate Priced(slots: seq<Slot>) {
    forall s :: s in slots ==> s.pos.avgPx >= 0.0
  }

  lemma {:induction false} TimesBounds(px: real, a: real, slack: real)
    requires px >= 0.0 && 0.0 <= a <= slack
    ensures 0.0 <= Times(px, a) <= Times(px, slack)
  {
  }

  lemma {:induction false} TimesSums(a: real, b: real, q: real)
    ensures Times(a + b, q) == Times(a, q) + Times(b, q) && Times(0.0, q) == 0.0
  {
  }

  lemma {:induction false} LongValueWithin(instrument: string, slots: seq<Slot>, takes: seq<Take>, slack: real)
    requires Priced(slots) && forall s :: s in slots ==> 0.0 <= s.rem - LongTaken(takes, s.pos.id) <= slack
    ensures var short := -BookValue(CloseSide(instrument, slots, Sell)) - LongValue(slots, takes);
            0.0 <= short <= Times(SumBy(slots, PriceOf), slack)
  {
    hide Times, LongTaken;
    if slots == [] {
      TimesSums(0.0, 0.0, slack);
    } else {
      var s := slots[0];
      assert s in slots && forall x :: x in slots[1..] ==> x in slots;
      LongValueWithin(instrument, slots[1..], takes, slack);
      TimesNegates(s.pos.avgPx, s.rem);
      TimesAdds(s.pos.avgPx, LongTaken(takes, s.pos.id), s.rem - LongTaken(takes, s.pos.id));
      TimesBounds(s.pos.avgPx, s.rem - LongTaken(takes, s.pos.id), slack);
      TimesSums(s.pos.avgPx, SumBy(slots[1..], PriceOf), slack);
    }
  }

  lemma {:induction false} ShortValueWithin(instrument: string, slots: seq<Slot>, takes: seq<Take>, slack: real)
    requires Priced(slots) && forall s :: s in slots ==> 0.0 <= s.rem - ShortTaken(takes, s.pos.id) <= slack
    ensures var short := BookValue(CloseSide(instrument, slots, Buy)) - ShortValue(slots, takes);
            0.0 <= short <= Times(SumBy(slots, PriceOf), slack)
  {
    hide Times, ShortTaken;
    if slots == [] {
      TimesSums(0.0, 0.0, slack);
    } else {
      var s := slots[0];
      assert s in slots && forall x :: x in slots[1..] ==> x in slots;
      ShortValueWithin(instrument, slots[1..], takes, slack);
      TimesAdds(s.pos.avgPx, ShortTaken(takes, s.pos.id), s.rem - ShortTaken(takes, s.pos.id));
      TimesBounds(s.pos.avgPx, s.rem - ShortTaken(takes, s.pos.id), slack);
      TimesSums(s.pos.avgPx, SumBy(slots[1..], PriceOf), slack);
    }
  }

  /**
   What the planner's pairs of a flatten erase together is the book value of all the legs, the number an eviction of the same
   book would record, to within the slack of the legs at their prices: never below it by more than the shorts' prices times the
   slack, nor above by more than the longs'.
   */
  lemma {:induction false} FlattenMoney(instrument: string, legs: seq<Position>)
    requires Distinct(legs) && (forall p :: p in legs ==> p.instrument == instrument && p.avgPx >= 0.0) && |legs| > 2
    requires Abs(SumBy(legs, SignedOf)) <= QTY_TOLERANCE
    ensures var longs, shorts := SideSlots(legs, true), SideSlots(legs, false);
            var slack := Slack(|legs| + 1, QTY_TOLERANCE);
            var value := BookValue(CloseAll(instrument, longs, shorts));
            value - Times(SumBy(shorts, PriceOf), slack) <= Erased(FlattenTakes(legs)) <= value + Times(SumBy(longs, PriceOf), slack)
  {
    hide FlattenTakes, SideSlots, Distinct, SumBy, Slack, Times, Erased;
    var takes, longs, shorts := FlattenTakes(legs), SideSlots(legs, true), SideSlots(legs, false);
    var slack := Slack(|legs| + 1, QTY_TOLERANCE);
    FlattenTakesOfBook(instrument, legs);
    FlattenTakesExhaust(instrument, legs);
    ErasedByLegs(takes, longs, shorts);
    BookValueConcat(CloseSide(instrument, longs, Sell), CloseSide(instrument, shorts, Buy));
    LongValueWithin(instrument, longs, takes, slack);
    ShortValueWithin(instrument, shorts, takes, slack);
  }
}
