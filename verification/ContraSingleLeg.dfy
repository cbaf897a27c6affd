/**
 A flatten with a single leg on one side (backend/api/contra_close.py:716-749, contra_execute.py:97-108): the executor books
 each pair at the whole of its smaller leg, and with one leg on a side that is the planned quantity to within the tolerance,
 and exactly it unless the single leg runs out inside one of the others.
 */
module ContraSingleLeg {
  import opened Prelude
  import opened Netting
  import opened ContraClose
  import opened ContraFlatten
  import opened ContraPlanProofs
  import opened ContraExecuteProofs

  // ---- one long ------------------------------------------------------------------------------

  /** Every slot is a whole leg, and none is flat. */
  predicate WholeSlots(slots: seq<Slot>) {
    forall s :: s in slots ==> s.rem == Abs(s.pos.Signed()) && s.rem > 0.0
  }

  /** What the first `j` legs hold together. */
  function Held(slots: seq<Slot>, j: nat): real
    requires j <= |slots|
  {
    SumBy(slots[..j], RemOf)
  }

  /** A leg with `have` to give, going through the others in order, runs out inside the `j`th with more than `tol` left. */
  predicate EndsAt(have: real, others: seq<Slot>, tol: real, j: nat) {
    j < |others| && Held(others, j) + tol < have < Held(others, j + 1)
  }

  predicate EndsInside(have: real, others: seq<Slot>, tol: real) {
    exists j :: 0 <= j < |others| && EndsAt(have, others, tol, j)
  }

  /** The single leg of a side runs out inside one of the others, and not the first. */
  predicate RunsOut(have: real, others: seq<Slot>, tol: real) {
    exists j :: 0 < j < |others| && EndsAt(have, others, tol, j)
  }

  lemma {:induction false} HeldLaws(slots: seq<Slot>, j: nat)
    requires j <= |slots| && WholeSlots(slots)
    ensures Held(slots, 0) == 0.0
    ensures 0.0 <= Held(slots, j) <= SumBy(slots, RemOf)
    ensures j > 0 ==> Held(slots, j) == slots[0].rem + Held(slots[1..], j - 1)
  {
    assert slots == slots[..j] + slots[j..];
    SumByConcat(slots[..j], slots[j..], RemOf);
    assert (forall s :: s in slots[j..] ==> s in slots) && (forall s :: s in slots[..j] ==> s in slots);
    SumByNonNegative(slots[..j], RemOf);
    SumByNonNegative(slots[j..], RemOf);
    if j > 0 {
      assert slots[..j][1..] == slots[1..][..j - 1];
    }
  }

  /** Within the `j`th of the others is within the one before it of the rest, once the first is given. */
  lemma {:induction false} EndsAtStep(have: real, others: seq<Slot>, tol: real, j: nat)
    requires others != [] && WholeSlots(others) && tol >= 0.0 && j < |others|
    ensures j > 0 ==> (EndsAt(have, others, tol, j) <==> EndsAt(have - others[0].rem, others[1..], tol, j - 1))
    ensures j > 0 && EndsAt(have, others, tol, j) ==> have > others[0].rem
    ensures j == 0 ==> (EndsAt(have, others, tol, j) <==> tol < have < others[0].rem)
  {
    hide Held;
    assert WholeSlots(others[1..]) by {
      assert forall s :: s in others[1..] ==> s in others;
    }
    HeldLaws(others, j);
    HeldLaws(others, j + 1);
    HeldLaws(others[1..], j);
    if j > 0 {
      HeldLaws(others[1..], j - 1);
    }
  }

  /** Within the first of the others, or after it. */
  lemma {:induction false} EndsStep(have: real, others: seq<Slot>, tol: real)
    requires others != [] && WholeSlots(others) && tol >= 0.0
    ensures EndsInside(have, others, tol) <==>
              if have < others[0].rem then tol < have else EndsInside(have - others[0].rem, others[1..], tol)
    ensures RunsOut(have, others, tol) <==> EndsInside(have - others[0].rem, others[1..], tol)
  {
    hide EndsAt, WholeSlots;
    var rest := others[1..];
    forall j: nat | j < |others|
      ensures j > 0 ==> (EndsAt(have, others, tol, j) <==> EndsAt(have - others[0].rem, rest, tol, j - 1))
      ensures j > 0 && EndsAt(have, others, tol, j) ==> have > others[0].rem
      ensures j == 0 ==> (EndsAt(have, others, tol, j) <==> tol < have < others[0].rem)
    {
      EndsAtStep(have, others, tol, j);
    }
    EndsLater(have, others, tol);
    assert EndsAt(have, others, tol, 0) <==> tol < have < others[0].rem;
    if EndsInside(have, others, tol) && have >= others[0].rem {
      var j :| 0 <= j < |others| && EndsAt(have, others, tol, j);
      assert j > 0;
    }
  }

  lemma {:induction false} EndsLater(have: real, others: seq<Slot>, tol: real)
    requires others != []
    requires forall j: nat :: 0 < j < |others| ==>
               (EndsAt(have, others, tol, j) <==> EndsAt(have - others[0].rem, others[1..], tol, j - 1))
    ensures RunsOut(have, others, tol) <==> EndsInside(have - others[0].rem, others[1..], tol)
  {
    hide EndsAt;
    var rest := others[1..];
    if EndsInside(have - others[0].rem, rest, tol) {
      var j :| 0 <= j < |rest| && EndsAt(have - others[0].rem, rest, tol, j);
      assert EndsAt(have - others[0].rem, rest, tol, j + 1 - 1);
      assert EndsAt(have, others, tol, j + 1);
    }
  }

  /** With no more than the tolerance left there is nothing to end inside. */
  lemma {:induction false} TooLittleToEnd(have: real, others: seq<Slot>, tol: real)
    requires WholeSlots(others) && have <= tol
    ensures !EndsInside(have, others, tol)
  {
    forall j: nat | j < |others|
      ensures !EndsAt(have, others, tol, j)
    {
      HeldLaws(others, j);
    }
  }

  /** The first step of a matching with one long. */
  lemma {:induction false} OneLongStep(long: Slot, shorts: seq<Slot>, tol: real)
    requires tol >= 0.0 && shorts != [] && WholeSlots(shorts) && long.rem >= 0.0
    ensures var take := Min(long.rem, shorts[0].rem);
            var here := if take > tol then [Take(long.pos, shorts[0].pos, take)] else [];
            var left := long.(rem := long.rem - take);
            Match([long], shorts, tol) == here + (if left.rem > tol then Match([left], shorts[1..], tol) else [])
  {
    assert shorts[0] in shorts;
    var take := Min(long.rem, shorts[0].rem);
    var left := long.(rem := long.rem - take);
    assert [long][1..] == [];
    if left.rem > tol {
      assert Advance([long], take, tol) == [left];
      assert Advance(shorts, take, tol) == shorts[1..];
    } else {
      assert Advance([long], take, tol) == [];
    }
  }

  ghost predicate AllWhole(takes: seq<Take>) {
    forall t :: t in takes ==> t.quantity == Whole(t)
  }

  /** Once something has been taken from the single long, what is left is taken whole unless it ends inside a short. */
  lemma {:induction false} RestIsWholeIff(long: Slot, shorts: seq<Slot>, tol: real)
    requires tol >= 0.0 && WholeSlots(shorts) && 0.0 <= long.rem < Abs(long.pos.Signed())
    ensures AllWhole(Match([long], shorts, tol)) <==> !EndsInside(long.rem, shorts, tol)
    decreases |shorts|
  {
    hide Match, EndsInside, RunsOut;
    if shorts == [] {
      assert Match([long], [], tol) == [] by { MatchNone(long, tol); }
      assert !EndsInside(long.rem, [], tol) by { EndsNowhere(long.rem, tol); }
    } else {
      assert shorts[0] in shorts && forall s :: s in shorts[1..] ==> s in shorts;
      OneLongStep(long, shorts, tol);
      EndsStep(long.rem, shorts, tol);
      if long.rem >= shorts[0].rem {
        var left := long.(rem := long.rem - shorts[0].rem);
        if left.rem > tol {
          RestIsWholeIff(left, shorts[1..], tol);
        } else {
          TooLittleToEnd(left.rem, shorts[1..], tol);
        }
      } else if long.rem > tol {
        var t := Take(long.pos, shorts[0].pos, long.rem);
        assert Match([long], shorts, tol) == [t];
        assert t in [t] && t.quantity != Whole(t);
      }
    }
  }

  lemma {:induction false} MatchNone(long: Slot, tol: real)
    requires tol >= 0.0
    ensures Match([long], [], tol) == []
  {
  }

  lemma {:induction false} EndsNowhere(have: real, tol: real)
    ensures !EndsInside(have, [], tol) && !RunsOut(have, [], tol)
  {
  }

  /** With a single long, every pair is whole exactly when the long does not run out inside a short after the first. */
  lemma {:induction false} OneLongWholeIff(long: Slot, shorts: seq<Slot>, tol: real)
    requires tol >= 0.0 && WholeSlots(shorts) && WholeSlots([long])
    ensures AllWhole(Match([long], shorts, tol)) <==> !RunsOut(long.rem, shorts, tol)
  {
    hide Match, EndsInside, RunsOut;
    assert long in [long];
    if shorts == [] {
      MatchNone(long, tol);
      EndsNowhere(long.rem, tol);
    } else {
      assert shorts[0] in shorts && forall s :: s in shorts[1..] ==> s in shorts;
      OneLongStep(long, shorts, tol);
      EndsStep(long.rem, shorts, tol);
      var left := long.(rem := long.rem - Min(long.rem, shorts[0].rem));
      if left.rem > tol {
        RestIsWholeIff(left, shorts[1..], tol);
      } else {
        TooLittleToEnd(long.rem - shorts[0].rem, shorts[1..], tol);
      }
    }
  }

  /** Where the long falls short of the others by no more than the tolerance, every pair is within the tolerance of whole. */
  lemma {:induction false} OneLongNearlyWhole(long: Slot, shorts: seq<Slot>, tol: real)
    requires tol >= 0.0 && WholeSlots(shorts) && 0.0 <= long.rem <= Abs(long.pos.Signed())
    requires SumBy(shorts, RemOf) <= long.rem + tol
    ensures forall t :: t in Match([long], shorts, tol) ==> 0.0 <= Whole(t) - t.quantity <= tol
    decreases |shorts|
  {
    hide Match;
    if shorts == [] {
      MatchNone(long, tol);
    } else {
      assert shorts[0] in shorts && forall s :: s in shorts[1..] ==> s in shorts;
      SumByNonNegative(shorts[1..], RemOf);
      OneLongStep(long, shorts, tol);
      var take := Min(long.rem, shorts[0].rem);
      var left := long.(rem := long.rem - take);
      if left.rem > tol {
        OneLongNearlyWhole(left, shorts[1..], tol);
      }
    }
  }

  /** Executed, a list of pairs gives no more of either side than the shorts it meets hold. */
  ghost predicate FitsShorts(takes: seq<Take>, id: string, shorts: seq<Slot>) {
    && LongTaken(Executed(takes), id) <= SumBy(shorts, RemOf)
    && (forall x :: x !in Ids(shorts) ==> ShortTaken(Executed(takes), x) == 0.0)
    && (forall s :: s in shorts ==> ShortTaken(Executed(takes), s.pos.id) <= s.rem)
  }

  lemma {:induction false} ExecutedAppend(t: Take, rest: seq<Take>, id: string)
    ensures LongTaken(Executed([t] + rest), id)
         == (if t.long.id == id then Whole(t) else 0.0) + LongTaken(Executed(rest), id)
    ensures ShortTaken(Executed([t] + rest), id)
         == (if t.short.id == id then Whole(t) else 0.0) + ShortTaken(Executed(rest), id)
  {
    assert ([t] + rest)[1..] == rest;
    var e := t.(quantity := Whole(t));
    assert ([e] + Executed(rest))[1..] == Executed(rest);
  }

  lemma {:induction false} FitsNext(t: Take, rest: seq<Take>, shorts: seq<Slot>)
    requires shorts != [] && WholeSlots(shorts) && DistinctSlots(shorts) && t.short == shorts[0].pos
    requires FitsShorts(rest, t.long.id, shorts[1..])
    ensures FitsShorts(rest, t.long.id, shorts) && FitsShorts([t] + rest, t.long.id, shorts)
  {
    hide Executed;
    assert shorts[0] in shorts && shorts == [shorts[0]] + shorts[1..];
    assert Ids(shorts) == {shorts[0].pos.id} + Ids(shorts[1..]);
    assert Whole(t) <= shorts[0].rem;
    forall id
      ensures ShortTaken(Executed([t] + rest), id)
           == (if t.short.id == id then Whole(t) else 0.0) + ShortTaken(Executed(rest), id)
    {
      ExecutedAppend(t, rest, id);
    }
    ExecutedAppend(t, rest, t.long.id);
    forall s | s in shorts
      ensures ShortTaken(Executed([t] + rest), s.pos.id) <= s.rem
      ensures ShortTaken(Executed(rest), s.pos.id) <= s.rem
    {
      if s in shorts[1..] {
        assert s.pos.id in Ids(shorts[1..]);
      } else {
        assert s == shorts[0];
      }
    }
  }

  /** Executed, the single long gives no more than the shorts hold, and no short gives more than it holds. */
  lemma {:induction false} OneLongExecuted(long: Slot, shorts: seq<Slot>, tol: real)
    requires tol >= 0.0 && WholeSlots(shorts) && DistinctSlots(shorts) && long.rem >= 0.0
    ensures FitsShorts(Match([long], shorts, tol), long.pos.id, shorts)
    decreases |shorts|
  {
    hide Match, FitsShorts;
    if shorts == [] {
      MatchNone(long, tol);
      FitsNothing(long.pos.id, shorts);
    } else {
      assert forall s :: s in shorts[1..] ==> s in shorts;
      assert shorts[0] in shorts;
      OneLongStep(long, shorts, tol);
      var take := Min(long.rem, shorts[0].rem);
      var left := long.(rem := long.rem - take);
      var t := Take(long.pos, shorts[0].pos, take);
      var rest := if left.rem > tol then Match([left], shorts[1..], tol) else [];
      if left.rem > tol {
        OneLongExecuted(left, shorts[1..], tol);
      } else {
        FitsNothing(long.pos.id, shorts[1..]);
      }
      FitsNext(t, rest, shorts);
      assert [] + rest == rest;
    }
  }

  lemma {:induction false} FitsNothing(id: string, shorts: seq<Slot>)
    requires WholeSlots(shorts)
    ensures FitsShorts([], id, shorts)
  {
    SumByNonNegative(shorts, RemOf);
  }

  /** With no dust among the shorts, a long too small for them runs out exactly when there are two or more. */
  lemma {:induction false} DustFreeRunsOut(have: real, others: seq<Slot>, tol: real)
    requires tol >= 0.0 && WholeSlots(others) && forall s :: s in others ==> s.rem > tol + tol
    requires SumBy(others, RemOf) <= have + tol
    ensures RunsOut(have, others, tol) <==> have < SumBy(others, RemOf) && |others| > 1
  {
    hide Held;
    var n := |others| - 1;
    if have < SumBy(others, RemOf) && n > 0 {
      HeldNext(others, n);
      assert others[n] in others;
      assert EndsAt(have, others, tol, n);
    }
    if RunsOut(have, others, tol) {
      var j :| 0 < j < |others| && EndsAt(have, others, tol, j);
      HeldNext(others, j);
    }
  }

  lemma {:induction false} HeldNext(slots: seq<Slot>, j: nat)
    requires j < |slots| && WholeSlots(slots)
    ensures Held(slots, j + 1) == Held(slots, j) + slots[j].rem
    ensures Held(slots, j + 1) <= SumBy(slots, RemOf)
    ensures j + 1 == |slots| ==> Held(slots, j + 1) == SumBy(slots, RemOf)
  {
    HeldLaws(slots, j + 1);
    assert slots[..j + 1] == slots[..j] + [slots[j]];
    SumByConcat(slots[..j], [slots[j]], RemOf);
    assert [slots[j]][1..] == [];
    assert SumBy([slots[j]], RemOf) == slots[j].rem;
    assert slots[..|slots|] == slots;
  }

  // ---- one short: the mirror -----------------------------------------------------------------

  function Mirror(takes: seq<Take>): seq<Take> {
    if takes == [] then [] else [Take(takes[0].short, takes[0].long, takes[0].quantity)] + Mirror(takes[1..])
  }

  lemma {:induction false} MirrorConcat(a: seq<Take>, b: seq<Take>)
    ensures Mirror(a + b) == Mirror(a) + Mirror(b)
  {
    if a == [] {
      assert a + b == b;
    } else {
      assert (a + b)[1..] == a[1..] + b;
      MirrorConcat(a[1..], b);
    }
  }

  /** The matching treats the two sides alike. */
  lemma {:induction false} MatchMirrors(longs: seq<Slot>, shorts: seq<Slot>, tol: real)
    requires tol >= 0.0
    ensures Match(shorts, longs, tol) == Mirror(Match(longs, shorts, tol))
    decreases |longs| + |shorts|
  {
    if longs != [] && shorts != [] {
      var take := Min(longs[0].rem, shorts[0].rem);
      MatchMirrors(Advance(longs, take, tol), Advance(shorts, take, tol), tol);
      var here := Step(longs, shorts, tol);
      MirrorConcat(here, Match(Advance(longs, take, tol), Advance(shorts, take, tol), tol));
      assert Mirror(here) == Step(shorts, longs, tol) by {
        assert here[..] == here;
        if here != [] {
          assert here[1..] == [];
        }
      }
    }
  }

  lemma {:induction false} MirrorTaken(takes: seq<Take>, id: string)
    ensures LongTaken(Mirror(takes), id) == ShortTaken(takes, id) && ShortTaken(Mirror(takes), id) == LongTaken(takes, id)
    ensures Executed(Mirror(takes)) == Mirror(Executed(takes))
  {
    if takes != [] {
      MirrorTaken(takes[1..], id);
      assert Mirror(takes)[1..] == Mirror(takes[1..]);
      assert Executed(takes)[1..] == Executed(takes[1..]);
    }
  }

  /** What holds of every take of the mirror holds, sides exchanged, of every take. */
  lemma {:induction false} MirrorMembers(takes: seq<Take>)
    ensures forall t :: t in takes <==> Take(t.short, t.long, t.quantity) in Mirror(takes)
    ensures AllWhole(takes) <==> AllWhole(Mirror(takes))
  {
    if takes != [] {
      assert takes == [takes[0]] + takes[1..];
      MirrorMembers(takes[1..]);
      var m := Take(takes[0].short, takes[0].long, takes[0].quantity);
      assert Mirror(takes) == [m] + Mirror(takes[1..]) && Whole(m) == Whole(takes[0]);
      AllWholeAppend([takes[0]], takes[1..]);
      AllWholeAppend([m], Mirror(takes[1..]));
    }
  }

  lemma {:induction false} AllWholeAppend(a: seq<Take>, b: seq<Take>)
    ensures AllWhole(a + b) <==> AllWhole(a) && AllWhole(b)
  {
    assert forall t :: t in a + b <==> t in a || t in b;
  }

  // ---- the planner's own takes ---------------------------------------------------------------

  /**
   A flatten with a single leg on one side, the longs if `long`: what the executor books of it. Every pair is within the
   tolerance of whole, so the single leg is over-closed by at most the tolerance and no other leg at all; every pair is exactly
   whole if and only if the single leg does not run out inside another after the first.
   */
  ghost predicate SingleLegBooked(legs: seq<Position>, long: bool) {
    var takes := FlattenTakes(legs);
    var one, others := SideSlots(legs, long), SideSlots(legs, !long);
    && |one| == 1
    && (forall t :: t in takes ==> 0.0 <= Whole(t) - t.quantity <= QTY_TOLERANCE)
    && (AllWhole(takes) <==> !RunsOut(one[0].rem, others, QTY_TOLERANCE))
    && TakenOn(takes, long, one[0].pos.id) <= one[0].rem + QTY_TOLERANCE
    && (forall s :: s in others ==> TakenOn(takes, !long, s.pos.id) <= s.rem)
  }

  /** What the executor takes of one leg of a side. */
  function TakenOn(takes: seq<Take>, long: bool, id: string): real {
    if long then LongTaken(Executed(takes), id) else ShortTaken(Executed(takes), id)
  }

  lemma {:induction false} SideIsWhole(legs: seq<Position>, long: bool)
    requires Distinct(legs)
    ensures WholeSlots(SideSlots(legs, long)) && DistinctSlots(SideSlots(legs, long))
  {
    SortedSide(legs, long);
  }

  lemma {:induction false} SingleLongFlatten(legs: seq<Position>)
    requires Distinct(legs) && |SideLegs(legs, true)| == 1 && Abs(SumBy(legs, SignedOf)) <= QTY_TOLERANCE
    ensures SingleLegBooked(legs, true)
  {
    hide SideSlots, SumBy, RunsOut, Match, WholeSlots, SideLegs, Executed;
    var one, shorts := SideSlots(legs, true), SideSlots(legs, false);
    SideIsWhole(legs, true);
    SideIsWhole(legs, false);
    SidesDiffer(legs);
    SidesOf(legs);
    assert one == [one[0]];
    SumOfSlot(one[0]);
    SlotIsWhole(one[0]);
    OneLongWholeIff(one[0], shorts, QTY_TOLERANCE);
    OneLongNearlyWhole(one[0], shorts, QTY_TOLERANCE);
    OneLongExecuted(one[0], shorts, QTY_TOLERANCE);
  }

  lemma {:induction false} MirrorNearlyWhole(takes: seq<Take>, tol: real)
    requires forall t :: t in Mirror(takes) ==> 0.0 <= Whole(t) - t.quantity <= tol
    ensures forall t :: t in takes ==> 0.0 <= Whole(t) - t.quantity <= tol
  {
    MirrorMembers(takes);
    forall t | t in takes
      ensures 0.0 <= Whole(t) - t.quantity <= tol
    {
      var m := Take(t.short, t.long, t.quantity);
      assert m in Mirror(takes) && Whole(m) == Whole(t);
    }
  }

  lemma {:induction false} MirrorFits(takes: seq<Take>, id: string, longs: seq<Slot>)
    requires FitsShorts(Mirror(takes), id, longs)
    ensures ShortTaken(Executed(takes), id) <= SumBy(longs, RemOf)
    ensures forall s :: s in longs ==> LongTaken(Executed(takes), s.pos.id) <= s.rem
  {
    hide Mirror, Executed, LongTaken, ShortTaken, SumBy;
    MirrorTaken(takes, id);
    MirrorTaken(Executed(takes), id);
    forall s | s in longs
      ensures LongTaken(Executed(takes), s.pos.id) <= s.rem
    {
      MirrorTaken(Executed(takes), s.pos.id);
    }
  }

  lemma {:induction false} SingleShortFlatten(legs: seq<Position>)
    requires Distinct(legs) && |SideLegs(legs, false)| == 1 && Abs(SumBy(legs, SignedOf)) <= QTY_TOLERANCE
    ensures SingleLegBooked(legs, false)
  {
    hide SideSlots, SumBy, RunsOut, Match, WholeSlots, SideLegs, Executed, FitsShorts, Mirror, AllWhole;
    var longs, one := SideSlots(legs, true), SideSlots(legs, false);
    SideIsWhole(legs, true);
    SideIsWhole(legs, false);
    SidesDiffer(legs);
    SidesOf(legs);
    assert one == [one[0]];
    SumOfSlot(one[0]);
    SlotIsWhole(one[0]);
    OneLongWholeIff(one[0], longs, QTY_TOLERANCE);
    OneLongNearlyWhole(one[0], longs, QTY_TOLERANCE);
    OneLongExecuted(one[0], longs, QTY_TOLERANCE);
    var takes := FlattenTakes(legs);
    MatchMirrors(longs, one, QTY_TOLERANCE);
    MirrorMembers(takes);
    MirrorNearlyWhole(takes, QTY_TOLERANCE);
    MirrorFits(takes, one[0].pos.id, longs);
  }

  lemma {:induction false} SidesOf(legs: seq<Position>)
    ensures FlattenTakes(legs) == Match(SideSlots(legs, true), SideSlots(legs, false), QTY_TOLERANCE)
    ensures |SideSlots(legs, true)| == |SideLegs(legs, true)| && |SideSlots(legs, false)| == |SideLegs(legs, false)|
  {
  }

  lemma {:induction false} SumOfSlot(s: Slot)
    ensures SumBy([s], RemOf) == s.rem
  {
    assert [s][1..] == [];
  }

  lemma {:induction false} SlotIsWhole(s: Slot)
    requires WholeSlots([s])
    ensures s.rem == Abs(s.pos.Signed()) && s.rem > 0.0
  {
    assert s in [s];
  }

  /** When the single leg holds at least what the others do together, every pair is whole. */
  lemma {:induction false} LargeEnoughIsWhole(have: real, others: seq<Slot>, tol: real)
    requires WholeSlots(others) && have >= SumBy(others, RemOf)
    ensures !RunsOut(have, others, tol)
  {
    hide Held;
    forall j: nat | j < |others|
      ensures !EndsAt(have, others, tol, j)
    {
      HeldNext(others, j);
    }
  }

  /** What the single leg of a side holds beyond all the others: the net of the book, seen from its side. */
  function Ahead(legs: seq<Position>, long: bool): real {
    if long then SumBy(legs, SignedOf) else -SumBy(legs, SignedOf)
  }

  /**
   So a single leg at least as large as the others together is executed as planned; and on a book where no other leg is within
   two tolerances of flat, a smaller one is executed as planned exactly when it meets a single other.
   */
  lemma {:induction false} SingleLegWholeIff(legs: seq<Position>, long: bool)
    requires Distinct(legs) && |SideLegs(legs, long)| == 1 && Abs(SumBy(legs, SignedOf)) <= QTY_TOLERANCE
    ensures Ahead(legs, long) >= 0.0 ==> AllWhole(FlattenTakes(legs))
    ensures (forall s :: s in SideSlots(legs, !long) ==> s.rem > QTY_TOLERANCE + QTY_TOLERANCE) ==>
              (AllWhole(FlattenTakes(legs)) <==> Ahead(legs, long) >= 0.0 || |SideLegs(legs, !long)| <= 1)
  {
    hide FlattenTakes, SideSlots, SideLegs, SumBy, RunsOut, WholeSlots, Distinct, AllWhole;
    if long {
      SingleLongFlatten(legs);
    } else {
      SingleShortFlatten(legs);
    }
    var one, others := SideSlots(legs, long), SideSlots(legs, !long);
    SideIsWhole(legs, !long);
    SidesDiffer(legs);
    SidesOf(legs);
    assert one == [one[0]];
    SumOfSlot(one[0]);
    if Ahead(legs, long) >= 0.0 {
      LargeEnoughIsWhole(one[0].rem, others, QTY_TOLERANCE);
    }
    if forall s :: s in others ==> s.rem > QTY_TOLERANCE + QTY_TOLERANCE {
      DustFreeRunsOut(one[0].rem, others, QTY_TOLERANCE);
    }
  }
}
