/**
 Which pairs of a flatten are not whole (backend/api/contra_close.py:716-749, contra_execute.py:97-108). Laid end to end in the
 order of their ids, the legs of a side are stretches of one line, and the two-cursor matching pairs the stretches that
 overlap. A pair falls short of its smaller leg exactly when the two stretches cross, neither within the other.
 */
module ContraCrossing {
  import opened Prelude
  import opened Netting
  import opened ContraClose
  import opened ContraFlatten
  import opened ContraPlanProofs
  import opened ContraWholeBook
  import opened ContraExecuteProofs
  import opened ContraExecuted
  import opened ContraSingleLeg
  import opened ContraLands

  // ---- at most two of a leg's pairs ----------------------------------------------------------

  /** How many of a long's pairs, or of a short's, are not whole. */
  function NotWhole(takes: seq<Take>, long: bool, id: string): nat {
    if takes == [] then 0
    else
      var t := takes[0];
      (if (if long then t.long.id else t.short.id) == id && t.quantity != Whole(t) then 1 else 0) + NotWhole(takes[1..], long, id)
  }

  /** Every leg but the one under the cursor is still whole. */
  predicate FullTail(slots: seq<Slot>) {
    && (forall s :: s in slots ==> 0.0 <= s.rem <= Abs(s.pos.Signed()))
    && (forall i :: 1 <= i < |slots| ==> slots[i].rem == Abs(slots[i].pos.Signed()))
  }

  predicate HeadFull(slots: seq<Slot>) {
    slots != [] ==> slots[0].rem == Abs(slots[0].pos.Signed())
  }

  lemma {:induction false} AdvanceFull(slots: seq<Slot>, take: real, tol: real)
    requires slots != [] && FullTail(slots) && 0.0 <= take <= slots[0].rem
    ensures FullTail(Advance(slots, take, tol))
    ensures slots[0].rem - take <= tol ==> HeadFull(Advance(slots, take, tol))
  {
    var a := Advance(slots, take, tol);
    assert slots[0] in slots && forall s :: s in slots[1..] ==> s in slots;
    forall i | 1 <= i < |a|
      ensures a[i].rem == Abs(a[i].pos.Signed())
    {
      assert a[i] == slots[i] || a[i] == slots[i + 1];
    }
  }

  lemma {:induction false} NoneNotWhole(longs: seq<Slot>, shorts: seq<Slot>, tol: real, id: string)
    requires tol >= 0.0 && id !in Ids(longs)
    ensures NotWhole(Match(longs, shorts, tol), true, id) == 0
  {
    TakesAreFromSlots(longs, shorts, tol);
    var takes := Match(longs, shorts, tol);
    forall t | t in takes
      ensures t.long.id != id
    {
      var s :| s in longs && s.pos == t.long;
    }
    NoneOf(takes, id);
  }

  lemma {:induction false} NoneOf(takes: seq<Take>, id: string)
    requires forall t :: t in takes ==> t.long.id != id
    ensures NotWhole(takes, true, id) == 0
  {
    if takes != [] {
      assert takes == [takes[0]] + takes[1..];
      NoneOf(takes[1..], id);
    }
  }

  lemma {:induction false} NotWholeConcat(a: seq<Take>, b: seq<Take>, long: bool, id: string)
    ensures NotWhole(a + b, long, id) == NotWhole(a, long, id) + NotWhole(b, long, id)
  {
    if a == [] {
      assert a + b == b;
    } else {
      assert (a + b)[1..] == a[1..] + b;
      NotWholeConcat(a[1..], b, long, id);
    }
  }

  /** A pair that leaves its long something to give closes the whole of a short nothing was taken of before. */
  lemma {:induction false} StepNotWhole(longs: seq<Slot>, shorts: seq<Slot>, tol: real, id: string)
    requires tol >= 0.0 && longs != [] && shorts != [] && FullTail(longs) && FullTail(shorts)
    ensures NotWhole(Step(longs, shorts, tol), true, id) <= 1
    ensures longs[0].pos.id != id ==> NotWhole(Step(longs, shorts, tol), true, id) == 0
    ensures var take := Min(longs[0].rem, shorts[0].rem);
            longs[0].rem - take > tol && HeadFull(shorts) ==> NotWhole(Step(longs, shorts, tol), true, id) == 0
  {
    assert longs[0] in longs && shorts[0] in shorts;
    var here := Step(longs, shorts, tol);
    if here != [] {
      assert here[1..] == [];
      assert NotWhole(here[1..], true, id) == 0;
    }
  }

  /** So no long has more than two pairs that are not whole, its first and its last. */
  lemma {:induction false} FewNotWhole(longs: seq<Slot>, shorts: seq<Slot>, tol: real, id: string)
    requires tol >= 0.0 && DistinctSlots(longs) && FullTail(longs) && FullTail(shorts)
    ensures NotWhole(Match(longs, shorts, tol), true, id) <= 2
    ensures longs != [] && longs[0].pos.id == id && HeadFull(shorts) ==> NotWhole(Match(longs, shorts, tol), true, id) <= 1
    decreases |longs| + |shorts|
  {
    hide NotWhole, FullTail, HeadFull, DistinctSlots;
    if longs == [] || shorts == [] {
      MatchesNothing(longs, shorts, tol, id);
    } else {
      var take := Min(longs[0].rem, shorts[0].rem);
      SlotsHaveRoom(longs);
      SlotsHaveRoom(shorts);
      var ls, ss := Advance(longs, take, tol), Advance(shorts, take, tol);
      AdvanceFull(longs, take, tol);
      AdvanceFull(shorts, take, tol);
      AdvanceKeeps(longs, take, tol);
      StepNotWhole(longs, shorts, tol, id);
      NotWholeConcat(Step(longs, shorts, tol), Match(ls, ss, tol), true, id);
      FewNotWhole(ls, ss, tol, id);
      if longs[0].pos.id == id && longs[0].rem - take <= tol {
        NoneNotWhole(ls, ss, tol, id);
      }
    }
  }

  lemma {:induction false} SlotsHaveRoom(slots: seq<Slot>)
    requires slots != [] && FullTail(slots)
    ensures NonNegative(slots) && slots[0].rem >= 0.0
  {
    assert slots[0] in slots;
  }

  lemma {:induction false} MatchesNothing(longs: seq<Slot>, shorts: seq<Slot>, tol: real, id: string)
    requires tol >= 0.0 && (longs == [] || shorts == [])
    ensures Match(longs, shorts, tol) == [] && NotWhole([], true, id) == 0
  {
  }

  lemma {:induction false} MirrorNotWhole(takes: seq<Take>, id: string)
    ensures NotWhole(Mirror(takes), true, id) == NotWhole(takes, false, id)
  {
    if takes != [] {
      MirrorNotWhole(takes[1..], id);
      assert Mirror(takes)[1..] == Mirror(takes[1..]);
    }
  }

  lemma {:induction false} SideIsFull(legs: seq<Position>, long: bool)
    requires Distinct(legs)
    ensures DistinctSlots(SideSlots(legs, long)) && FullTail(SideSlots(legs, long))
  {
    hide SideSlots, Distinct;
    SortedSide(legs, long);
  }

  lemma {:induction false} FlattenNotWhole(legs: seq<Position>, long: bool, id: string)
    requires Distinct(legs)
    ensures NotWhole(FlattenTakes(legs), long, id) <= 2
  {
    hide SideSlots, Match, NotWhole, FullTail, Distinct, DistinctSlots;
    var longs, shorts := SideSlots(legs, true), SideSlots(legs, false);
    SideIsFull(legs, true);
    SideIsFull(legs, false);
    SidesOf(legs);
    if long {
      FewNotWhole(longs, shorts, QTY_TOLERANCE, id);
    } else {
      FewNotWhole(shorts, longs, QTY_TOLERANCE, id);
      MatchMirrors(longs, shorts, QTY_TOLERANCE);
      MirrorNotWhole(FlattenTakes(legs), id);
    }
  }

  /** The pairs of one leg of size `size`: each takes something, and makes no more than the leg of it. */
  ghost predicate PairsOfLeg(takes: seq<Take>, long: bool, id: string, size: real) {
    forall t :: t in takes ==>
      && 0.0 < t.quantity <= Whole(t)
      && (if long then t.short.id else t.long.id) != id
      && ((if long then t.long.id else t.short.id) == id ==> Whole(t) <= size)
  }

  lemma {:induction false} ExcessByCount(takes: seq<Take>, long: bool, id: string, size: real)
    requires PairsOfLeg(takes, long, id, size) && size > 0.0
    ensures NotWhole(takes, long, id) == 0 ==> Excess(takes, id) == 0.0
    ensures NotWhole(takes, long, id) == 1 ==> Excess(takes, id) < size
    ensures NotWhole(takes, long, id) == 2 ==> Excess(takes, id) < size + size
  {
    if takes != [] {
      assert takes[0] in takes && forall t :: t in takes[1..] ==> t in takes;
      ExcessByCount(takes[1..], long, id, size);
    }
  }

  /** Of any flatten: a leg the executor takes past flat is past it by less than twice what it held. */
  lemma {:induction false} PastByLessThanTwice(r: Read, instrument: string, p: Position)
    requires NettingBook(r.positions) && FlattenAt(r, instrument) && p in LegsOf(r.positions, instrument)
    ensures var q := p.Signed() + SignedAt(OutcomeLegs(ExecutedAt(r, instrument)), p.id);
            Past(p, q) ==> Abs(q) < Abs(p.Signed()) + Abs(p.Signed())
    ensures NotWhole(TakesAt(r, instrument), IsLong(p), p.id) <= 2
  {
    hide LegsOf, NettingBook, Distinct, FlattenTakes, OutcomeAt, SignedAt, SumBy, ExecutedAt, FlattenAt, Excess, Left, NotWhole,
      PairsOfLeg;
    var legs, takes := LegsOf(r.positions, instrument), TakesAt(r, instrument);
    LegsReady(r.positions, instrument);
    FlattenAsExecuted(r, instrument);
    FlattenFlipsIff(r, instrument, p);
    FlattenNotWhole(legs, IsLong(p), p.id);
    if p.Signed() != 0.0 {
      LegPairs(instrument, legs, p);
      ExcessByCount(takes, IsLong(p), p.id, Abs(p.Signed()));
    }
  }

  lemma {:induction false} LegPairs(instrument: string, legs: seq<Position>, p: Position)
    requires Distinct(legs) && (forall x :: x in legs ==> x.instrument == instrument) && p in legs && p.Signed() != 0.0
    ensures PairsOfLeg(FlattenTakes(legs), IsLong(p), p.id, Abs(p.Signed()))
  {
    hide Distinct, FlattenTakes, SideSlots, Match;
    var takes := FlattenTakes(legs);
    SidesOf(legs);
    TakesAreFromSlots(SideSlots(legs, true), SideSlots(legs, false), QTY_TOLERANCE);
    forall t | t in takes
      ensures 0.0 < t.quantity <= Whole(t)
      ensures (if IsLong(p) then t.short.id else t.long.id) != p.id
      ensures (if IsLong(p) then t.long.id else t.short.id) == p.id ==> Whole(t) <= Abs(p.Signed())
    {
      TakeFacts(instrument, legs, t);
      if t.long.id == p.id {
        SameId(legs, t.long, p);
      }
      if t.short.id == p.id {
        SameId(legs, t.short, p);
      }
    }
  }

  // ---- stretches of one line -----------------------------------------------------------------

  ghost predicate Positive(slots: seq<Slot>) {
    forall s :: s in slots ==> s.rem > 0.0
  }

  /** What the `i`th stretch of the one side and the `j`th of the other have in common; negative when they are apart. */
  function Common(longs: seq<Slot>, shorts: seq<Slot>, i: nat, j: nat): real
    requires i < |longs| && j < |shorts|
  {
    Min(Held(longs, i + 1), Held(shorts, j + 1)) - Max(Held(longs, i), Held(shorts, j))
  }

  ghost predicate IsCommon(longs: seq<Slot>, shorts: seq<Slot>, t: Take, i: nat, j: nat) {
    && i < |longs| && j < |shorts| && Common(longs, shorts, i, j) > 0.0
    && t == Take(longs[i].pos, shorts[j].pos, Common(longs, shorts, i, j))
  }

  lemma {:induction false} HeldHead(slots: seq<Slot>, j: nat)
    requires j < |slots|
    ensures Held(slots, 0) == 0.0
    ensures Held(slots, j + 1) == slots[0].rem + Held(slots[1..], j)
  {
    assert slots[..j + 1][1..] == slots[1..][..j];
  }

  lemma {:induction false} HeldGrows(slots: seq<Slot>, j: nat)
    requires j <= |slots| && Positive(slots)
    ensures Held(slots, j) >= 0.0
    ensures j > 0 ==> Held(slots, j) >= slots[0].rem
  {
    if j > 0 {
      assert slots[0] in slots && forall s :: s in slots[1..] ==> s in slots;
      HeldHead(slots, j - 1);
      HeldGrows(slots[1..], j - 1);
    }
  }

  /** How many stretches are behind once `take` has been given from the first. */
  function Behind(slots: seq<Slot>, take: real): nat
    requires slots != []
  {
    if slots[0].rem <= take then 1 else 0
  }

  lemma {:induction false} AdvanceHeld(slots: seq<Slot>, take: real, j: nat)
    requires slots != [] && Positive(slots) && 0.0 < take <= slots[0].rem
    requires j <= |Advance(slots, take, 0.0)|
    ensures var a, d := Advance(slots, take, 0.0), Behind(slots, take);
            && Positive(a) && |a| + d == |slots|
            && (j > 0 || d == 1 ==> Held(a, j) == Held(slots, j + d) - take)
            && (j < |a| ==> a[j].pos == slots[j + d].pos)
  {
    var a := Advance(slots, take, 0.0);
    assert slots[0] in slots && forall s :: s in slots[1..] ==> s in slots;
    if slots[0].rem <= take {
      HeldHead(slots, j);
    } else if j > 0 {
      assert a[1..] == slots[1..];
      HeldHead(a, j - 1);
      HeldHead(slots, j - 1);
    }
  }

  /** What is left of the two lines has in common what the lines had, further on. */
  lemma {:induction false} CommonShifts(longs: seq<Slot>, shorts: seq<Slot>, i: nat, j: nat)
    requires longs != [] && shorts != [] && Positive(longs) && Positive(shorts)
    requires var take := Min(longs[0].rem, shorts[0].rem);
             take > 0.0 && i < |Advance(longs, take, 0.0)| && j < |Advance(shorts, take, 0.0)|
    ensures var take := Min(longs[0].rem, shorts[0].rem);
            var ls, ss := Advance(longs, take, 0.0), Advance(shorts, take, 0.0);
            var d, e := Behind(longs, take), Behind(shorts, take);
            && i + d < |longs| && j + e < |shorts|
            && Common(ls, ss, i, j) == Common(longs, shorts, i + d, j + e)
  {
    hide Held, Advance;
    var take := Min(longs[0].rem, shorts[0].rem);
    var ls, ss := Advance(longs, take, 0.0), Advance(shorts, take, 0.0);
    AdvanceHeld(longs, take, i);
    AdvanceHeld(longs, take, i + 1);
    AdvanceHeld(shorts, take, j);
    AdvanceHeld(shorts, take, j + 1);
    HeldGrows(ls, i);
    HeldGrows(ss, j);
    HeldZero(ls);
    HeldZero(ss);
    HeldZero(longs);
    HeldZero(shorts);
  }

  lemma {:induction false} HeldZero(slots: seq<Slot>)
    ensures Held(slots, 0) == 0.0
  {
  }

  /** The first two stretches have the smaller of them in common, and one of the two nothing further on. */
  lemma {:induction false} FirstCommon(longs: seq<Slot>, shorts: seq<Slot>)
    requires longs != [] && shorts != [] && Positive(longs) && Positive(shorts)
    ensures Common(longs, shorts, 0, 0) == Min(longs[0].rem, shorts[0].rem)
    ensures forall j :: 0 < j < |shorts| && longs[0].rem <= shorts[0].rem ==> Common(longs, shorts, 0, j) <= 0.0
    ensures forall i :: 0 < i < |longs| && shorts[0].rem <= longs[0].rem ==> Common(longs, shorts, i, 0) <= 0.0
  {
    hide Held;
    HeldHead(longs, 0);
    HeldHead(shorts, 0);
    HeldZero(longs[1..]);
    HeldZero(shorts[1..]);
    forall j: nat | 0 < j < |shorts|
      ensures Held(shorts, j) >= shorts[0].rem
    {
      HeldGrows(shorts, j);
    }
    forall i: nat | 0 < i < |longs|
      ensures Held(longs, i) >= longs[0].rem
    {
      HeldGrows(longs, i);
    }
  }

  /** With no tolerance, the pairs of the matching are what the stretches have in common, and all of it. */
  lemma {:induction false} TakesAreCommon(longs: seq<Slot>, shorts: seq<Slot>, t: Take)
    requires Positive(longs) && Positive(shorts)
    ensures t in Match(longs, shorts, 0.0) <==> exists i: nat, j: nat :: IsCommon(longs, shorts, t, i, j)
    decreases |longs| + |shorts|
  {
    hide IsCommon, Positive, Common, Held;
    if longs == [] || shorts == [] {
      CommonOfNothing(longs, shorts, t);
    } else {
      var take := Min(longs[0].rem, shorts[0].rem);
      BothPositive(longs, shorts);
      var ls, ss := Advance(longs, take, 0.0), Advance(shorts, take, 0.0);
      AdvanceHeld(longs, take, 0);
      AdvanceHeld(shorts, take, 0);
      TakesAreCommon(ls, ss, t);
      CommonBackward(longs, shorts, t);
      if i: nat, j: nat :| IsCommon(longs, shorts, t, i, j) {
        CommonForward(longs, shorts, t, i, j);
      }
      hide Match;
      FirstOfMatch(longs, shorts);
    }
  }

  lemma {:induction false} FirstOfMatch(longs: seq<Slot>, shorts: seq<Slot>)
    requires longs != [] && shorts != [] && Min(longs[0].rem, shorts[0].rem) > 0.0
    ensures var take := Min(longs[0].rem, shorts[0].rem);
            Match(longs, shorts, 0.0) == [Take(longs[0].pos, shorts[0].pos, take)]
                                         + Match(Advance(longs, take, 0.0), Advance(shorts, take, 0.0), 0.0)
  {
  }

  lemma {:induction false} BothPositive(longs: seq<Slot>, shorts: seq<Slot>)
    requires longs != [] && shorts != [] && Positive(longs) && Positive(shorts)
    ensures Min(longs[0].rem, shorts[0].rem) > 0.0
  {
    assert longs[0] in longs && shorts[0] in shorts;
  }

  lemma {:induction false} CommonOfNothing(longs: seq<Slot>, shorts: seq<Slot>, t: Take)
    requires longs == [] || shorts == []
    ensures Match(longs, shorts, 0.0) == [] && forall i: nat, j: nat :: !IsCommon(longs, shorts, t, i, j)
  {
  }

  /** A common stretch is the first two's, or one of what is left. */
  lemma {:induction false} CommonForward(longs: seq<Slot>, shorts: seq<Slot>, t: Take, i: nat, j: nat)
    requires longs != [] && shorts != [] && Positive(longs) && Positive(shorts) && IsCommon(longs, shorts, t, i, j)
    ensures var take := Min(longs[0].rem, shorts[0].rem);
            var ls, ss := Advance(longs, take, 0.0), Advance(shorts, take, 0.0);
            t == Take(longs[0].pos, shorts[0].pos, take) || exists k: nat, n: nat :: IsCommon(ls, ss, t, k, n)
  {
    hide Positive, Held, Common, Advance;
    var take := Min(longs[0].rem, shorts[0].rem);
    var ls, ss := Advance(longs, take, 0.0), Advance(shorts, take, 0.0);
    var d, e := Behind(longs, take), Behind(shorts, take);
    BothPositive(longs, shorts);
    FirstCommon(longs, shorts);
    AdvanceHeld(longs, take, 0);
    AdvanceHeld(shorts, take, 0);
    if i >= d && j >= e {
      AdvanceHeld(longs, take, i - d);
      AdvanceHeld(shorts, take, j - e);
      CommonShifts(longs, shorts, i - d, j - e);
      assert IsCommon(ls, ss, t, i - d, j - e);
    }
  }

  lemma {:induction false} CommonBackward(longs: seq<Slot>, shorts: seq<Slot>, t: Take)
    requires longs != [] && shorts != [] && Positive(longs) && Positive(shorts)
    ensures var take := Min(longs[0].rem, shorts[0].rem);
            var ls, ss := Advance(longs, take, 0.0), Advance(shorts, take, 0.0);
            && (t == Take(longs[0].pos, shorts[0].pos, take) ==> IsCommon(longs, shorts, t, 0, 0))
            && ((exists k: nat, n: nat :: IsCommon(ls, ss, t, k, n)) ==> exists i: nat, j: nat :: IsCommon(longs, shorts, t, i, j))
  {
    hide Positive, Held, Common, Advance;
    var take := Min(longs[0].rem, shorts[0].rem);
    var ls, ss := Advance(longs, take, 0.0), Advance(shorts, take, 0.0);
    var d, e := Behind(longs, take), Behind(shorts, take);
    BothPositive(longs, shorts);
    FirstCommon(longs, shorts);
    if k: nat, n: nat :| IsCommon(ls, ss, t, k, n) {
      AdvanceHeld(longs, take, k);
      AdvanceHeld(shorts, take, n);
      CommonShifts(longs, shorts, k, n);
      assert IsCommon(longs, shorts, t, k + d, n + e);
    }
  }

  // ---- whole shares --------------------------------------------------------------------------

  /** The stretches overlap, and each reaches outside the other. */
  predicate Crosses(mine: seq<Slot>, others: seq<Slot>, i: nat, j: nat) {
    && i < |mine| && j < |others|
    && var a, b, c, d := Held(mine, i), Held(mine, i + 1), Held(others, j), Held(others, j + 1);
       (a < c < b < d) || (c < a < d < b)
  }

  predicate CrossesSome(mine: seq<Slot>, others: seq<Slot>, i: nat) {
    exists j :: 0 <= j < |others| && Crosses(mine, others, i, j)
  }

  lemma {:induction false} HeldOne(slots: seq<Slot>, i: nat)
    requires i < |slots|
    ensures Held(slots, i + 1) == Held(slots, i) + slots[i].rem
  {
    assert slots[..i + 1] == slots[..i] + [slots[i]];
    SumByConcat(slots[..i], [slots[i]], RemOf);
    assert [slots[i]][1..] == [];
    assert SumBy([slots[i]], RemOf) == slots[i].rem;
  }

  /** A pair of two whole legs falls short of the smaller exactly when their stretches cross. */
  lemma {:induction false} ShortOfWholeIff(longs: seq<Slot>, shorts: seq<Slot>, t: Take, i: nat, j: nat)
    requires WholeSlots(longs) && WholeSlots(shorts) && IsCommon(longs, shorts, t, i, j)
    ensures t.quantity != Whole(t) <==> Crosses(longs, shorts, i, j)
    ensures Crosses(longs, shorts, i, j) <==> Crosses(shorts, longs, j, i)
  {
    hide Held;
    HeldOne(longs, i);
    HeldOne(shorts, j);
    assert longs[i] in longs && shorts[j] in shorts;
  }

  lemma {:induction false} CrossingIsCommon(longs: seq<Slot>, shorts: seq<Slot>, i: nat, j: nat)
    requires Crosses(longs, shorts, i, j)
    ensures Common(longs, shorts, i, j) > 0.0
    ensures IsCommon(longs, shorts, Take(longs[i].pos, shorts[j].pos, Common(longs, shorts, i, j)), i, j)
    ensures Crosses(shorts, longs, j, i)
  {
    hide Held;
  }

  lemma {:induction false} LaterSlot(slots: seq<Slot>, a: nat, b: nat)
    requires DistinctSlots(slots) && a < b < |slots|
    ensures slots[a].pos.id != slots[b].pos.id
  {
    assert slots[1..][b - 1] == slots[b];
    if a == 0 {
      assert slots[b] in slots[1..];
    } else {
      LaterSlot(slots[1..], a - 1, b - 1);
    }
  }

  lemma {:induction false} SameSlot(slots: seq<Slot>, a: nat, b: nat)
    requires DistinctSlots(slots) && a < |slots| && b < |slots| && slots[a].pos.id == slots[b].pos.id
    ensures a == b
  {
    hide DistinctSlots;
    if a < b {
      LaterSlot(slots, a, b);
    } else if b < a {
      LaterSlot(slots, b, a);
    }
  }

  /** The sides of a flatten of whole shares, as stretches: the planner's takes are what they have in common. */
  lemma {:induction false} FlattenIsCommon(legs: seq<Position>, t: Take)
    requires Distinct(legs) && WholeShares(legs)
    ensures t in FlattenTakes(legs)
       <==> exists i: nat, j: nat :: IsCommon(SideSlots(legs, true), SideSlots(legs, false), t, i, j)
  {
    hide SideSlots, Distinct, Match, WholeShares, IsCommon;
    var longs, shorts := SideSlots(legs, true), SideSlots(legs, false);
    SidesOf(legs);
    SideIsWhole(legs, true);
    SideIsWhole(legs, false);
    SideOfWhole(legs, true);
    SideOfWhole(legs, false);
    MatchOfWhole(longs, shorts, QTY_TOLERANCE);
    TakesAreCommon(longs, shorts, t);
  }

  /** A common stretch that leg `i` of the side has part in, and that is short of whole, crosses it. */
  lemma {:induction false} ShortTakeCrosses(legs: seq<Position>, long: bool, i: nat, t: Take)
    requires Distinct(legs) && WholeShares(legs) && i < |SideSlots(legs, long)|
    requires t in FlattenTakes(legs) && t.quantity != Whole(t)
    requires (if long then t.long.id else t.short.id) == SideSlots(legs, long)[i].pos.id
    ensures CrossesSome(SideSlots(legs, long), SideSlots(legs, !long), i)
  {
    hide SideSlots, Distinct, FlattenTakes, WholeShares, Crosses, DistinctSlots, WholeSlots, Whole;
    var longs, shorts := SideSlots(legs, true), SideSlots(legs, false);
    SideIsWhole(legs, true);
    SideIsWhole(legs, false);
    FlattenIsCommon(legs, t);
    var a: nat, b: nat :| IsCommon(longs, shorts, t, a, b);
    ShortOfWholeIff(longs, shorts, t, a, b);
    SameSlot(SideSlots(legs, long), i, if long then a else b);
  }

  lemma {:induction false} CrossingIsShort(legs: seq<Position>, long: bool, i: nat, j: nat) returns (t: Take)
    requires Distinct(legs) && WholeShares(legs) && Crosses(SideSlots(legs, long), SideSlots(legs, !long), i, j)
    ensures i < |SideSlots(legs, long)|
    ensures t in FlattenTakes(legs) && t.quantity != Whole(t)
    ensures (if long then t.long else t.short) == SideSlots(legs, long)[i].pos
  {
    hide SideSlots, Distinct, FlattenTakes, WholeShares, WholeSlots, Whole, Held, Common;
    var longs, shorts := SideSlots(legs, true), SideSlots(legs, false);
    SideIsWhole(legs, true);
    SideIsWhole(legs, false);
    CrossingIsCommon(SideSlots(legs, long), SideSlots(legs, !long), i, j);
    var a, b := if long then i else j, if long then j else i;
    CrossingIsCommon(longs, shorts, a, b);
    t := Take(longs[a].pos, shorts[b].pos, Common(longs, shorts, a, b));
    FlattenIsCommon(legs, t);
    ShortOfWholeIff(longs, shorts, t, a, b);
  }

  /**
   Of whole shares, from the book alone and before anything is planned: laid end to end in the order of their ids, longs against
   shorts, a leg ends past flat under the executor exactly when its stretch crosses one of the other side's.
   */
  lemma {:induction false} FlipsIffCrossing(r: Read, instrument: string, long: bool, i: nat)
    requires NettingBook(r.positions) && FlattenAt(r, instrument) && WholeShares(LegsOf(r.positions, instrument))
    requires i < |SideSlots(LegsOf(r.positions, instrument), long)|
    ensures var legs := LegsOf(r.positions, instrument);
            var p := SideSlots(legs, long)[i].pos;
            && p in legs
            && (Past(p, p.Signed() + SignedAt(OutcomeLegs(ExecutedAt(r, instrument)), p.id))
                <==> CrossesSome(SideSlots(legs, long), SideSlots(legs, !long), i))
  {
    hide LegsOf, NettingBook, Distinct, FlattenTakes, OutcomeAt, SignedAt, ExecutedAt, FlattenAt, WholeShares, SideSlots, Past,
      Crosses, Whole;
    var legs := LegsOf(r.positions, instrument);
    LegsReady(r.positions, instrument);
    var p := SlotLeg(legs, long, i);
    WholeShareFlipsIff(r, instrument, p);
    forall t | t in FlattenTakes(legs) && Takes(t, p)
      ensures (if long then t.long.id else t.short.id) == p.id
    {
      OnItsSide(instrument, legs, long, p, t);
    }
    if t :| t in FlattenTakes(legs) && Takes(t, p) && t.quantity != Whole(t) {
      ShortTakeCrosses(legs, long, i, t);
    }
    if CrossesSome(SideSlots(legs, long), SideSlots(legs, !long), i) {
      var j :| 0 <= j < |SideSlots(legs, !long)| && Crosses(SideSlots(legs, long), SideSlots(legs, !long), i, j);
      var t := CrossingIsShort(legs, long, i, j);
      assert Takes(t, p);
    }
  }

  lemma {:induction false} SlotLeg(legs: seq<Position>, long: bool, i: nat) returns (p: Position)
    requires Distinct(legs) && i < |SideSlots(legs, long)|
    ensures p == SideSlots(legs, long)[i].pos && p in legs && (if long then IsLong(p) else IsShort(p))
  {
    hide SideSlots, Distinct;
    SortedSide(legs, long);
    assert SideSlots(legs, long)[i] in SideSlots(legs, long);
    p := SideSlots(legs, long)[i].pos;
  }

  lemma {:induction false} OnItsSide(instrument: string, legs: seq<Position>, long: bool, p: Position, t: Take)
    requires Distinct(legs) && (forall x :: x in legs ==> x.instrument == instrument) && p in legs
    requires (if long then IsLong(p) else IsShort(p)) && t in FlattenTakes(legs) && Takes(t, p)
    ensures (if long then t.long.id else t.short.id) == p.id
  {
    hide Distinct, FlattenTakes;
    TakeFacts(instrument, legs, t);
    if t.long.id == p.id {
      SameId(legs, t.long, p);
    }
    if t.short.id == p.id {
      SameId(legs, t.short, p);
    }
  }
}
