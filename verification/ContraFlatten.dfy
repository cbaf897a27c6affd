/**
 The n-long by m-short flatten (backend/api/contra_close.py:716-749): what the two-cursor matching takes
 from every leg, whatever the tolerance, and why the pairing it picks does not matter to the money.
 */
module ContraFlatten {
  import opened Prelude
  import opened Netting
  import opened ContraClose

  // ---- totals per leg ------------------------------------------------------------------------

  function LongTaken(takes: seq<Take>, id: string): real {
    if takes == [] then 0.0
    else (if takes[0].long.id == id then takes[0].quantity else 0.0) + LongTaken(takes[1..], id)
  }

  function ShortTaken(takes: seq<Take>, id: string): real {
    if takes == [] then 0.0
    else (if takes[0].short.id == id then takes[0].quantity else 0.0) + ShortTaken(takes[1..], id)
  }

  function TakeSize(t: Take): real { t.quantity }

  function RemOf(s: Slot): real { s.rem }

  function Ids(slots: seq<Slot>): set<string> {
    set s | s in slots :: s.pos.id
  }

  /** Every leg of the side has its own position id. */
  predicate DistinctSlots(slots: seq<Slot>) {
    slots == [] || (slots[0].pos.id !in Ids(slots[1..]) && DistinctSlots(slots[1..]))
  }

  predicate NonNegative(slots: seq<Slot>) {
    forall s :: s in slots ==> s.rem >= 0.0
  }

  /** `k` tolerances. */
  function Slack(k: nat, tol: real): real {
    if k == 0 then 0.0 else tol + Slack(k - 1, tol)
  }

  lemma {:induction false} SlackIs(k: nat, tol: real)
    ensures Slack(k, tol) == k as real * tol
  {
    if k > 0 {
      SlackIs(k - 1, tol);
      var j := (k - 1) as real;
      assert (j + 1.0) * tol == j * tol + tol;
    }
  }

  /** The taken prefix of one step, and the rest. */
  function Step(longs: seq<Slot>, shorts: seq<Slot>, tol: real): seq<Take>
    requires longs != [] && shorts != []
  {
    var take := Min(longs[0].rem, shorts[0].rem);
    if take > tol then [Take(longs[0].pos, shorts[0].pos, take)] else []
  }

  lemma {:induction false} LongTakenConcat(a: seq<Take>, b: seq<Take>, id: string)
    ensures LongTaken(a + b, id) == LongTaken(a, id) + LongTaken(b, id)
  {
    if a == [] {
      assert a + b == b;
    } else {
      assert (a + b)[1..] == a[1..] + b;
      LongTakenConcat(a[1..], b, id);
    }
  }

  lemma {:induction false} ShortTakenConcat(a: seq<Take>, b: seq<Take>, id: string)
    ensures ShortTaken(a + b, id) == ShortTaken(a, id) + ShortTaken(b, id)
  {
    if a == [] {
      assert a + b == b;
    } else {
      assert (a + b)[1..] == a[1..] + b;
      ShortTakenConcat(a[1..], b, id);
    }
  }

  lemma {:induction false} AdvanceKeeps(slots: seq<Slot>, take: real, tol: real)
    requires slots != [] && DistinctSlots(slots) && NonNegative(slots)
    requires 0.0 <= take <= slots[0].rem
    ensures DistinctSlots(Advance(slots, take, tol)) && NonNegative(Advance(slots, take, tol))
    ensures Ids(Advance(slots, take, tol)) <= Ids(slots)
    ensures slots[0].rem - take <= tol ==> slots[0].pos.id !in Ids(Advance(slots, take, tol))
  {
    assert slots == [slots[0]] + slots[1..];
    if slots[0].rem - take > tol {
      var a := Advance(slots, take, tol);
      assert a[1..] == slots[1..];
    }
  }

  // ---- what is taken -------------------------------------------------------------------------

  /** Each take is worth more than the tolerance and joins a long of the one side to a short of the other. */
  lemma {:induction false} TakesAreFromSlots(longs: seq<Slot>, shorts: seq<Slot>, tol: real)
    requires tol >= 0.0
    ensures forall t :: t in Match(longs, shorts, tol) ==>
              && t.quantity > tol
              && (exists s :: s in longs && s.pos == t.long)
              && (exists s :: s in shorts && s.pos == t.short)
    decreases |longs| + |shorts|
  {
    if longs != [] && shorts != [] {
      var take := Min(longs[0].rem, shorts[0].rem);
      var ls, ss := Advance(longs, take, tol), Advance(shorts, take, tol);
      TakesAreFromSlots(ls, ss, tol);
      FromAdvance(longs, take, tol);
      FromAdvance(shorts, take, tol);
      forall t | t in Match(longs, shorts, tol)
        ensures t.quantity > tol
        ensures exists s :: s in longs && s.pos == t.long
        ensures exists s :: s in shorts && s.pos == t.short
      {
        if t in Match(ls, ss, tol) {
          var l :| l in ls && l.pos == t.long;
          var s :| s in ss && s.pos == t.short;
        } else {
          assert t == Take(longs[0].pos, shorts[0].pos, take);
          assert longs[0] in longs && shorts[0] in shorts;
        }
      }
    }
  }

  lemma {:induction false} FromAdvance(slots: seq<Slot>, take: real, tol: real)
    requires slots != []
    ensures forall s :: s in Advance(slots, take, tol) ==> exists o :: o in slots && o.pos == s.pos
  {
    forall s | s in Advance(slots, take, tol)
      ensures exists o :: o in slots && o.pos == s.pos
    {
      if s in slots[1..] {
        assert s in slots;
      } else {
        assert s.pos == slots[0].pos && slots[0] in slots;
      }
    }
  }

  lemma {:induction false} NothingTakenElsewhere(takes: seq<Take>, id: string)
    ensures (forall t :: t in takes ==> t.long.id != id) ==> LongTaken(takes, id) == 0.0
    ensures (forall t :: t in takes ==> t.short.id != id) ==> ShortTaken(takes, id) == 0.0
  {
    if takes != [] {
      assert takes == [takes[0]] + takes[1..];
      NothingTakenElsewhere(takes[1..], id);
    }
  }

  lemma {:induction false} NothingTakenFrom(longs: seq<Slot>, shorts: seq<Slot>, tol: real, id: string)
    requires tol >= 0.0
    ensures id !in Ids(longs) ==> LongTaken(Match(longs, shorts, tol), id) == 0.0
    ensures id !in Ids(shorts) ==> ShortTaken(Match(longs, shorts, tol), id) == 0.0
  {
    TakesAreFromSlots(longs, shorts, tol);
    NothingTakenElsewhere(Match(longs, shorts, tol), id);
  }

  /** No leg ever gives more than it holds. */
  lemma {:induction false} TakesFit(longs: seq<Slot>, shorts: seq<Slot>, tol: real)
    requires tol >= 0.0
    requires DistinctSlots(longs) && NonNegative(longs) && DistinctSlots(shorts) && NonNegative(shorts)
    ensures forall s :: s in longs ==> 0.0 <= LongTaken(Match(longs, shorts, tol), s.pos.id) <= s.rem
    ensures forall s :: s in shorts ==> 0.0 <= ShortTaken(Match(longs, shorts, tol), s.pos.id) <= s.rem
    decreases |longs| + |shorts|
  {
    if longs != [] && shorts != [] {
      var take := Min(longs[0].rem, shorts[0].rem);
      assert longs[0] in longs && shorts[0] in shorts;
      var ls, ss := Advance(longs, take, tol), Advance(shorts, take, tol);
      AdvanceKeeps(longs, take, tol);
      AdvanceKeeps(shorts, take, tol);
      TakesFit(ls, ss, tol);
      forall s | s in longs
        ensures 0.0 <= LongTaken(Match(longs, shorts, tol), s.pos.id) <= s.rem
      {
        LongTakenConcat(Step(longs, shorts, tol), Match(ls, ss, tol), s.pos.id);
        NothingTakenFrom(ls, ss, tol, s.pos.id);
        SlotAfter(longs, take, tol, s);
      }
      forall s | s in shorts
        ensures 0.0 <= ShortTaken(Match(longs, shorts, tol), s.pos.id) <= s.rem
      {
        ShortTakenConcat(Step(longs, shorts, tol), Match(ls, ss, tol), s.pos.id);
        NothingTakenFrom(ls, ss, tol, s.pos.id);
        SlotAfter(shorts, take, tol, s);
      }
    }
  }

  /** Where a slot is after one step: untouched, reduced, or passed. */
  lemma {:induction false} SlotAfter(slots: seq<Slot>, take: real, tol: real, s: Slot)
    requires slots != [] && s in slots && DistinctSlots(slots)
    ensures s == slots[0] || (s in slots[1..] && s in Advance(slots, take, tol) && s.pos.id != slots[0].pos.id)
    ensures s == slots[0] ==> s.rem - take <= tol || Slot(s.pos, s.rem - take) in Advance(slots, take, tol)
  {
    assert slots == [slots[0]] + slots[1..];
    if s != slots[0] {
      assert s in slots[1..];
      assert s.pos.id in Ids(slots[1..]);
      var a := Advance(slots, take, tol);
      if slots[0].rem - take > tol {
        assert a[1..] == slots[1..];
        assert a == [a[0]] + a[1..];
      }
    } else if s.rem - take > tol {
      assert Advance(slots, take, tol)[0] == Slot(s.pos, s.rem - take);
    }
  }

  /** The loop takes at most one pair fewer than there are legs. */
  lemma {:induction false} PairCount(longs: seq<Slot>, shorts: seq<Slot>, tol: real)
    requires tol >= 0.0
    ensures longs == [] || shorts == [] ==> Match(longs, shorts, tol) == []
    ensures longs != [] && shorts != [] ==> |Match(longs, shorts, tol)| <= |longs| + |shorts| - 1
    decreases |longs| + |shorts|
  {
    if longs != [] && shorts != [] {
      var take := Min(longs[0].rem, shorts[0].rem);
      PairCount(Advance(longs, take, tol), Advance(shorts, take, tol), tol);
    }
  }

  // ---- what is left --------------------------------------------------------------------------

  lemma {:induction false} SumAdvance(slots: seq<Slot>, take: real, tol: real)
    requires slots != []
    ensures SumBy(Advance(slots, take, tol), RemOf)
         == SumBy(slots, RemOf) - take - (if slots[0].rem - take <= tol then slots[0].rem - take else 0.0)
  {
    var a := Advance(slots, take, tol);
    if slots[0].rem - take > tol {
      assert a[1..] == slots[1..];
    }
  }

  function Dropped(slots: seq<Slot>, take: real, tol: real): real
    requires slots != []
  {
    if slots[0].rem - take <= tol then slots[0].rem - take else 0.0
  }

  /** One step in numbers: what it takes, what each side drops, and how many legs it passes. */
  lemma {:induction false} StepTotals(longs: seq<Slot>, shorts: seq<Slot>, tol: real)
    requires tol >= 0.0 && longs != [] && shorts != [] && NonNegative(longs) && NonNegative(shorts)
    ensures var take := Min(longs[0].rem, shorts[0].rem);
            var ls, ss := Advance(longs, take, tol), Advance(shorts, take, tol);
            var step := if take > tol then take else 0.0;
            && 0.0 <= take - step <= tol
            && NonNegative(ls) && NonNegative(ss)
            && SumBy(ls, RemOf) == SumBy(longs, RemOf) - take - Dropped(longs, take, tol)
            && SumBy(ss, RemOf) == SumBy(shorts, RemOf) - take - Dropped(shorts, take, tol)
            && SumBy(Match(longs, shorts, tol), TakeSize) == step + SumBy(Match(ls, ss, tol), TakeSize)
            && |ls| + |ss| < |longs| + |shorts|
            && 0.0 <= Dropped(longs, take, tol) <= tol && 0.0 <= Dropped(shorts, take, tol) <= tol
            && (Dropped(longs, take, tol) == 0.0 || Dropped(shorts, take, tol) == 0.0)
            && (Dropped(longs, take, tol) > 0.0 || Dropped(shorts, take, tol) > 0.0 ==>
                  |ls| + |ss| + 2 <= |longs| + |shorts|)
  {
    assert longs[0] in longs && shorts[0] in shorts;
    var take := Min(longs[0].rem, shorts[0].rem);
    FromAdvanceNonNegative(longs, take, tol);
    FromAdvanceNonNegative(shorts, take, tol);
    SumAdvance(longs, take, tol);
    SumAdvance(shorts, take, tol);
    SumByConcat(Step(longs, shorts, tol), Match(Advance(longs, take, tol), Advance(shorts, take, tol), tol), TakeSize);
  }

  /** What the matching leaves on each side, against the sides' difference and `slack`. */
  predicate Bounded(longs: seq<Slot>, shorts: seq<Slot>, tol: real, slack: real)
    requires tol >= 0.0
  {
    var l, s, taken := SumBy(longs, RemOf), SumBy(shorts, RemOf), SumBy(Match(longs, shorts, tol), TakeSize);
    l - taken <= Max(0.0, l - s) + slack && s - taken <= Max(0.0, s - l) + slack
  }

  /**
   All that the matching leaves behind on either side: the surplus of that side over the other, plus at
   most one tolerance for each leg of the instrument.
   */
  lemma {:induction false} ResidualBound(longs: seq<Slot>, shorts: seq<Slot>, tol: real)
    requires tol >= 0.0 && NonNegative(longs) && NonNegative(shorts)
    ensures Bounded(longs, shorts, tol, Slack(|longs| + |shorts|, tol))
    decreases |longs| + |shorts|
  {
    hide Match, SumBy, Slack, Max;
    if longs == [] || shorts == [] {
      ResidualBase(longs, shorts, tol);
    } else {
      var take := Min(longs[0].rem, shorts[0].rem);
      var ls, ss := Advance(longs, take, tol), Advance(shorts, take, tol);
      StepTotals(longs, shorts, tol);
      ResidualBound(ls, ss, tol);
      SlackStep(|longs| + |shorts|, |ls| + |ss|, tol);
      SlackNonNegative(|ls| + |ss|, tol);
      BoundCarries(longs, shorts, tol, Slack(|ls| + |ss|, tol), Slack(|longs| + |shorts|, tol));
    }
  }

  lemma {:induction false} ResidualBase(longs: seq<Slot>, shorts: seq<Slot>, tol: real)
    requires tol >= 0.0 && NonNegative(longs) && NonNegative(shorts) && (longs == [] || shorts == [])
    ensures Bounded(longs, shorts, tol, Slack(|longs| + |shorts|, tol))
  {
    SlackNonNegative(|longs| + |shorts|, tol);
    SumByNonNegative(longs, RemOf);
    SumByNonNegative(shorts, RemOf);
  }

  lemma {:induction false} BoundCarries(longs: seq<Slot>, shorts: seq<Slot>, tol: real, slack': real, slack: real)
    requires tol >= 0.0 && longs != [] && shorts != [] && NonNegative(longs) && NonNegative(shorts)
    requires var take := Min(longs[0].rem, shorts[0].rem);
             var ls, ss := Advance(longs, take, tol), Advance(shorts, take, tol);
             && Bounded(ls, ss, tol, slack')
             && slack' >= 0.0 && slack >= slack' + tol
             && (|ls| + |ss| + 2 <= |longs| + |shorts| ==> slack >= slack' + tol + tol)
    ensures Bounded(longs, shorts, tol, slack)
  {
    var take := Min(longs[0].rem, shorts[0].rem);
    var ls, ss := Advance(longs, take, tol), Advance(shorts, take, tol);
    StepTotals(longs, shorts, tol);
    var ll, sl := Dropped(longs, take, tol), Dropped(shorts, take, tol);
    var step := if take > tol then take else 0.0;
    var taken, rest := SumBy(Match(longs, shorts, tol), TakeSize), SumBy(Match(ls, ss, tol), TakeSize);
    ResidualStep(SumBy(longs, RemOf), SumBy(shorts, RemOf), rest, step, ll, sl, taken, take, tol, slack, slack');
    ResidualStep(SumBy(shorts, RemOf), SumBy(longs, RemOf), rest, step, sl, ll, taken, take, tol, slack, slack');
  }

  lemma {:induction false} FromAdvanceNonNegative(slots: seq<Slot>, take: real, tol: real)
    requires slots != [] && NonNegative(slots) && tol >= 0.0
    ensures NonNegative(Advance(slots, take, tol))
  {
    forall s | s in Advance(slots, take, tol)
      ensures s.rem >= 0.0
    {
      if s in slots[1..] {
        assert s in slots;
      }
    }
  }

  lemma {:induction false} SlackStep(k: nat, j: nat, tol: real)
    requires j < k && tol >= 0.0
    ensures Slack(k, tol) >= Slack(j, tol) + tol
    ensures j + 2 <= k ==> Slack(k, tol) >= Slack(j, tol) + tol + tol
  {
    if j + 1 < k {
      SlackStep(k - 1, j, tol);
    }
  }

  lemma {:induction false} SlackNonNegative(k: nat, tol: real)
    requires tol >= 0.0
    ensures Slack(k, tol) >= 0.0
    ensures tol == 0.0 ==> Slack(k, tol) == 0.0
  {
    if k > 0 {
      SlackNonNegative(k - 1, tol);
    }
  }

  /** The arithmetic of one step on one side: `left` of this leg is dropped when the cursor passes it. */
  lemma {:induction false} ResidualStep(mine: real, theirs: real, rest: real, step: real, mineLeft: real, theirsLeft: real,
                     taken: real, take: real, tol: real, slack: real, slack': real)
    requires 0.0 <= mineLeft <= tol && 0.0 <= theirsLeft <= tol && (mineLeft == 0.0 || theirsLeft == 0.0)
    requires 0.0 <= take - step <= tol && slack' >= 0.0
    requires slack >= slack' + tol
    requires mineLeft > 0.0 || theirsLeft > 0.0 ==> slack >= slack' + tol + tol
    requires (mine - take - mineLeft) - rest <= Max(0.0, (mine - take - mineLeft) - (theirs - take - theirsLeft)) + slack'
    requires taken == step + rest
    ensures mine - taken <= Max(0.0, mine - theirs) + slack
  {
  }

  function LongTakenBy(slots: seq<Slot>, takes: seq<Take>): real {
    if slots == [] then 0.0 else LongTaken(takes, slots[0].pos.id) + LongTakenBy(slots[1..], takes)
  }

  function ShortTakenBy(slots: seq<Slot>, takes: seq<Take>): real {
    if slots == [] then 0.0 else ShortTaken(takes, slots[0].pos.id) + ShortTakenBy(slots[1..], takes)
  }

  /** Adding a take to a list adds it to exactly the one leg it comes from. */
  lemma {:induction false} TakenByStep(slots: seq<Slot>, t: Take, rest: seq<Take>)
    requires DistinctSlots(slots)
    ensures LongTakenBy(slots, [t] + rest)
         == LongTakenBy(slots, rest) + (if t.long.id in Ids(slots) then t.quantity else 0.0)
    ensures ShortTakenBy(slots, [t] + rest)
         == ShortTakenBy(slots, rest) + (if t.short.id in Ids(slots) then t.quantity else 0.0)
  {
    assert ([t] + rest)[1..] == rest;
    if slots != [] {
      assert slots == [slots[0]] + slots[1..];
      TakenByStep(slots[1..], t, rest);
    }
  }

  /** Summing over legs or over takes counts the same quantity. */
  lemma {:induction false} TakenByIsTotal(slots: seq<Slot>, takes: seq<Take>)
    requires DistinctSlots(slots)
    ensures (forall t :: t in takes ==> t.long.id in Ids(slots)) ==> LongTakenBy(slots, takes) == SumBy(takes, TakeSize)
    ensures (forall t :: t in takes ==> t.short.id in Ids(slots)) ==> ShortTakenBy(slots, takes) == SumBy(takes, TakeSize)
  {
    if takes == [] {
      TakenByNone(slots);
    } else {
      assert takes == [takes[0]] + takes[1..];
      TakenByIsTotal(slots, takes[1..]);
      TakenByStep(slots, takes[0], takes[1..]);
    }
  }

  lemma {:induction false} TakenByNone(slots: seq<Slot>)
    ensures LongTakenBy(slots, []) == 0.0 && ShortTakenBy(slots, []) == 0.0
  {
    if slots != [] {
      TakenByNone(slots[1..]);
    }
  }

  /** Where no leg is over-taken, what one leg keeps is at most what all of them keep together. */
  lemma {:induction false} OneOfAll(slots: seq<Slot>, takes: seq<Take>, long: bool, s: Slot)
    requires s in slots
    requires forall x :: x in slots ==>
               (if long then LongTaken(takes, x.pos.id) else ShortTaken(takes, x.pos.id)) <= x.rem
    ensures s.rem - (if long then LongTaken(takes, s.pos.id) else ShortTaken(takes, s.pos.id))
         <= SumBy(slots, RemOf) - (if long then LongTakenBy(slots, takes) else ShortTakenBy(slots, takes))
  {
    assert slots == [slots[0]] + slots[1..];
    Kept(slots[1..], takes, long);
    if s in slots[1..] {
      OneOfAll(slots[1..], takes, long, s);
    }
  }

  lemma {:induction false} Kept(slots: seq<Slot>, takes: seq<Take>, long: bool)
    requires forall x :: x in slots ==>
               (if long then LongTaken(takes, x.pos.id) else ShortTaken(takes, x.pos.id)) <= x.rem
    ensures (if long then LongTakenBy(slots, takes) else ShortTakenBy(slots, takes)) <= SumBy(slots, RemOf)
  {
    if slots != [] {
      assert slots == [slots[0]] + slots[1..];
      Kept(slots[1..], takes, long);
    }
  }

  /**
   Every leg is exhausted: what any one leg keeps is never negative and at most the sides' difference
   plus a tolerance per leg.
   */
  lemma {:induction false} LegsExhausted(longs: seq<Slot>, shorts: seq<Slot>, tol: real, bound: real)
    requires tol >= 0.0
    requires DistinctSlots(longs) && NonNegative(longs) && DistinctSlots(shorts) && NonNegative(shorts)
    requires bound >= Abs(SumBy(longs, RemOf) - SumBy(shorts, RemOf)) + Slack(|longs| + |shorts|, tol)
    ensures forall s :: s in longs ==> 0.0 <= s.rem - LongTaken(Match(longs, shorts, tol), s.pos.id) <= bound
    ensures forall s :: s in shorts ==> 0.0 <= s.rem - ShortTaken(Match(longs, shorts, tol), s.pos.id) <= bound
  {
    var takes := Match(longs, shorts, tol);
    TakesFit(longs, shorts, tol);
    ResidualBound(longs, shorts, tol);
    assert SumBy(longs, RemOf) - SumBy(takes, TakeSize) <= bound;
    assert SumBy(shorts, RemOf) - SumBy(takes, TakeSize) <= bound;
    SidesTotal(longs, shorts, tol);
    forall s | s in longs
      ensures s.rem - LongTaken(takes, s.pos.id) <= bound
    {
      OneOfAll(longs, takes, true, s);
    }
    forall s | s in shorts
      ensures s.rem - ShortTaken(takes, s.pos.id) <= bound
    {
      OneOfAll(shorts, takes, false, s);
    }
  }

  lemma {:induction false} SidesTotal(longs: seq<Slot>, shorts: seq<Slot>, tol: real)
    requires tol >= 0.0 && DistinctSlots(longs) && DistinctSlots(shorts)
    ensures LongTakenBy(longs, Match(longs, shorts, tol)) == SumBy(Match(longs, shorts, tol), TakeSize)
    ensures ShortTakenBy(shorts, Match(longs, shorts, tol)) == SumBy(Match(longs, shorts, tol), TakeSize)
  {
    var takes := Match(longs, shorts, tol);
    TakesAreFromSlots(longs, shorts, tol);
    TakenByIsTotal(longs, takes);
    TakenByIsTotal(shorts, takes);
  }

  /** At tolerance zero, on sides of equal size, every leg is exhausted exactly. */
  lemma {:induction false} ExactlyExhausted(longs: seq<Slot>, shorts: seq<Slot>)
    requires DistinctSlots(longs) && NonNegative(longs) && DistinctSlots(shorts) && NonNegative(shorts)
    requires SumBy(longs, RemOf) == SumBy(shorts, RemOf)
    ensures forall s :: s in longs ==> LongTaken(Match(longs, shorts, 0.0), s.pos.id) == s.rem
    ensures forall s :: s in shorts ==> ShortTaken(Match(longs, shorts, 0.0), s.pos.id) == s.rem
  {
    SlackNonNegative(|longs| + |shorts|, 0.0);
    LegsExhausted(longs, shorts, 0.0, 0.0);
  }

  // ---- any part of the pairing ---------------------------------------------------------------

  /** The takes kept when `mask` says which pairs book. */
  function Select(takes: seq<Take>, mask: seq<bool>): seq<Take>
    requires |mask| == |takes|
  {
    if takes == [] then []
    else (if mask[0] then [takes[0]] else []) + Select(takes[1..], mask[1..])
  }

  /** Dropping pairs only ever closes less of each leg: no subset of a plan flips one. */
  lemma {:induction false} SubsetTakesLess(takes: seq<Take>, mask: seq<bool>, id: string)
    requires |mask| == |takes|
    requires forall t :: t in takes ==> t.quantity >= 0.0
    ensures 0.0 <= LongTaken(Select(takes, mask), id) <= LongTaken(takes, id)
    ensures 0.0 <= ShortTaken(Select(takes, mask), id) <= ShortTaken(takes, id)
  {
    if takes != [] {
      assert takes == [takes[0]] + takes[1..];
      SubsetTakesLess(takes[1..], mask[1..], id);
      var rest := Select(takes[1..], mask[1..]);
      if mask[0] {
        assert ([takes[0]] + rest)[1..] == rest;
      } else {
        assert Select(takes, mask) == rest;
      }
    }
  }

  // ---- the money -----------------------------------------------------------------------------

  /** What the pairs of a list of takes erase: `ContraPair.unbooked_realized`, summed. */
  function Erased(takes: seq<Take>): real {
    if takes == [] then 0.0
    else Times(takes[0].short.avgPx - takes[0].long.avgPx, takes[0].quantity) + Erased(takes[1..])
  }

  function LongValue(slots: seq<Slot>, takes: seq<Take>): real {
    if slots == [] then 0.0
    else Times(slots[0].pos.avgPx, LongTaken(takes, slots[0].pos.id)) + LongValue(slots[1..], takes)
  }

  function ShortValue(slots: seq<Slot>, takes: seq<Take>): real {
    if slots == [] then 0.0
    else Times(slots[0].pos.avgPx, ShortTaken(takes, slots[0].pos.id)) + ShortValue(slots[1..], takes)
  }

  /** Every take's leg is the slot of that id. */
  predicate TakesOf(takes: seq<Take>, longs: seq<Slot>, shorts: seq<Slot>) {
    forall t :: t in takes ==>
      (exists s :: s in longs && s.pos == t.long) && (exists s :: s in shorts && s.pos == t.short)
  }

  lemma {:induction false} LongValueStep(slots: seq<Slot>, t: Take, rest: seq<Take>)
    requires DistinctSlots(slots)
    ensures t.long.id !in Ids(slots) ==> LongValue(slots, [t] + rest) == LongValue(slots, rest)
    ensures (exists s :: s in slots && s.pos == t.long) ==>
              LongValue(slots, [t] + rest) == LongValue(slots, rest) + Times(t.long.avgPx, t.quantity)
  {
    hide Times;
    assert ([t] + rest)[1..] == rest;
    if slots != [] {
      assert slots == [slots[0]] + slots[1..];
      LongValueStep(slots[1..], t, rest);
      TimesAdds(slots[0].pos.avgPx, t.quantity, LongTaken(rest, slots[0].pos.id));
      if slots[0].pos == t.long {
        assert t.long.id !in Ids(slots[1..]);
      } else if exists s :: s in slots && s.pos == t.long {
        var s :| s in slots && s.pos == t.long;
        assert s in slots[1..] && s.pos.id in Ids(slots[1..]);
      }
    }
  }

  lemma {:induction false} ShortValueStep(slots: seq<Slot>, t: Take, rest: seq<Take>)
    requires DistinctSlots(slots)
    ensures t.short.id !in Ids(slots) ==> ShortValue(slots, [t] + rest) == ShortValue(slots, rest)
    ensures (exists s :: s in slots && s.pos == t.short) ==>
              ShortValue(slots, [t] + rest) == ShortValue(slots, rest) + Times(t.short.avgPx, t.quantity)
  {
    hide Times;
    assert ([t] + rest)[1..] == rest;
    if slots != [] {
      assert slots == [slots[0]] + slots[1..];
      ShortValueStep(slots[1..], t, rest);
      TimesAdds(slots[0].pos.avgPx, t.quantity, ShortTaken(rest, slots[0].pos.id));
      if slots[0].pos == t.short {
        assert t.short.id !in Ids(slots[1..]);
      } else if exists s :: s in slots && s.pos == t.short {
        var s :| s in slots && s.pos == t.short;
        assert s in slots[1..] && s.pos.id in Ids(slots[1..]);
      }
    }
  }

  /**
   Whatever the pairing, the money its pairs erase is the basis of the shorts it closes less the basis of
   the longs it closes: it depends on how much of each leg closes, never on which leg met which.
   */
  lemma {:induction false} ErasedByLegs(takes: seq<Take>, longs: seq<Slot>, shorts: seq<Slot>)
    requires DistinctSlots(longs) && DistinctSlots(shorts) && TakesOf(takes, longs, shorts)
    ensures Erased(takes) == ShortValue(shorts, takes) - LongValue(longs, takes)
  {
    hide Times;
    if takes == [] {
      NoValue(longs);
      NoValue(shorts);
    } else {
      assert takes == [takes[0]] + takes[1..];
      var t := takes[0];
      assert t in takes;
      ErasedByLegs(takes[1..], longs, shorts);
      LongValueStep(longs, t, takes[1..]);
      ShortValueStep(shorts, t, takes[1..]);
      TimesSpreads(t.short.avgPx, t.long.avgPx, t.quantity);
    }
  }

  lemma {:induction false} NoValue(slots: seq<Slot>)
    ensures LongValue(slots, []) == 0.0 && ShortValue(slots, []) == 0.0
  {
    hide Times;
    if slots != [] {
      NoValue(slots[1..]);
      TimesAdds(slots[0].pos.avgPx, 0.0, 0.0);
    }
  }

  /** The closing legs of every slot, as the eviction rule would book them. */
  function CloseAll(instrument: string, longs: seq<Slot>, shorts: seq<Slot>): seq<Leg> {
    CloseSide(instrument, longs, Sell) + CloseSide(instrument, shorts, Buy)
  }

  function CloseSide(instrument: string, slots: seq<Slot>, side: Side): seq<Leg> {
    if slots == [] then []
    else [Leg(instrument, slots[0].pos.strategy, slots[0].pos.id, side, slots[0].rem, slots[0].pos.avgPx)]
         + CloseSide(instrument, slots[1..], side)
  }

  lemma {:induction false} BookValueConcat(a: seq<Leg>, b: seq<Leg>)
    ensures BookValue(a + b) == BookValue(a) + BookValue(b)
  {
    hide Times;
    if a == [] {
      assert a + b == b;
    } else {
      assert (a + b)[1..] == a[1..] + b;
      BookValueConcat(a[1..], b);
    }
  }

  lemma {:induction false} LongSideValue(instrument: string, slots: seq<Slot>, takes: seq<Take>)
    requires forall s :: s in slots ==> LongTaken(takes, s.pos.id) == s.rem
    ensures BookValue(CloseSide(instrument, slots, Sell)) == -LongValue(slots, takes)
  {
    hide Times;
    if slots != [] {
      assert slots[0] in slots && (forall s :: s in slots[1..] ==> s in slots);
      LongSideValue(instrument, slots[1..], takes);
      TimesNegates(slots[0].pos.avgPx, slots[0].rem);
    }
  }

  lemma {:induction false} ShortSideValue(instrument: string, slots: seq<Slot>, takes: seq<Take>)
    requires forall s :: s in slots ==> ShortTaken(takes, s.pos.id) == s.rem
    ensures BookValue(CloseSide(instrument, slots, Buy)) == ShortValue(slots, takes)
  {
    hide Times;
    if slots != [] {
      assert slots[0] in slots && (forall s :: s in slots[1..] ==> s in slots);
      ShortSideValue(instrument, slots[1..], takes);
    }
  }

  /**
   Any pairing that exhausts every leg, the planner's own among them, erases exactly the book value of the
   legs it closes: the number an eviction of the same book would record.
   */
  lemma {:induction false} ErasedIsBookValue(instrument: string, takes: seq<Take>, longs: seq<Slot>, shorts: seq<Slot>)
    requires DistinctSlots(longs) && DistinctSlots(shorts) && TakesOf(takes, longs, shorts)
    requires forall s :: s in longs ==> LongTaken(takes, s.pos.id) == s.rem
    requires forall s :: s in shorts ==> ShortTaken(takes, s.pos.id) == s.rem
    ensures Erased(takes) == BookValue(CloseAll(instrument, longs, shorts))
  {
    ErasedByLegs(takes, longs, shorts);
    LongSideValue(instrument, longs, takes);
    ShortSideValue(instrument, shorts, takes);
    BookValueConcat(CloseSide(instrument, longs, Sell), CloseSide(instrument, shorts, Buy));
  }
}
