/**
 What booking an internal leg does to the position book under NETTING: the semantics the contra repair
 is aimed at. A leg moves the position whose id it names; a leg naming no position opens a new one.
 */
module Netting {
  import opened Prelude

  datatype Side = Buy | Sell

  datatype Leg = Leg(instrument: string, strategy: string, positionId: string, side: Side,
                     quantity: real, price: real)
  {
    function Signed(): real {
      if side.Buy? then quantity else -quantity
    }
  }

  datatype Holding = Holding(instrument: string, strategy: string, id: string,
                             qty: real, avgPx: real, realized: real)

  /** One fill on one position: it adds, closes (realizing against the basis), or closes and flips. */
  function Move(h: Holding, leg: Leg): Holding {
    var s := leg.Signed();
    if h.qty == 0.0 then
      h.(qty := s, avgPx := leg.price)
    else if (h.qty > 0.0 && s > 0.0) || (h.qty < 0.0 && s < 0.0) then
      h.(qty := h.qty + s,
         avgPx := (Abs(h.qty) * h.avgPx + Abs(s) * leg.price) / (Abs(h.qty) + Abs(s)))
    else
      var closed := Min(Abs(h.qty), Abs(s));
      var gain := if h.qty > 0.0 then leg.price - h.avgPx else h.avgPx - leg.price;
      h.(qty := h.qty + s,
         realized := h.realized + gain * closed,
         avgPx := if Abs(s) > Abs(h.qty) then leg.price else h.avgPx)
  }

  /** The index of the position with this id, or `|book|`. */
  function Find(book: seq<Holding>, id: string): (i: nat)
    ensures i <= |book|
    ensures i < |book| ==> book[i].id == id
    ensures forall k :: 0 <= k < i ==> book[k].id != id
  {
    if book == [] || book[0].id == id then 0
    else
      var i := Find(book[1..], id);
      assert forall k :: 0 < k < i + 1 ==> book[k] == book[1..][k - 1];
      i + 1
  }

  function ApplyLeg(book: seq<Holding>, leg: Leg): seq<Holding> {
    var i := Find(book, leg.positionId);
    if i < |book| then book[i := Move(book[i], leg)]
    else book + [Holding(leg.instrument, leg.strategy, leg.positionId, leg.Signed(), leg.price, 0.0)]
  }

  function ApplyAll(book: seq<Holding>, legs: seq<Leg>): seq<Holding>
    decreases |legs|
  {
    if legs == [] then book else ApplyAll(ApplyLeg(book, legs[0]), legs[1..])
  }

  /** The book's signed quantity on one instrument. */
  function NetOn(book: seq<Holding>, instrument: string): real {
    if book == [] then 0.0
    else (if book[0].instrument == instrument then book[0].qty else 0.0) + NetOn(book[1..], instrument)
  }

  /** What the legs aimed at one position id add up to, signed. */
  function SignedAt(legs: seq<Leg>, id: string): real {
    if legs == [] then 0.0
    else (if legs[0].positionId == id then legs[0].Signed() else 0.0) + SignedAt(legs[1..], id)
  }

  function SignedOn(legs: seq<Leg>, instrument: string): real {
    if legs == [] then 0.0
    else (if legs[0].instrument == instrument then legs[0].Signed() else 0.0) + SignedOn(legs[1..], instrument)
  }

  predicate UniqueIds(book: seq<Holding>) {
    forall i, j :: 0 <= i < j < |book| ==> book[i].id != book[j].id
  }

  /** The leg names a position of the book, in the lane and on the instrument that position is in. */
  predicate Aimed(book: seq<Holding>, leg: Leg) {
    var i := Find(book, leg.positionId);
    i < |book| && book[i].strategy == leg.strategy && book[i].instrument == leg.instrument
  }

  /** The leg closes `h`: against its sign, at its own basis, in its own lane. */
  predicate ClosesAtBasis(leg: Leg, h: Holding) {
    && leg.instrument == h.instrument && leg.strategy == h.strategy
    && leg.price == h.avgPx
    && leg.quantity >= 0.0
    && (h.qty > 0.0 ==> leg.side.Sell?)
    && (h.qty < 0.0 ==> leg.side.Buy?)
    && (h.qty == 0.0 ==> leg.quantity == 0.0)
  }

  /** Every leg aimed at `h` closes it at its basis, and together they close no more than it holds. */
  predicate Within(legs: seq<Leg>, h: Holding) {
    && (forall l :: l in legs && l.positionId == h.id ==> ClosesAtBasis(l, h))
    && Abs(SignedAt(legs, h.id)) <= Abs(h.qty)
  }

  // ---- lemmas --------------------------------------------------------------------------------

  lemma {:induction false} SignedAtConcat(a: seq<Leg>, b: seq<Leg>, id: string)
    ensures SignedAt(a + b, id) == SignedAt(a, id) + SignedAt(b, id)
  {
    if a == [] {
      assert a + b == b;
    } else {
      assert (a + b)[1..] == a[1..] + b;
      SignedAtConcat(a[1..], b, id);
    }
  }

  lemma {:induction false} SignedOnConcat(a: seq<Leg>, b: seq<Leg>, instrument: string)
    ensures SignedOn(a + b, instrument) == SignedOn(a, instrument) + SignedOn(b, instrument)
  {
    if a == [] {
      assert a + b == b;
    } else {
      assert (a + b)[1..] == a[1..] + b;
      SignedOnConcat(a[1..], b, instrument);
    }
  }

  lemma {:induction false} SignedAtAbsent(legs: seq<Leg>, id: string)
    requires forall l :: l in legs ==> l.positionId != id
    ensures SignedAt(legs, id) == 0.0
  {
    if legs != [] {
      assert legs[0] in legs;
      assert forall l :: l in legs[1..] ==> l in legs;
      SignedAtAbsent(legs[1..], id);
    }
  }

  lemma {:induction false} NetOnConcat(a: seq<Holding>, b: seq<Holding>, instrument: string)
    ensures NetOn(a + b, instrument) == NetOn(a, instrument) + NetOn(b, instrument)
  {
    if a == [] {
      assert a + b == b;
    } else {
      assert (a + b)[1..] == a[1..] + b;
      NetOnConcat(a[1..], b, instrument);
    }
  }

  lemma {:induction false} NetOnUpdate(book: seq<Holding>, i: nat, h: Holding, instrument: string)
    requires i < |book|
    requires h.instrument == book[i].instrument
    ensures NetOn(book[i := h], instrument)
         == NetOn(book, instrument) + (if h.instrument == instrument then h.qty - book[i].qty else 0.0)
  {
    if i == 0 {
      assert book[0 := h][1..] == book[1..];
    } else {
      assert book[i := h][1..] == book[1..][i - 1 := h];
      NetOnUpdate(book[1..], i - 1, h, instrument);
    }
  }

  lemma {:induction false} FindIs(book: seq<Holding>, i: nat)
    requires UniqueIds(book) && i < |book|
    ensures Find(book, book[i].id) == i
  {
  }

  /** Legs against one sign: their total bounds each of them. */
  lemma {:induction false} OneSided(legs: seq<Leg>, id: string, side: Side)
    requires forall l :: l in legs && l.positionId == id ==> l.side == side && l.quantity >= 0.0
    ensures side.Buy? ==> SignedAt(legs, id) >= 0.0
    ensures side.Sell? ==> SignedAt(legs, id) <= 0.0
    ensures forall l :: l in legs && l.positionId == id ==> l.quantity <= Abs(SignedAt(legs, id))
  {
    if legs != [] {
      assert legs[0] in legs;
      assert forall l :: l in legs[1..] ==> l in legs;
      OneSided(legs[1..], id, side);
      forall l | l in legs && l.positionId == id
        ensures l.quantity <= Abs(SignedAt(legs, id))
      {
        assert l == legs[0] || l in legs[1..];
      }
    }
  }

  /** Booking one closing leg: the position gives back exactly the leg, realizes nothing, keeps its basis. */
  lemma {:induction false} MoveCloses(h: Holding, leg: Leg)
    requires ClosesAtBasis(leg, h) && leg.quantity <= Abs(h.qty)
    ensures Move(h, leg) == h.(qty := h.qty + leg.Signed())
  {
  }

  /** After the first leg the rest are still within what is left. */
  lemma {:induction false} WithinAfter(h: Holding, legs: seq<Leg>)
    requires legs != [] && Within(legs, h) && legs[0].positionId == h.id
    ensures legs[0].quantity <= Abs(h.qty)
    ensures Within(legs[1..], h.(qty := h.qty + legs[0].Signed()))
  {
    var side := if h.qty > 0.0 then Sell else Buy;
    assert legs[0] in legs;
    assert forall l :: l in legs[1..] ==> l in legs;
    if h.qty != 0.0 {
      OneSided(legs, h.id, side);
      OneSided(legs[1..], h.id, side);
    }
    var h' := h.(qty := h.qty + legs[0].Signed());
    assert SignedAt(legs, h.id) == legs[0].Signed() + SignedAt(legs[1..], h.id);
  }

  /**
   The effect of a whole list of closing legs, whatever their order: every position moves by exactly the
   legs aimed at it, no basis moves, nothing is realized, and no position appears.
   */
  lemma {:induction false} ApplyAllCloses(book: seq<Holding>, legs: seq<Leg>)
    requires UniqueIds(book)
    requires forall l :: l in legs ==> Aimed(book, l)
    requires forall i :: 0 <= i < |book| ==> Within(legs, book[i])
    ensures |ApplyAll(book, legs)| == |book|
    ensures forall i :: 0 <= i < |book| ==>
              ApplyAll(book, legs)[i] == book[i].(qty := book[i].qty + SignedAt(legs, book[i].id))
    decreases |legs|
  {
    if legs != [] {
      var leg := legs[0];
      assert leg in legs;
      var i := Find(book, leg.positionId);
      assert Within(legs, book[i]);
      WithinAfter(book[i], legs);
      MoveCloses(book[i], leg);
      var book' := book[i := Move(book[i], leg)];
      assert ApplyLeg(book, leg) == book';
      assert forall k :: 0 <= k < |book| ==>
        book'[k] == book[k].(qty := book'[k].qty);
      forall l | l in legs[1..]
        ensures Aimed(book', l)
      {
        assert l in legs;
        var k := Find(book, l.positionId);
        FindIs(book', k);
      }
      forall k | 0 <= k < |book'|
        ensures Within(legs[1..], book'[k])
      {
        if k != i {
          assert Within(legs, book[k]);
          assert forall l :: l in legs[1..] ==> l in legs;
        }
      }
      ApplyAllCloses(book', legs[1..]);
    }
  }

  /** Whatever legs are booked, an instrument's net moves by exactly their signed total. */
  lemma {:induction false} NetAfterAll(book: seq<Holding>, legs: seq<Leg>, instrument: string)
    requires UniqueIds(book)
    requires forall l :: l in legs ==> Aimed(book, l)
    ensures NetOn(ApplyAll(book, legs), instrument) == NetOn(book, instrument) + SignedOn(legs, instrument)
    decreases |legs|
  {
    if legs != [] {
      var leg := legs[0];
      assert leg in legs;
      var i := Find(book, leg.positionId);
      var book' := ApplyLeg(book, leg);
      assert book' == book[i := Move(book[i], leg)];
      NetOnUpdate(book, i, Move(book[i], leg), instrument);
      StillAimed(book, leg, legs[1..]);
      NetAfterAll(book', legs[1..], instrument);
    }
  }

  /** A leg that closes leaves every id where it was, so what was aimed still is. */
  lemma {:induction false} StillAimed(book: seq<Holding>, leg: Leg, rest: seq<Leg>)
    requires UniqueIds(book) && Aimed(book, leg) && forall l :: l in rest ==> Aimed(book, l)
    ensures UniqueIds(ApplyLeg(book, leg))
    ensures forall l :: l in rest ==> Aimed(ApplyLeg(book, leg), l)
  {
    var i := Find(book, leg.positionId);
    var book' := ApplyLeg(book, leg);
    assert book' == book[i := Move(book[i], leg)];
    forall l | l in rest
      ensures Aimed(book', l)
    {
      FindIs(book', Find(book, l.positionId));
    }
  }

  lemma {:induction false} ApplyAllConcat(book: seq<Holding>, a: seq<Leg>, b: seq<Leg>)
    ensures ApplyAll(book, a + b) == ApplyAll(ApplyAll(book, a), b)
    decreases |a|
  {
    if a == [] {
      assert a + b == b;
    } else {
      assert (a + b)[0] == a[0] && (a + b)[1..] == a[1..] + b;
      ApplyAllConcat(ApplyLeg(book, a[0]), a[1..], b);
    }
  }

  /**
   Whatever the legs are, closing or flipping, when each names a position of the book: none appears, and each one's quantity
   moves by exactly the legs that name it.
   */
  lemma {:induction false} ApplyAllMoves(book: seq<Holding>, legs: seq<Leg>)
    requires UniqueIds(book)
    requires forall l :: l in legs ==> Aimed(book, l)
    ensures |ApplyAll(book, legs)| == |book|
    ensures forall i :: 0 <= i < |book| ==>
              && ApplyAll(book, legs)[i].qty == book[i].qty + SignedAt(legs, book[i].id)
              && ApplyAll(book, legs)[i].id == book[i].id
              && ApplyAll(book, legs)[i].instrument == book[i].instrument
    decreases |legs|
  {
    if legs != [] {
      var leg := legs[0];
      assert leg in legs;
      var i := Find(book, leg.positionId);
      var book' := ApplyLeg(book, leg);
      assert book' == book[i := Move(book[i], leg)];
      MoveAdds(book[i], leg);
      StillAimed(book, leg, legs[1..]);
      ApplyAllMoves(book', legs[1..]);
      forall k | 0 <= k < |book|
        ensures book'[k].qty == book[k].qty + (if leg.positionId == book[k].id then leg.Signed() else 0.0)
      {
        FindIs(book, k);
      }
    }
  }

  lemma {:induction false} MoveAdds(h: Holding, leg: Leg)
    ensures Move(h, leg).qty == h.qty + leg.Signed()
    ensures Move(h, leg).id == h.id && Move(h, leg).instrument == h.instrument && Move(h, leg).strategy == h.strategy
  {
  }

  /** A leg at the basis of the position it names realizes nothing and leaves the basis, whichever way it takes it. */
  lemma {:induction false} MoveAtBasis(h: Holding, leg: Leg)
    requires leg.price == h.avgPx
    ensures Move(h, leg) == h.(qty := h.qty + leg.Signed())
  {
    var s := leg.Signed();
    if (h.qty > 0.0 && s > 0.0) || (h.qty < 0.0 && s < 0.0) {
      BlendOfEquals(Abs(h.qty), Abs(s), h.avgPx);
    } else if h.qty != 0.0 {
      var gain := if h.qty > 0.0 then leg.price - h.avgPx else h.avgPx - leg.price;
      assert gain == 0.0;
      assert gain * Min(Abs(h.qty), Abs(s)) == 0.0;
    }
  }

  lemma {:induction false} BlendOfEquals(a: real, b: real, px: real)
    requires a > 0.0 && b > 0.0
    ensures (a * px + b * px) / (a + b) == px
  {
    assert a * px + b * px == px * (a + b);
  }

  predicate AtBasis(book: seq<Holding>, legs: seq<Leg>) {
    forall l, i :: l in legs && 0 <= i < |book| && l.positionId == book[i].id ==> l.price == book[i].avgPx
  }

  /** Legs at the bases of the positions they name move quantities and nothing else, even past flat. */
  lemma {:induction false} ApplyAllAtBasis(book: seq<Holding>, legs: seq<Leg>)
    requires UniqueIds(book) && AtBasis(book, legs)
    requires forall l :: l in legs ==> Aimed(book, l)
    ensures |ApplyAll(book, legs)| == |book|
    ensures forall i :: 0 <= i < |book| ==>
              ApplyAll(book, legs)[i] == book[i].(qty := book[i].qty + SignedAt(legs, book[i].id))
    decreases |legs|
  {
    if legs != [] {
      var leg := legs[0];
      assert leg in legs && forall l :: l in legs[1..] ==> l in legs;
      var i := Find(book, leg.positionId);
      var book' := ApplyLeg(book, leg);
      MoveAtBasis(book[i], leg);
      assert book' == book[i := book[i].(qty := book[i].qty + leg.Signed())];
      StillAimed(book, leg, legs[1..]);
      assert forall k :: 0 <= k < |book| ==> book'[k] == book[k].(qty := book'[k].qty);
      ApplyAllAtBasis(book', legs[1..]);
      forall k | 0 <= k < |book|
        ensures book'[k].qty == book[k].qty + (if leg.positionId == book[k].id then leg.Signed() else 0.0)
      {
        FindIs(book, k);
      }
    }
  }

  /** A leg naming no position of the book opens a new one instead of closing anything. */
  lemma {:induction false} MissedAimOpens(book: seq<Holding>, leg: Leg)
    ensures |ApplyLeg(book, leg)| == |book| + 1 <==> (forall h :: h in book ==> h.id != leg.positionId)
  {
    var i := Find(book, leg.positionId);
    if i < |book| {
      assert book[i] in book;
    }
  }
}
