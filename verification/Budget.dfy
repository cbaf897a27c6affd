/**
 Capital sleeves (backend/api/budget.py): what a sale over target hands on, and the proportional distribution
 of unallocated capital in whole cents by largest remainder.
 */
module Budget {
  import opened Prelude

  const EPS: real := 0.005
  const UNALLOCATED := "UNALLOCATED"

  /** A float as the module meets it: a number, an infinity, or no number at all. */
  datatype Money = Finite(v: real) | Infinite | NotANumber

  datatype Sleeve = Sleeve(id: string, target: Money, actual: real)
  {
    /** What the sleeve is over its target by. A target that is not a number compares false and yields zero. */
    function MustReduce(): real {
      if target.Finite? then Max(0.0, actual - target.v) else 0.0
    }

    function Headroom(): Money {
      match target
      case Finite(t) => Finite(Max(0.0, t - actual))
      case Infinite => Infinite
      case NotANumber => Finite(0.0)
    }

    predicate IsReducing() {
      MustReduce() > EPS
    }
  }

  // ---- a transfer ----------------------------------------------------------------------------

  datatype Transfer = Transfer(from: string, to: string, amount: real, fillId: string)

  predicate HasRoom(recipient: Option<Sleeve>) {
    recipient.Some? && (recipient.value.Headroom().Finite? ==> recipient.value.Headroom().v > EPS)
  }

  /** What moves when `seller` sells for `proceeds`. */
  function PlanTransfer(seller: Sleeve, proceeds: Money, recipient: Option<Sleeve>, fillId: string): Option<Transfer> {
    if !proceeds.Finite? || proceeds.v <= EPS || !seller.IsReducing() then None
    else
      var amount := Min(proceeds.v, seller.MustReduce());
      if !HasRoom(recipient) then Some(Transfer(seller.id, UNALLOCATED, amount, fillId))
      else
        var room := recipient.value.Headroom();
        var capped := if room.Finite? then Min(amount, room.v) else amount;
        if capped <= EPS then None else Some(Transfer(seller.id, recipient.value.id, capped, fillId))
  }

  /**
   A transfer is never more than the sale freed, never takes the donor below its target, never takes the
   recipient above its own, and is as large as that allows; it is parked exactly when the recipient has no room;
   and the last branch of `PlanTransfer` is never taken.
   */
  lemma {:induction false} TransferBounds(seller: Sleeve, proceeds: Money, recipient: Option<Sleeve>, fillId: string)
    ensures var t := PlanTransfer(seller, proceeds, recipient, fillId);
            && (t.Some? <==> proceeds.Finite? && proceeds.v > EPS && seller.IsReducing())
            && (t.Some? ==>
                  && t.value.from == seller.id && t.value.fillId == fillId
                  && EPS < t.value.amount <= proceeds.v
                  && seller.target.Finite? && seller.actual - t.value.amount >= seller.target.v
                  && (t.value.to != UNALLOCATED ==>
                        && recipient.Some? && t.value.to == recipient.value.id
                        && (recipient.value.target.Finite? ==>
                              recipient.value.actual + t.value.amount <= recipient.value.target.v))
                  && (!HasRoom(recipient) ==> t.value.to == UNALLOCATED)
                  && (HasRoom(recipient) ==> t.value.to == recipient.value.id)
                  && (|| t.value.amount == proceeds.v
                      || seller.actual - t.value.amount == seller.target.v
                      || (HasRoom(recipient) && recipient.value.target.Finite?
                          && recipient.value.actual + t.value.amount == recipient.value.target.v)))
  {
  }

  // ---- a distribution ------------------------------------------------------------------------

  /** One under-target sleeve's claim on the pot, in cents, and its standing in the apportionment. */
  datatype Share = Share(id: string, cap: nat, cents: nat, remainder: nat)

  /** An under-target sleeve and the room it has. */
  datatype Claim = Claim(id: string, room: real)

  datatype Allocation = Allocation(to: string, cents: nat)
  {
    function Amount(): real {
      cents as real / 100.0
    }
  }

  function CapOf(s: Share): int { s.cap }
  function CentsOf(s: Share): int { s.cents }
  function RemainderOf(s: Share): int { s.remainder }
  function AllocationCents(a: Allocation): int { a.cents }

  /** Whole cents in an amount. */
  function InCents(amount: real): int {
    (amount * 100.0).Floor
  }

  /** The claims of the under-target sleeves, in the order of their ids. */
  function Claims(sleeves: map<string, Sleeve>, ids: seq<string>, exclude: set<string>): seq<Claim>
    requires forall i :: i in ids ==> i in sleeves
  {
    if ids == [] then []
    else
      assert ids == [ids[0]] + ids[1..];
      var h := sleeves[ids[0]].Headroom();
      (if ids[0] !in exclude && h.Finite? && h.v > EPS then [Claim(ids[0], h.v)] else [])
      + Claims(sleeves, ids[1..], exclude)
  }

  function RoomOf(c: Claim): real { c.room }

  /** Each claim floored to its proportional share of `pot`, with what the flooring left over. */
  function Floors(claims: seq<Claim>, pot: nat, total: nat): (r: seq<Share>)
    requires total > 0 && forall c :: c in claims ==> c.room >= 0.0
    ensures |r| == |claims|
  {
    if claims == [] then []
    else
      assert claims == [claims[0]] + claims[1..];
      var cap: nat := InCents(claims[0].room);
      [Share(claims[0].id, cap, pot * cap / total, pot * cap % total)] + Floors(claims[1..], pot, total)
  }

  function CapCents(c: Claim): int { InCents(c.room) }

  /** Largest remainder first, then by id. */
  predicate ByRemainder(a: Share, b: Share) {
    a.remainder > b.remainder || (a.remainder == b.remainder && StrLe(a.id, b.id))
  }

  /** Hand the leftover cents out in order, one each, to those still under their cap. */
  function Hand(ranked: seq<Share>, leftover: int): (r: seq<Share>)
    ensures |r| == |ranked|
  {
    if ranked == [] || leftover <= 0 then ranked
    else if ranked[0].cents < ranked[0].cap then
      [ranked[0].(cents := ranked[0].cents + 1)] + Hand(ranked[1..], leftover - 1)
    else [ranked[0]] + Hand(ranked[1..], leftover)
  }

  /** The apportionment of `pot` cents over the claims. */
  function Apportion(claims: seq<Claim>, pot: nat, total: nat): seq<Share>
    requires total > 0 && forall c :: c in claims ==> c.room >= 0.0
  {
    var floors := Floors(claims, pot, total);
    Hand(Sort(floors, ByRemainder), pot - SumInt(floors, CentsOf))
  }

  /** The cents of each id. */
  function Table(shares: seq<Share>): map<string, nat> {
    if shares == [] then map[] else Table(shares[1..])[shares[0].id := shares[0].cents]
  }

  /** The positive amounts, in the order of the claims. */
  function Listed(claims: seq<Claim>, cents: map<string, nat>): seq<Allocation> {
    if claims == [] then []
    else
      (if claims[0].id in cents && cents[claims[0].id] > 0 then [Allocation(claims[0].id, cents[claims[0].id])] else [])
      + Listed(claims[1..], cents)
  }

  // ---- the arithmetic of the floors ----------------------------------------------------------

  /** What one floored share is: its exact quota is `cents + remainder / total`. */
  predicate Floored(s: Share, pot: nat, total: nat) {
    total > 0 && pot * s.cap == s.cents * total + s.remainder && s.remainder < total
  }

  lemma {:induction false} DivMod(n: nat, d: nat)
    requires d > 0
    ensures n == n / d * d + n % d && 0 <= n % d < d
  {
  }

  lemma {:induction false} FloorsAreFloored(claims: seq<Claim>, pot: nat, total: nat)
    requires total > 0 && forall c :: c in claims ==> c.room >= 0.0
    ensures forall s :: s in Floors(claims, pot, total) ==> Floored(s, pot, total)
    ensures SumInt(Floors(claims, pot, total), CapOf) == SumInt(claims, CapCents)
  {
    if claims != [] {
      assert claims == [claims[0]] + claims[1..];
      FloorsAreFloored(claims[1..], pot, total);
      var cap: nat := InCents(claims[0].room);
      DivMod(pot * cap, total);
    }
  }

  /** Summed, the exact quotas are the pot: the remainders make up exactly the leftover cents. */
  lemma {:induction false} RemaindersMakeLeftover(shares: seq<Share>, pot: nat, total: nat)
    requires forall s :: s in shares ==> Floored(s, pot, total)
    ensures pot * SumInt(shares, CapOf) == SumInt(shares, CentsOf) * total + SumInt(shares, RemainderOf)
  {
    if shares != [] {
      assert shares[0] in shares && (forall s :: s in shares[1..] ==> s in shares);
      RemaindersMakeLeftover(shares[1..], pot, total);
      Accumulate(pot, total, shares[0].cap, shares[0].cents, shares[0].remainder, SumInt(shares[1..], CapOf),
                 SumInt(shares[1..], CentsOf), SumInt(shares[1..], RemainderOf));
    }
  }

  lemma {:induction false} Accumulate(pot: int, total: int, cap: int, cents: int, rem: int, c: int, f: int, r: int)
    requires pot * cap == cents * total + rem && pot * c == f * total + r
    ensures pot * (cap + c) == (cents + f) * total + (rem + r)
  {
    assert pot * (cap + c) == pot * cap + pot * c;
    assert (cents + f) * total == cents * total + f * total;
  }

  lemma {:induction false} NonNegativeInts(shares: seq<Share>)
    ensures SumInt(shares, CapOf) >= 0 && SumInt(shares, CentsOf) >= 0 && SumInt(shares, RemainderOf) >= 0
  {
    if shares != [] {
      NonNegativeInts(shares[1..]);
    }
  }

  /** When every remainder from `k` on is zero, the remainders sum to less than `k` totals. */
  lemma {:induction false} FewRemainders(shares: seq<Share>, k: nat, total: nat)
    requires k <= |shares| && total > 0
    requires forall s :: s in shares ==> s.remainder < total
    requires forall i :: k <= i < |shares| ==> shares[i].remainder == 0
    ensures SumInt(shares, RemainderOf) <= k * (total - 1)
  {
    if shares != [] {
      assert shares[0] in shares && (forall s :: s in shares[1..] ==> s in shares);
      if k == 0 {
        FewRemainders(shares[1..], 0, total);
      } else {
        FewRemainders(shares[1..], k - 1, total);
        assert k * (total - 1) == (k - 1) * (total - 1) + (total - 1);
      }
    }
  }

  /** The leftover cents never outlast the positive remainders, largest first. */
  lemma {:induction false} LeftoverHasRemainders(ranked: seq<Share>, leftover: int, total: nat, k: nat)
    requires total > 0 && SortedBy(ranked, ByRemainder)
    requires forall s :: s in ranked ==> s.remainder < total
    requires SumInt(ranked, RemainderOf) == leftover * total
    requires k < |ranked| && k < leftover
    ensures ranked[k].remainder > 0
  {
    if ranked[k].remainder == 0 {
      forall i | k <= i < |ranked|
        ensures ranked[i].remainder == 0
      {
        if i > k {
          assert ByRemainder(ranked[k], ranked[i]);
        }
      }
      FewRemainders(ranked, k, total);
      TooFew(k, leftover, total);
    }
  }

  lemma {:induction false} TooFew(k: nat, leftover: int, total: nat)
    requires k < leftover && total > 0
    ensures k * (total - 1) < leftover * total
  {
    assert k * total <= leftover * total;
    assert k * (total - 1) == k * total - k;
    if k == 0 {
      assert leftover * total >= 1;
    }
  }

  lemma {:induction false} SignOfFactor(a: int, b: nat)
    requires b > 0
    ensures a * b >= 0 ==> a >= 0
  {
  }

  lemma {:induction false} LeftoverFits(ranked: seq<Share>, leftover: int, total: nat)
    requires total > 0
    requires forall s :: s in ranked ==> s.remainder < total
    requires SumInt(ranked, RemainderOf) == leftover * total
    ensures 0 <= leftover <= |ranked|
  {
    FewRemainders(ranked, |ranked|, total);
    NonNegativeInts(ranked);
    if leftover > |ranked| {
      TooFew(|ranked|, leftover, total);
    }
    SignOfFactor(leftover, total);
  }

  /** A share with a remainder is below its cap: the guard of the leftover loop never fails. */
  lemma {:induction false} RemainderIsUnderCap(s: Share, pot: nat, total: nat)
    requires Floored(s, pot, total) && pot <= total
    ensures s.cents <= s.cap
    ensures s.remainder > 0 ==> s.cents < s.cap
  {
    ProductsOrder(pot, total, s.cap);
    QuotientOrder(s.cents, s.cap, total, s.remainder);
  }

  lemma {:induction false} ProductsOrder(a: nat, b: nat, c: nat)
    requires a <= b
    ensures a * c <= b * c
  {
  }

  lemma {:induction false} QuotientOrder(q: nat, c: nat, d: nat, r: nat)
    requires d > 0
    ensures q * d + r <= d * c ==> q <= c && (r > 0 ==> q < c)
  {
    if q > c {
      ProductsOrder(c + 1, q, d);
    }
  }

  /** One more cent for the first `leftover`, none for the rest. */
  function Bump(ranked: seq<Share>, leftover: nat): (r: seq<Share>)
    ensures |r| == |ranked|
    ensures forall i :: 0 <= i < |r| ==>
              r[i] == ranked[i].(cents := ranked[i].cents + (if i < leftover then 1 else 0))
  {
    seq(|ranked|, i requires 0 <= i < |ranked| =>
      ranked[i].(cents := ranked[i].cents + (if i < leftover then 1 else 0)))
  }

  lemma {:induction false} HandIsBump(ranked: seq<Share>, leftover: nat)
    requires forall i :: 0 <= i < |ranked| && i < leftover ==> ranked[i].cents < ranked[i].cap
    ensures Hand(ranked, leftover) == Bump(ranked, leftover)
  {
    if ranked != [] && leftover > 0 {
      forall i | 0 <= i < |ranked[1..]| && i < leftover - 1
        ensures ranked[1..][i].cents < ranked[1..][i].cap
      {
        assert ranked[1..][i] == ranked[i + 1];
      }
      HandIsBump(ranked[1..], leftover - 1);
    }
  }

  lemma {:induction false} BumpSum(ranked: seq<Share>, leftover: nat)
    requires leftover <= |ranked|
    ensures SumInt(Bump(ranked, leftover), CentsOf) == SumInt(ranked, CentsOf) + leftover
  {
    if ranked != [] {
      var k := if leftover > 0 then leftover - 1 else 0;
      BumpSum(ranked[1..], k);
      assert Bump(ranked, leftover)[1..] == Bump(ranked[1..], k);
    }
  }

  lemma {:induction false} ByRemainderIsOrder()
    ensures TotalOrder(ByRemainder)
  {
    forall a: Share, b: Share
      ensures ByRemainder(a, b) || ByRemainder(b, a)
    {
      StrLeTotal(a.id, b.id);
    }
    forall a: Share, b: Share, c: Share | ByRemainder(a, b) && ByRemainder(b, c)
      ensures ByRemainder(a, c)
    {
      if a.remainder == b.remainder == c.remainder {
        StrLeTransitive(a.id, b.id, c.id);
      }
    }
  }

  // ---- the apportionment ---------------------------------------------------------------------

  /** The ranked floors and the leftover of one apportionment. */
  ghost predicate Standing(claims: seq<Claim>, pot: nat, total: nat, ranked: seq<Share>, leftover: int) {
    && total > 0 && pot <= total
    && (forall c :: c in claims ==> c.room >= 0.0)
    && total == SumInt(claims, CapCents)
    && ranked == Sort(Floors(claims, pot, total), ByRemainder)
    && leftover == pot - SumInt(Floors(claims, pot, total), CentsOf)
  }

  lemma {:induction false} StandingFacts(claims: seq<Claim>, pot: nat, total: nat, ranked: seq<Share>, leftover: int)
    requires Standing(claims, pot, total, ranked, leftover)
    ensures SortedBy(ranked, ByRemainder)
    ensures multiset(ranked) == multiset(Floors(claims, pot, total))
    ensures forall s :: s in ranked ==> Floored(s, pot, total)
    ensures SumInt(ranked, CentsOf) == pot - leftover
    ensures SumInt(ranked, RemainderOf) == leftover * total
    ensures 0 <= leftover <= |ranked|
  {
    var floors := Floors(claims, pot, total);
    ByRemainderIsOrder();
    SortSorts(floors, ByRemainder);
    SortPermutes(floors, ByRemainder);
    SortMembers(floors, ByRemainder);
    SumIntPermutes(ranked, floors, CentsOf);
    SumIntPermutes(ranked, floors, RemainderOf);
    FloorsAreFloored(claims, pot, total);
    RemaindersMakeLeftover(floors, pot, total);
    LeftoverTimes(pot, total, SumInt(floors, CentsOf), SumInt(floors, RemainderOf));
    hide Floors, Sort, SumInt, ByRemainder;
    LeftoverFits(ranked, leftover, total);
  }

  lemma {:induction false} LeftoverTimes(pot: nat, total: nat, given: int, remainders: int)
    requires pot * total == given * total + remainders
    ensures remainders == (pot - given) * total
  {
  }

  lemma {:induction false} RankedHaveRoom(ranked: seq<Share>, leftover: nat, pot: nat, total: nat)
    requires SortedBy(ranked, ByRemainder) && 0 < total && pot <= total && leftover <= |ranked|
    requires forall s :: s in ranked ==> Floored(s, pot, total)
    requires SumInt(ranked, RemainderOf) == leftover * total
    ensures forall i :: 0 <= i < leftover ==> ranked[i].remainder > 0 && ranked[i].cents < ranked[i].cap
  {
    forall i | 0 <= i < leftover
      ensures ranked[i].remainder > 0 && ranked[i].cents < ranked[i].cap
    {
      assert ranked[i] in ranked;
      assert Floored(ranked[i], pot, total);
      hide SumInt;
      LeftoverHasRemainders(ranked, leftover, total, i);
      RemainderIsUnderCap(ranked[i], pot, total);
    }
  }

  /** The in-loop cap guard is never the branch taken: the leftover goes one cent each to the first in rank. */
  lemma {:induction false} GuardNeverTaken(claims: seq<Claim>, pot: nat, total: nat, ranked: seq<Share>,
                                           leftover: int)
    requires Standing(claims, pot, total, ranked, leftover)
    ensures 0 <= leftover <= |ranked|
    ensures forall i :: 0 <= i < leftover ==> ranked[i].remainder > 0 && ranked[i].cents < ranked[i].cap
    ensures Apportion(claims, pot, total) == Bump(ranked, leftover)
  {
    hide SortedBy, Floored, SumInt, Sort, Floors, ByRemainder;
    StandingFacts(claims, pot, total, ranked, leftover);
    RankedHaveRoom(ranked, leftover, pot, total);
    HandIsBump(ranked, leftover);
  }

  /** A share is its exact quota rounded down or up, within its cap. */
  predicate Fair(s: Share, pot: nat, total: nat) {
    && s.cents <= s.cap
    && s.cents * total < pot * s.cap + total
    && pot * s.cap < s.cents * total + total
  }

  lemma {:induction false} BumpedIsFair(s: Share, pot: nat, total: nat, extra: nat)
    requires Floored(s, pot, total) && pot <= total && extra <= 1
    requires extra == 1 ==> s.remainder > 0
    ensures Fair(s.(cents := s.cents + extra), pot, total)
  {
    RemainderIsUnderCap(s, pot, total);
    assert (s.cents + extra) * total == s.cents * total + extra * total;
  }

  /** A larger cap stands no lower: more whole cents, or the same and a larger remainder. */
  lemma {:induction false} LargerCap(a: Share, b: Share, pot: nat, total: nat)
    requires Floored(a, pot, total) && Floored(b, pot, total) && a.cap > b.cap && pot > 0
    ensures a.cents >= b.cents
    ensures a.cents == b.cents ==> a.remainder > b.remainder
  {
    StrictProduct(pot, b.cap, a.cap);
    QuotientsOrder(a.cents, b.cents, total, a.remainder, b.remainder);
  }

  lemma {:induction false} StrictProduct(pot: nat, small: nat, large: nat)
    requires pot > 0 && small < large
    ensures pot * small < pot * large
  {
  }

  lemma {:induction false} QuotientsOrder(q: nat, q': nat, d: nat, r: nat, r': nat)
    requires r < d
    ensures q * d + r > q' * d + r' ==> q >= q'
  {
    if q < q' {
      ProductsOrder(q + 1, q', d);
      assert (q + 1) * d == q * d + d;
    }
  }

  /**
   Largest remainder on all inputs: the cents handed out are exactly the pot; each share is the floor or the
   ceiling of its exact quota and within its headroom; and a strictly larger shortfall never receives fewer.
   */
  lemma {:induction false} ApportionIsExact(claims: seq<Claim>, pot: nat, total: nat)
    requires forall c :: c in claims ==> c.room >= 0.0
    requires 0 < pot <= total && total == SumInt(claims, CapCents)
    ensures var shares := Apportion(claims, pot, total);
            && SumInt(shares, CentsOf) == pot
            && (forall s :: s in shares ==> Fair(s, pot, total))
            && (forall a, b :: a in shares && b in shares && a.cap > b.cap ==> a.cents >= b.cents)
  {
    var floors := Floors(claims, pot, total);
    var ranked := Sort(floors, ByRemainder);
    var leftover := pot - SumInt(floors, CentsOf);
    StandingFacts(claims, pot, total, ranked, leftover);
    GuardNeverTaken(claims, pot, total, ranked, leftover);
    hide Sort, Floors, SumInt, Apportion, ByRemainder;
    BumpSum(ranked, leftover);
    BumpIsFair(ranked, leftover, pot, total);
  }

  lemma {:induction false} BumpIsFair(ranked: seq<Share>, leftover: nat, pot: nat, total: nat)
    requires SortedBy(ranked, ByRemainder) && 0 < pot <= total && leftover <= |ranked|
    requires forall s :: s in ranked ==> Floored(s, pot, total)
    requires forall i :: 0 <= i < leftover ==> ranked[i].remainder > 0
    ensures forall s :: s in Bump(ranked, leftover) ==> Fair(s, pot, total)
    ensures forall a, b :: a in Bump(ranked, leftover) && b in Bump(ranked, leftover) && a.cap > b.cap ==> a.cents >= b.cents
  {
    hide ByRemainder, Floored, Fair;
    var shares := Bump(ranked, leftover);
    forall s | s in shares
      ensures Fair(s, pot, total)
    {
      var i :| 0 <= i < |shares| && shares[i] == s;
      assert ranked[i] in ranked;
      BumpedIsFair(ranked[i], pot, total, if i < leftover then 1 else 0);
    }
    forall a, b | a in shares && b in shares && a.cap > b.cap
      ensures a.cents >= b.cents
    {
      var i :| 0 <= i < |shares| && shares[i] == a;
      var j :| 0 <= j < |shares| && shares[j] == b;
      LargerClaimKeepsUp(ranked, leftover, pot, total, i, j);
    }
  }

  lemma {:induction false} LargerClaimKeepsUp(ranked: seq<Share>, leftover: nat, pot: nat, total: nat, i: nat, j: nat)
    requires SortedBy(ranked, ByRemainder) && pot > 0
    requires forall s :: s in ranked ==> Floored(s, pot, total)
    requires i < |ranked| && j < |ranked| && ranked[i].cap > ranked[j].cap
    ensures Bump(ranked, leftover)[i].cents >= Bump(ranked, leftover)[j].cents
  {
    assert ranked[i] in ranked && ranked[j] in ranked;
    LargerCap(ranked[i], ranked[j], pot, total);
    if j < i {
      assert ByRemainder(ranked[j], ranked[i]);
    }
  }
}
