/**
 `plan_distribution` as a whole (backend/api/budget.py:223-309): from a book of sleeves to the amounts handed
 out, with the two caps it exists to keep.
 */
module Distribution {
  import opened Prelude
  import opened Budget

  function ClaimsOf(sleeves: map<string, Sleeve>, exclude: set<string>): (r: seq<Claim>)
  {
    Claims(sleeves, SortedStrings(sleeves.Keys), exclude)
  }

  function TotalCents(claims: seq<Claim>): int {
    SumInt(claims, CapCents)
  }

  /** The cents in the pot, capped at what the claims hold in whole cents. */
  function PotCents(claims: seq<Claim>, available: real): int {
    var potC := InCents(Min(available, SumBy(claims, RoomOf)));
    if potC <= TotalCents(claims) then potC else TotalCents(claims)
  }

  /** There is capital, there is a shortfall, and both come to at least a cent. */
  predicate Divides(claims: seq<Claim>, available: Money) {
    && available.Finite? && available.v > EPS
    && SumBy(claims, RoomOf) > EPS
    && PotCents(claims, available.v) > 0
  }

  lemma {:induction false} ClaimsHaveRoom(sleeves: map<string, Sleeve>, ids: seq<string>, exclude: set<string>)
    requires forall i :: i in ids ==> i in sleeves
    requires forall i, j :: 0 <= i < j < |ids| ==> ids[i] != ids[j]
    ensures forall c :: c in Claims(sleeves, ids, exclude) <==>
              && c.id in ids && c.id !in exclude && sleeves[c.id].Headroom() == Finite(c.room) && c.room > EPS
    ensures forall i, j :: 0 <= i < j < |Claims(sleeves, ids, exclude)| ==>
              Claims(sleeves, ids, exclude)[i].id != Claims(sleeves, ids, exclude)[j].id
  {
    if ids != [] {
      assert ids == [ids[0]] + ids[1..];
      assert forall i :: 0 <= i < |ids[1..]| ==> ids[1..][i] == ids[i + 1];
      ClaimsHaveRoom(sleeves, ids[1..], exclude);
      var rest := Claims(sleeves, ids[1..], exclude);
      assert forall i :: 0 <= i < |rest| ==> rest[i] in rest;
    }
  }

  lemma {:induction false} ClaimsFacts(sleeves: map<string, Sleeve>, exclude: set<string>)
    ensures var claims := ClaimsOf(sleeves, exclude);
            && (forall c :: c in claims <==> && c.id in sleeves && c.id !in exclude
                                             && sleeves[c.id].Headroom() == Finite(c.room) && c.room > EPS)
            && DistinctClaims(claims)
            && (forall c :: c in claims ==> c.room >= 0.0)
  {
    ClaimsHaveRoom(sleeves, SortedStrings(sleeves.Keys), exclude);
  }

  predicate DistinctClaims(claims: seq<Claim>) {
    forall i, j :: 0 <= i < j < |claims| ==> claims[i].id != claims[j].id
  }

  /** What the distribution hands out. */
  function Planned(sleeves: map<string, Sleeve>, available: Money, exclude: set<string>): seq<Allocation> {
    var claims := ClaimsOf(sleeves, exclude);
    ClaimsFacts(sleeves, exclude);
    if !Divides(claims, available) then []
    else
      var pot, total := PotCents(claims, available.v), TotalCents(claims);
      Listed(claims, Table(Apportion(claims, pot, total)))
  }

  // ---- the loop ------------------------------------------------------------------------------

  predicate DistinctShares(shares: seq<Share>) {
    forall i, j :: 0 <= i < j < |shares| ==> shares[i].id != shares[j].id
  }

  lemma {:induction false} DistinctTail(shares: seq<Share>)
    requires DistinctShares(shares) && shares != []
    ensures DistinctShares(shares[1..])
    ensures forall s :: s in shares[1..] ==> s.id != shares[0].id
    ensures forall s :: s in shares <==> s == shares[0] || s in shares[1..]
  {
    assert shares == [shares[0]] + shares[1..];
    assert forall i :: 0 <= i < |shares[1..]| ==> shares[1..][i] == shares[i + 1];
  }

  /** A table of distinct ids says exactly what each share holds. */
  lemma {:induction false} TableIs(shares: seq<Share>)
    requires DistinctShares(shares)
    ensures forall s :: s in shares ==> s.id in Table(shares) && Table(shares)[s.id] == s.cents
    ensures forall id :: id in Table(shares) ==> exists s :: s in shares && s.id == id
  {
    hide DistinctShares;
    if shares != [] {
      DistinctTail(shares);
      TableIs(shares[1..]);
    }
  }

  lemma {:induction false} TableUpdate(shares: seq<Share>, i: nat, cents: nat)
    requires DistinctShares(shares) && i < |shares|
    ensures DistinctShares(shares[i := shares[i].(cents := cents)])
    ensures Table(shares[i := shares[i].(cents := cents)]) == Table(shares)[shares[i].id := cents]
  {
    var shares' := shares[i := shares[i].(cents := cents)];
    if i > 0 {
      assert shares'[1..] == shares[1..][i - 1 := shares[i].(cents := cents)];
      assert forall k :: 0 <= k < |shares[1..]| ==> shares[1..][k] == shares[k + 1];
      TableUpdate(shares[1..], i - 1, cents);
    } else {
      assert shares'[1..] == shares[1..];
    }
  }

  /** Rearranging shares of distinct ids does not change the table. */
  lemma {:induction false} TablePermutes(a: seq<Share>, b: seq<Share>)
    requires DistinctShares(a) && DistinctShares(b) && (forall s :: s in a <==> s in b)
    ensures Table(a) == Table(b)
  {
    TableIs(a);
    TableIs(b);
    forall id
      ensures id in Table(a) <==> id in Table(b)
      ensures id in Table(a) ==> Table(a)[id] == Table(b)[id]
    {
      if id in Table(a) {
        var s :| s in a && s.id == id;
      }
      if id in Table(b) {
        var s :| s in b && s.id == id;
      }
    }
  }

  lemma {:induction false} FloorIds(claims: seq<Claim>, pot: nat, total: nat)
    requires total > 0 && forall c :: c in claims ==> c.room >= 0.0
    ensures forall i :: 0 <= i < |claims| ==>
              && Floors(claims, pot, total)[i].id == claims[i].id
              && Floors(claims, pot, total)[i].cap == InCents(claims[i].room)
  {
    if claims != [] {
      assert claims == [claims[0]] + claims[1..];
      FloorIds(claims[1..], pot, total);
      forall i | 0 <= i < |claims|
        ensures Floors(claims, pot, total)[i].id == claims[i].id
        ensures Floors(claims, pot, total)[i].cap == InCents(claims[i].room)
      {
        if i > 0 {
          assert claims[i] == claims[1..][i - 1];
        }
      }
    }
  }

  lemma {:induction false} RankedDistinct(claims: seq<Claim>, pot: nat, total: nat)
    requires total > 0 && (forall c :: c in claims ==> c.room >= 0.0) && DistinctClaims(claims)
    ensures DistinctShares(Floors(claims, pot, total))
    ensures DistinctShares(Sort(Floors(claims, pot, total), ByRemainder))
    ensures forall s :: s in Sort(Floors(claims, pot, total), ByRemainder) <==> s in Floors(claims, pot, total)
  {
    FloorIds(claims, pot, total);
    var floors := Floors(claims, pot, total);
    SortKeepsDistinct(floors);
    SortMembers(floors, ByRemainder);
  }

  lemma {:induction false} DistinctWith(x: Share, rest: seq<Share>)
    requires DistinctShares(rest) && forall y :: y in rest ==> y.id != x.id
    ensures DistinctShares([x] + rest)
  {
    assert forall i :: 0 <= i < |rest| ==> rest[i] in rest;
  }

  lemma {:induction false} InsertKeepsDistinct(x: Share, s: seq<Share>)
    requires DistinctShares(s) && forall y :: y in s ==> y.id != x.id
    ensures DistinctShares(Insert(x, s, ByRemainder))
    ensures forall y :: y in Insert(x, s, ByRemainder) <==> y == x || y in s
  {
    hide DistinctShares, ByRemainder;
    if s == [] || ByRemainder(x, s[0]) {
      DistinctWith(x, s);
      assert s == [] ==> [x] + s == [x];
    } else {
      DistinctTail(s);
      InsertKeepsDistinct(x, s[1..]);
      DistinctWith(s[0], Insert(x, s[1..], ByRemainder));
    }
  }

  lemma {:induction false} SortKeepsDistinct(s: seq<Share>)
    requires DistinctShares(s)
    ensures DistinctShares(Sort(s, ByRemainder))
  {
    if s != [] {
      assert forall i :: 0 <= i < |s[1..]| ==> s[1..][i] == s[i + 1];
      SortKeepsDistinct(s[1..]);
      SortMembers(s[1..], ByRemainder);
      assert forall y :: y in s[1..] ==> y.id != s[0].id;
      InsertKeepsDistinct(s[0], Sort(s[1..], ByRemainder));
    }
  }

  /** The loop has dealt with the first `n` in rank; `done` is the shares as they now stand. */
  ghost predicate Midway(ranked: seq<Share>, done: seq<Share>, n: nat, leftover: int, whole: seq<Share>) {
    && n <= |ranked| == |done|
    && DistinctShares(done)
    && done[n..] == ranked[n..]
    && whole == done[..n] + Hand(ranked[n..], leftover)
  }

  /** The share the loop is at, after its turn. */
  function Turn(s: Share): Share {
    if s.cents < s.cap then s.(cents := s.cents + 1) else s
  }

  lemma {:induction false} MidwayStep(ranked: seq<Share>, done: seq<Share>, n: nat, leftover: int, whole: seq<Share>)
    requires Midway(ranked, done, n, leftover, whole) && n < |ranked| && leftover > 0
    ensures done[n] == ranked[n]
    ensures Midway(ranked, done[n := Turn(done[n])], n + 1,
                   if done[n].cents < done[n].cap then leftover - 1 else leftover, whole)
  {
    assert done[n] == done[n..][0] == ranked[n];
    var s, after := Turn(done[n]), done[n := Turn(done[n])];
    assert ranked[n..][1..] == ranked[n + 1..] && done[n..][1..] == done[n + 1..] == after[n + 1..];
    assert ranked[n..][0] == ranked[n];
    var rest := Hand(ranked[n + 1..], if done[n].cents < done[n].cap then leftover - 1 else leftover);
    assert Hand(ranked[n..], leftover) == [s] + rest;
    hide Hand;
    assert after[..n + 1] == done[..n] + [s];
    assert done[..n] + ([s] + rest) == (done[..n] + [s]) + rest;
    assert after[n].id == done[n].id;
  }

  /** The table the loop writes to holds the shares as they stand. */
  ghost predicate Running(ranked: seq<Share>, done: seq<Share>, n: nat, leftover: int, whole: seq<Share>,
                          cents: map<string, nat>) {
    Midway(ranked, done, n, leftover, whole) && cents == Table(done)
  }

  /** `cents[sid] += 1` */
  function AddCent(cents: map<string, nat>, id: string): map<string, nat>
    requires id in cents
  {
    cents[id := cents[id] + 1]
  }

  /** One turn of the loop, told in terms of the table. */
  lemma {:induction false} RunningStep(ranked: seq<Share>, done: seq<Share>, n: nat, leftover: int,
                                       whole: seq<Share>, cents: map<string, nat>)
    returns (after: seq<Share>)
    requires Running(ranked, done, n, leftover, whole, cents) && n < |ranked| && leftover > 0
    ensures ranked[n].id in cents
    ensures var id := ranked[n].id;
            if cents[id] < ranked[n].cap
            then Running(ranked, after, n + 1, leftover - 1, whole, AddCent(cents, id))
            else Running(ranked, after, n + 1, leftover, whole, cents)
  {
    MidwayStep(ranked, done, n, leftover, whole);
    hide Hand, Table;
    TableIs(done);
    assert done[n] in done;
    TableUpdate(done, n, Turn(done[n]).cents);
    after := done[n := Turn(done[n])];
    assert Table(done)[done[n].id := done[n].cents] == Table(done);
  }

  lemma {:induction false} RunningStarts(ranked: seq<Share>, over: int)
    requires DistinctShares(ranked)
    ensures Running(ranked, ranked, 0, over, Hand(ranked, over), Table(ranked))
  {
    assert ranked[0..] == ranked;
    assert ranked[..0] + Hand(ranked, over) == Hand(ranked, over);
  }

  lemma {:induction false} RunningEnds(ranked: seq<Share>, done: seq<Share>, n: nat, leftover: int, whole: seq<Share>,
                                       cents: map<string, nat>)
    requires Running(ranked, done, n, leftover, whole, cents) && (n == |ranked| || leftover <= 0)
    ensures cents == Table(whole)
  {
    assert done == done[..n] + done[n..];
  }

  /** Hand out the leftover cents: the in-place loop over the ranked ids. */
  method HandOut(ranked: seq<Share>, given: map<string, nat>, over: int) returns (cents: map<string, nat>)
    requires DistinctShares(ranked) && given == Table(ranked)
    ensures cents == Table(Hand(ranked, over))
  {
    hide *;
    cents := given;
    var leftover := over;
    ghost var done, whole := ranked, Hand(ranked, over);
    var n := 0;
    RunningStarts(ranked, over);
    while n < |ranked| && leftover > 0
      decreases |ranked| - n
      invariant n <= |ranked|
      invariant Running(ranked, done, n, leftover, whole, cents)
    {
      done := RunningStep(ranked, done, n, leftover, whole, cents);
      var s := ranked[n];
      var id := s.id;
      if cents[id] < s.cap {
        cents := AddCent(cents, id);
        leftover := leftover - 1;
      }
      n := n + 1;
    }
    RunningEnds(ranked, done, n, leftover, whole, cents);
  }

  method PlanDistribution(sleeves: map<string, Sleeve>, available: Money, exclude: set<string>)
    returns (allocations: seq<Allocation>)
    ensures allocations == Planned(sleeves, available, exclude)
  {
    hide ClaimsOf, Floors, Sort, Table, Hand, Listed, SumInt, SumBy, DistinctShares, DistinctClaims, InCents;
    ClaimsFacts(sleeves, exclude);
    if !available.Finite? || available.v <= EPS {
      return [];
    }
    var short := ClaimsOf(sleeves, exclude);
    var totalShort := SumBy(short, RoomOf);
    if totalShort <= EPS {
      return [];
    }
    var potC := InCents(Min(available.v, totalShort));
    var totalC := SumInt(short, CapCents);
    if potC <= 0 || totalC <= 0 {
      return [];
    }
    if potC > totalC {
      potC := totalC;
    }
    var floors := Floors(short, potC, totalC);
    var ranked := Sort(floors, ByRemainder);
    RankedDistinct(short, potC, totalC);
    TablePermutes(ranked, floors);
    var cents := Table(floors);
    cents := HandOut(ranked, cents, potC - SumInt(floors, CentsOf));
    return Listed(short, cents);
  }

  // ---- the two caps --------------------------------------------------------------------------

  /** The cents of the listed claims. */
  function ListedSum(claims: seq<Claim>, cents: map<string, nat>): int {
    if claims == [] then 0
    else (if claims[0].id in cents then cents[claims[0].id] else 0) + ListedSum(claims[1..], cents)
  }

  lemma {:induction false} ListedCents(claims: seq<Claim>, cents: map<string, nat>)
    ensures SumInt(Listed(claims, cents), AllocationCents) == ListedSum(claims, cents)
  {
    if claims != [] {
      ListedCents(claims[1..], cents);
      var rest := Listed(claims[1..], cents);
      if claims[0].id in cents && cents[claims[0].id] > 0 {
        assert ([Allocation(claims[0].id, cents[claims[0].id])] + rest)[1..] == rest;
      } else {
        assert Listed(claims, cents) == rest;
      }
    }
  }

  lemma {:induction false} ListedUpdate(claims: seq<Claim>, cents: map<string, nat>, id: string, c: nat)
    requires DistinctClaims(claims)
    ensures ListedSum(claims, cents[id := c]) - ListedSum(claims, cents)
         == if exists x :: x in claims && x.id == id then c - (if id in cents then cents[id] else 0) else 0
  {
    if claims != [] {
      assert claims == [claims[0]] + claims[1..];
      assert forall i :: 0 <= i < |claims[1..]| ==> claims[1..][i] == claims[i + 1];
      ListedUpdate(claims[1..], cents, id, c);
      assert forall x :: x in claims[1..] ==> x.id != claims[0].id;
      if claims[0].id == id {
        assert claims[0] in claims;
      }
    }
  }

  /** Listing the table of shares over their own claims adds up to the shares. */
  lemma {:induction false} ListedTable(claims: seq<Claim>, shares: seq<Share>)
    requires DistinctClaims(claims) && DistinctShares(shares)
    requires forall s :: s in shares ==> exists c :: c in claims && c.id == s.id
    ensures ListedSum(claims, Table(shares)) == SumInt(shares, CentsOf)
  {
    if shares == [] {
      ListedNothing(claims);
    } else {
      DistinctTail(shares);
      hide DistinctShares, DistinctClaims;
      ListedTable(claims, shares[1..]);
      TableIs(shares[1..]);
      assert shares[0].id !in Table(shares[1..]);
      ListedUpdate(claims, Table(shares[1..]), shares[0].id, shares[0].cents);
    }
  }

  lemma {:induction false} ListedNothing(claims: seq<Claim>)
    ensures ListedSum(claims, map[]) == 0
  {
    if claims != [] {
      ListedNothing(claims[1..]);
    }
  }

  lemma {:induction false} ListedMembers(claims: seq<Claim>, cents: map<string, nat>)
    ensures forall a :: a in Listed(claims, cents) ==>
              a.cents > 0 && a.to in cents && cents[a.to] == a.cents && exists c :: c in claims && c.id == a.to
  {
    if claims != [] {
      assert claims == [claims[0]] + claims[1..];
      ListedMembers(claims[1..], cents);
      assert claims[0] in claims;
    }
  }

  /** A bumped share is still the share of one claim, with that claim's cap. */
  lemma {:induction false} SharesAreClaims(claims: seq<Claim>, pot: nat, total: nat)
    requires 0 < pot <= total && total == TotalCents(claims)
    requires (forall c :: c in claims ==> c.room >= 0.0) && DistinctClaims(claims)
    ensures DistinctShares(Apportion(claims, pot, total))
    ensures forall s :: s in Apportion(claims, pot, total) ==>
              exists c :: c in claims && c.id == s.id && s.cap == InCents(c.room)
  {
    var floors := Floors(claims, pot, total);
    var ranked := Sort(floors, ByRemainder);
    var leftover := pot - SumInt(floors, CentsOf);
    RankedDistinct(claims, pot, total);
    FloorIds(claims, pot, total);
    GuardNeverTaken(claims, pot, total, ranked, leftover);
    hide Sort, Floors, SumInt, Apportion;
    forall s | s in Apportion(claims, pot, total)
      ensures exists c :: c in claims && c.id == s.id && s.cap == InCents(c.room)
    {
      var shares := Bump(ranked, leftover);
      var i :| 0 <= i < |shares| && shares[i] == s;
      assert ranked[i] in ranked;
      var j :| 0 <= j < |floors| && floors[j] == ranked[i];
      assert claims[j] in claims;
    }
  }

  /**
   Conservation and intent: the cents handed out are exactly the pot, which is no more than is available nor
   than the claims hold; each goes to an under-target, non-excluded sleeve, is a positive number of whole
   cents, and does not take the sleeve past its target.
   */
  lemma {:induction false} DistributionLaws(sleeves: map<string, Sleeve>, available: Money, exclude: set<string>)
    ensures var plan := Planned(sleeves, available, exclude);
            var claims := ClaimsOf(sleeves, exclude);
            && (plan != [] ==> Divides(claims, available))
            && (Divides(claims, available) ==> SumInt(plan, AllocationCents) == PotCents(claims, available.v))
            && (forall a :: a in plan ==>
                  && a.cents > 0 && a.to in sleeves && a.to !in exclude
                  && sleeves[a.to].Headroom().Finite? && a.Amount() <= sleeves[a.to].Headroom().v)
  {
    var claims := ClaimsOf(sleeves, exclude);
    ClaimsFacts(sleeves, exclude);
    if Divides(claims, available) {
      var pot, total := PotCents(claims, available.v), TotalCents(claims);
      var shares := Apportion(claims, pot, total);
      ApportionIsExact(claims, pot, total);
      SharesAreClaims(claims, pot, total);
      hide Apportion;
      ListedTable(claims, shares);
      ListedCents(claims, Table(shares));
      ListedMembers(claims, Table(shares));
      TableIs(shares);
      forall a | a in Planned(sleeves, available, exclude)
        ensures a.cents > 0 && a.to in sleeves && a.to !in exclude
        ensures sleeves[a.to].Headroom().Finite? && a.Amount() <= sleeves[a.to].Headroom().v
      {
        var s :| s in shares && s.id == a.to;
        var c :| c in claims && c.id == s.id && s.cap == InCents(c.room);
        CentsFit(a.cents, c.room);
      }
    }
  }

  lemma {:induction false} CentsFit(cents: nat, room: real)
    requires cents <= InCents(room)
    ensures cents as real / 100.0 <= room
  {
  }

  predicate DistinctAllocations(plan: seq<Allocation>) {
    forall i, j :: 0 <= i < j < |plan| ==> plan[i].to != plan[j].to
  }

  lemma {:induction false} ListedDistinct(claims: seq<Claim>, cents: map<string, nat>)
    requires DistinctClaims(claims)
    ensures DistinctAllocations(Listed(claims, cents))
  {
    if claims != [] {
      assert claims == [claims[0]] + claims[1..];
      assert forall i :: 0 <= i < |claims[1..]| ==> claims[1..][i] == claims[i + 1];
      assert forall c :: c in claims[1..] ==> c.id != claims[0].id;
      ListedDistinct(claims[1..], cents);
      ListedMembers(claims[1..], cents);
      var rest := Listed(claims[1..], cents);
      assert forall i :: 0 <= i < |rest| ==> rest[i] in rest;
    }
  }

  /** No sleeve is named twice. */
  lemma {:induction false} PlannedDistinct(sleeves: map<string, Sleeve>, available: Money, exclude: set<string>)
    ensures DistinctAllocations(Planned(sleeves, available, exclude))
  {
    var claims := ClaimsOf(sleeves, exclude);
    ClaimsFacts(sleeves, exclude);
    if Divides(claims, available) {
      ListedDistinct(claims, Table(Apportion(claims, PotCents(claims, available.v), TotalCents(claims))));
    }
  }

  function AmountOf(a: Allocation): real { a.Amount() }

  lemma {:induction false} AmountsAreCents(plan: seq<Allocation>)
    ensures SumBy(plan, AmountOf) == SumInt(plan, AllocationCents) as real / 100.0
  {
    if plan != [] {
      AmountsAreCents(plan[1..]);
    }
  }

  /** Summed as money, a distribution never hands out more than is available. */
  lemma {:induction false} NeverMoreThanAvailable(sleeves: map<string, Sleeve>, available: Money, exclude: set<string>)
    requires Planned(sleeves, available, exclude) != []
    ensures available.Finite? && SumBy(Planned(sleeves, available, exclude), AmountOf) <= available.v
  {
    DistributionLaws(sleeves, available, exclude);
    AmountsAreCents(Planned(sleeves, available, exclude));
    CentsFit(PotCents(ClaimsOf(sleeves, exclude), available.v), available.v);
  }
}
