/**
 Which lane's stop is too big (backend/api/lane_oversize.py:54-132): a lane resting more than it holds has its largest
 stops shrunk first until what rests is what it holds; no other lane is touched.
 */
module LaneOversize {
  import opened Prelude
  import opened LaneCoverage

  const QTY_EPS: real := 0.000000001

  datatype Correction = Correction(stop: Stop, held: real, covered: real, target: real)

  datatype Oversize = Disagrees | Incomplete | Corrections(list: seq<Correction>)

  predicate LargestFirst(a: Stop, b: Stop) {
    a.remaining >= b.remaining
  }

  /** Shrink in order until no more than the tolerance is in excess. */
  function Shrink(stops: seq<Stop>, excess: real, held: real, covered: real): seq<Correction> {
    if stops == [] || excess <= QTY_EPS then []
    else
      var take := Min(stops[0].remaining, excess);
      [Correction(stops[0], held, covered, Max(0.0, stops[0].remaining - take))]
      + Shrink(stops[1..], excess - take, held, covered)
  }

  function HeldBy(held: map<string, real>, lane: string): real {
    if lane in held then held[lane] else 0.0
  }

  function Ranked(stops: seq<Stop>, owners: map<string, string>, lane: string): seq<Stop> {
    Sort(StopsOf(stops, owners, Some(lane)), LargestFirst)
  }

  function LaneCorrections(stops: seq<Stop>, owners: map<string, string>, held: map<string, real>, lane: string)
    : seq<Correction>
  {
    var covered := CoverageOf(stops, owners).Of(lane);
    Shrink(Ranked(stops, owners, lane), covered - HeldBy(held, lane), HeldBy(held, lane), covered)
  }

  function AllCorrections(stops: seq<Stop>, owners: map<string, string>, held: map<string, real>, lanes: seq<string>)
    : seq<Correction>
    decreases |lanes|
  {
    if lanes == [] then []
    else
      AllCorrections(stops, owners, held, lanes[..|lanes| - 1])
      + LaneCorrections(stops, owners, held, lanes[|lanes| - 1])
  }

  /** The lanes with something resting. */
  function Lanes(stops: seq<Stop>, owners: map<string, string>): set<string> {
    set s | s in stops && OwnerOf(owners, s.coid).Some? :: OwnerOf(owners, s.coid).value
  }

  function OversizeOf(stops: seq<Stop>, owners: map<string, string>, held: map<string, real>): Oversize {
    var coverage := CoverageOf(stops, owners);
    if Abs(coverage.Total() - SumBy(stops, RemainingOf)) > QTY_EPS then Disagrees
    else if !coverage.IsComplete() then Incomplete
    else Corrections(AllCorrections(stops, owners, held, SortedStrings(Lanes(stops, owners))))
  }

  // ---- the loops ---------------------------------------------------------------------------------

  /** The stops grouped by owner, each group in the order they came. */
  ghost predicate Grouped(groups: map<string, seq<Stop>>, stops: seq<Stop>, owners: map<string, string>) {
    && groups.Keys == Lanes(stops, owners)
    && forall lane :: lane in groups ==> groups[lane] == StopsOf(stops, owners, Some(lane))
  }

  lemma {:induction false} GroupNext(groups: map<string, seq<Stop>>, stops: seq<Stop>, owners: map<string, string>,
                                     s: Stop)
    requires Grouped(groups, stops, owners)
    ensures var lane := OwnerOf(owners, s.coid);
            Grouped(if lane.None? then groups
                    else groups[lane.value := (if lane.value in groups then groups[lane.value] else []) + [s]],
                    stops + [s], owners)
  {
    hide StopsOf, OwnerOf;
    var owner := OwnerOf(owners, s.coid);
    assert (stops + [s])[..|stops|] == stops;
    forall lane
      ensures StopsOf(stops + [s], owners, Some(lane))
           == StopsOf(stops, owners, Some(lane)) + (if owner == Some(lane) then [s] else [])
    {
      StopsOfLast(stops + [s], owners, Some(lane));
    }
    forall lane
      ensures lane in Lanes(stops + [s], owners) <==> lane in Lanes(stops, owners) || owner == Some(lane)
    {
      if owner == Some(lane) {
        assert s in stops + [s];
      }
    }
    if owner.Some? && owner.value !in groups {
      NobodysStops(stops, owners, owner.value);
    }
  }

  lemma {:induction false} NobodysStops(stops: seq<Stop>, owners: map<string, string>, lane: string)
    requires lane !in Lanes(stops, owners)
    ensures StopsOf(stops, owners, Some(lane)) == []
  {
    forall s | s in stops
      ensures !OwnedBy(owners, Some(lane))(s)
    {
      assert OwnerOf(owners, s.coid).Some? ==> OwnerOf(owners, s.coid).value in Lanes(stops, owners);
    }
    FilterNone(stops, OwnedBy(owners, Some(lane)));
  }

  method GroupByLane(stops: seq<Stop>, owners: map<string, string>) returns (groups: map<string, seq<Stop>>)
    ensures Grouped(groups, stops, owners)
  {
    hide StopsOf, OwnerOf;
    groups := map[];
    var n := 0;
    while n < |stops|
      invariant n <= |stops|
      invariant Grouped(groups, stops[..n], owners)
    {
      GroupNext(groups, stops[..n], owners, stops[n]);
      assert stops[..n + 1] == stops[..n] + [stops[n]];
      var lane := OwnerOf(owners, stops[n].coid);
      if lane.Some? {
        groups := groups[lane.value := (if lane.value in groups then groups[lane.value] else []) + [stops[n]]];
      }
      n := n + 1;
    }
    assert stops[..n] == stops;
  }

  method OversizeByLane(stops: seq<Stop>, owners: map<string, string>, held: map<string, real>)
    returns (r: Oversize)
    ensures r == OversizeOf(stops, owners, held)
  {
    hide Grouped, CoverageOf, Lanes, AllCorrections, SortedStrings, SumBy;
    var coverage := CoverageByLane(stops, owners);
    if Abs(coverage.Total() - SumBy(stops, RemainingOf)) > QTY_EPS {
      return Disagrees;
    }
    if !coverage.IsComplete() {
      return Incomplete;
    }
    var groups := GroupByLane(stops, owners);
    var list := CorrectLanes(groups, coverage, held, stops, owners);
    return Corrections(list);
  }

  lemma {:induction false} NoLanes(stops: seq<Stop>, owners: map<string, string>, held: map<string, real>)
    ensures AllCorrections(stops, owners, held, []) == []
  {
  }

  lemma {:induction false} NextLane(stops: seq<Stop>, owners: map<string, string>, held: map<string, real>,
                                    lanes: seq<string>, n: nat)
    requires n < |lanes|
    ensures AllCorrections(stops, owners, held, lanes[..n + 1])
         == AllCorrections(stops, owners, held, lanes[..n]) + LaneCorrections(stops, owners, held, lanes[n])
  {
    hide LaneCorrections;
    assert lanes[..n + 1][..n] == lanes[..n];
  }

  /** The outer loop, over the lanes in order. */
  method CorrectLanes(groups: map<string, seq<Stop>>, coverage: Coverage, held: map<string, real>,
                      ghost stops: seq<Stop>, ghost owners: map<string, string>)
    returns (list: seq<Correction>)
    requires Grouped(groups, stops, owners) && coverage == CoverageOf(stops, owners)
    ensures list == AllCorrections(stops, owners, held, SortedStrings(Lanes(stops, owners)))
  {
    hide Grouped, CoverageOf, Lanes, Shrink, Ranked, HeldBy, SortedStrings, AllCorrections;
    GroupsAre(groups, stops, owners);
    var lanes := SortedStrings(groups.Keys);
    list := [];
    var n := 0;
    NoLanes(stops, owners, held);
    while n < |lanes|
      invariant n <= |lanes|
      invariant list == AllCorrections(stops, owners, held, lanes[..n])
    {
      var lane := lanes[n];
      assert lane in lanes;
      NextLane(stops, owners, held, lanes, n);
      var covered := coverage.Of(lane);
      var more := ShrinkLane(Sort(groups[lane], LargestFirst), covered - HeldBy(held, lane), HeldBy(held, lane), covered);
      list := list + more;
      n := n + 1;
    }
    assert lanes[..n] == lanes;
  }

  lemma {:induction false} GroupsAre(groups: map<string, seq<Stop>>, stops: seq<Stop>, owners: map<string, string>)
    requires Grouped(groups, stops, owners)
    ensures groups.Keys == Lanes(stops, owners)
    ensures forall lane :: lane in groups ==> Sort(groups[lane], LargestFirst) == Ranked(stops, owners, lane)
  {
  }

  method ShrinkLane(ranked: seq<Stop>, over: real, held: real, covered: real) returns (list: seq<Correction>)
    ensures list == Shrink(ranked, over, held, covered)
  {
    list := [];
    var excess := over;
    var n := 0;
    assert ranked[0..] == ranked;
    while n < |ranked| && excess > QTY_EPS
      invariant n <= |ranked|
      invariant list + Shrink(ranked[n..], excess, held, covered) == Shrink(ranked, over, held, covered)
    {
      var s := ranked[n];
      assert ranked[n..][0] == s && ranked[n..][1..] == ranked[n + 1..];
      var take := Min(s.remaining, excess);
      var c := Correction(s, held, covered, Max(0.0, s.remaining - take));
      assert list + ([c] + Shrink(ranked[n + 1..], excess - take, held, covered))
          == (list + [c]) + Shrink(ranked[n + 1..], excess - take, held, covered);
      list := list + [c];
      excess := excess - take;
      n := n + 1;
    }
    assert list + [] == list;
  }

  // ---- what the corrections leave resting --------------------------------------------------------

  function TargetOf(c: Correction): real { c.target }

  /** What a lane's stops rest at once the corrections, which are for the first of them, are in. */
  function RestingAfter(ranked: seq<Stop>, list: seq<Correction>): real
    requires |list| <= |ranked|
  {
    SumBy(list, TargetOf) + SumBy(ranked[|list|..], RemainingOf)
  }

  /** Each correction is for the stop of its rank and brings it strictly down, never below zero. */
  lemma {:induction false} ShrinkTargets(ranked: seq<Stop>, excess: real, held: real, covered: real)
    requires Resting(ranked)
    ensures var list := Shrink(ranked, excess, held, covered);
            && |list| <= |ranked|
            && forall i :: 0 <= i < |list| ==>
                 && list[i].stop == ranked[i] && list[i].held == held && list[i].covered == covered
                 && 0.0 <= list[i].target < ranked[i].remaining
  {
    if ranked != [] && excess > QTY_EPS {
      assert ranked[0] in ranked && forall s :: s in ranked[1..] ==> s in ranked;
      ShrinkTargets(ranked[1..], excess - Min(ranked[0].remaining, excess), held, covered);
    }
  }

  /** What rests afterwards: everything, when the excess is within tolerance; otherwise the excess is gone, to within it. */
  lemma {:induction false} ShrinkLands(ranked: seq<Stop>, excess: real, held: real, covered: real)
    requires Resting(ranked)
    ensures |Shrink(ranked, excess, held, covered)| <= |ranked|
    ensures var total := SumBy(ranked, RemainingOf);
            var after := RestingAfter(ranked, Shrink(ranked, excess, held, covered));
            var want := Max(0.0, total - excess);
            if excess <= QTY_EPS then after == total else want <= after <= want + QTY_EPS
  {
    hide RestingAfter, SumBy;
    RestingUncorrected(ranked);
    if ranked != [] && excess > QTY_EPS {
      assert ranked[0] in ranked && forall s :: s in ranked[1..] ==> s in ranked;
      var take := Min(ranked[0].remaining, excess);
      ShrinkLands(ranked[1..], excess - take, held, covered);
      SumByNonNegative(ranked[1..], RemainingOf);
      RestingAfterFirst(ranked, Correction(ranked[0], held, covered, Max(0.0, ranked[0].remaining - take)),
                        Shrink(ranked[1..], excess - take, held, covered));
    }
  }

  lemma {:induction false} RestingUncorrected(ranked: seq<Stop>)
    ensures RestingAfter(ranked, []) == SumBy(ranked, RemainingOf)
    ensures ranked != [] ==> SumBy(ranked, RemainingOf) == ranked[0].remaining + SumBy(ranked[1..], RemainingOf)
    ensures ranked == [] ==> SumBy(ranked, RemainingOf) == 0.0
  {
    assert ranked[0..] == ranked;
  }

  lemma {:induction false} RestingAfterFirst(ranked: seq<Stop>, c: Correction, rest: seq<Correction>)
    requires ranked != [] && |rest| <= |ranked| - 1
    ensures RestingAfter(ranked, [c] + rest) == c.target + RestingAfter(ranked[1..], rest)
  {
    var list := [c] + rest;
    assert list[1..] == rest;
    assert ranked[|list|..] == ranked[1..][|rest|..];
  }

  lemma {:induction false} RankedIsLane(stops: seq<Stop>, owners: map<string, string>, lane: string)
    requires Resting(stops)
    ensures Resting(Ranked(stops, owners, lane))
    ensures SumBy(Ranked(stops, owners, lane), RemainingOf) == CoverageOf(stops, owners).Of(lane)
    ensures SortedBy(Ranked(stops, owners, lane), LargestFirst)
    ensures multiset(Ranked(stops, owners, lane)) == multiset(StopsOf(stops, owners, Some(lane)))
  {
    var mine := StopsOf(stops, owners, Some(lane));
    SortMembers(mine, LargestFirst);
    SortPermutes(mine, LargestFirst);
    SortSorts(mine, LargestFirst);
    SumByPermutes(Ranked(stops, owners, lane), mine, RemainingOf);
    CoverageIsPerLane(stops, owners, lane);
  }

  /**
   After the corrections a lane rests what it holds or what it had, whichever is less, to within the tolerance; every
   target lies between zero and what the order had left; and a lane not in excess has none.
   */
  lemma {:induction false} LaneLands(stops: seq<Stop>, owners: map<string, string>, held: map<string, real>, lane: string)
    requires Resting(stops)
    ensures var list := LaneCorrections(stops, owners, held, lane);
            var ranked := Ranked(stops, owners, lane);
            var covered := CoverageOf(stops, owners).Of(lane);
            var want := Min(covered, Max(0.0, HeldBy(held, lane)));
            && |list| <= |ranked|
            && want <= RestingAfter(ranked, list) <= want + QTY_EPS
            && (covered - HeldBy(held, lane) <= QTY_EPS ==> list == [])
            && (forall i :: 0 <= i < |list| ==>
                  list[i].stop == ranked[i] && 0.0 <= list[i].target < ranked[i].remaining)
  {
    hide Ranked, CoverageOf, Resting, Shrink, SumBy, SortedBy, RestingAfter;
    RankedIsLane(stops, owners, lane);
    var covered := CoverageOf(stops, owners).Of(lane);
    CoveredNotNegative(stops, owners, lane);
    ShrinkNothing(Ranked(stops, owners, lane), covered - HeldBy(held, lane), HeldBy(held, lane), covered);
    ShrinkTargets(Ranked(stops, owners, lane), covered - HeldBy(held, lane), HeldBy(held, lane), covered);
    ShrinkLands(Ranked(stops, owners, lane), covered - HeldBy(held, lane), HeldBy(held, lane), covered);
  }

  lemma {:induction false} ShrinkNothing(ranked: seq<Stop>, excess: real, held: real, covered: real)
    ensures excess <= QTY_EPS ==> Shrink(ranked, excess, held, covered) == []
  {
  }

  lemma {:induction false} CoveredNotNegative(stops: seq<Stop>, owners: map<string, string>, lane: string)
    requires Resting(stops)
    ensures CoverageOf(stops, owners).Of(lane) >= 0.0
  {
    CoverageIsPerLane(stops, owners, lane);
    SumByNonNegative(StopsOf(stops, owners, Some(lane)), RemainingOf);
  }

  /** Every correction is for a stop of a lane in excess. */
  lemma {:induction false} OnlyExcessTouched(stops: seq<Stop>, owners: map<string, string>, held: map<string, real>,
                                             lanes: seq<string>)
    requires Resting(stops)
    ensures forall c :: c in AllCorrections(stops, owners, held, lanes) ==>
              exists lane :: && lane in lanes && OwnerOf(owners, c.stop.coid) == Some(lane) && c.stop in stops
                             && CoverageOf(stops, owners).Of(lane) - HeldBy(held, lane) > QTY_EPS
    decreases |lanes|
  {
    hide CoverageOf, Ranked, LaneCorrections;
    if lanes != [] {
      var n := |lanes| - 1;
      var lane := lanes[n];
      assert lanes == lanes[..n] + [lane];
      OnlyExcessTouched(stops, owners, held, lanes[..n]);
      LaneLands(stops, owners, held, lane);
      RankedMembers(stops, owners, lane);
      forall c | c in LaneCorrections(stops, owners, held, lane)
        ensures OwnerOf(owners, c.stop.coid) == Some(lane) && c.stop in stops
      {
        var i :| 0 <= i < |LaneCorrections(stops, owners, held, lane)| && LaneCorrections(stops, owners, held, lane)[i] == c;
        assert Ranked(stops, owners, lane)[i] in Ranked(stops, owners, lane);
      }
    }
  }

  lemma {:induction false} RankedMembers(stops: seq<Stop>, owners: map<string, string>, lane: string)
    ensures forall s :: s in Ranked(stops, owners, lane) <==> s in stops && OwnerOf(owners, s.coid) == Some(lane)
  {
    SortMembers(StopsOf(stops, owners, Some(lane)), LargestFirst);
  }

  /** The coverage check never fires on resting stops, and one stop nobody owns means no correction at all. */
  lemma {:induction false} NoCorrectionOnAGuess(stops: seq<Stop>, owners: map<string, string>, held: map<string, real>)
    requires Resting(stops)
    ensures OversizeOf(stops, owners, held) != Disagrees
    ensures OversizeOf(stops, owners, held) == Incomplete <==> exists s :: s in stops && OwnerOf(owners, s.coid).None?
  {
    TotalIsEverything(stops, owners);
    CompleteIff(stops, owners);
  }

  // ---- as few orders as possible -------------------------------------------------------------------

  /** All but the last of the stops shrunk leave more than the tolerance still in excess. */
  lemma {:induction false} ShrinkStopsInTime(ranked: seq<Stop>, excess: real, held: real, covered: real)
    requires Resting(ranked)
    ensures var k := |Shrink(ranked, excess, held, covered)|;
            k <= |ranked| && (k > 0 ==> excess - SumBy(ranked[..k - 1], RemainingOf) > QTY_EPS)
  {
    if ranked != [] && excess > QTY_EPS {
      assert ranked[0] in ranked && forall s :: s in ranked[1..] ==> s in ranked;
      var take := Min(ranked[0].remaining, excess);
      ShrinkStopsInTime(ranked[1..], excess - take, held, covered);
      var k := |Shrink(ranked, excess, held, covered)|;
      if k > 1 {
        assert ranked[..k - 1][1..] == ranked[1..][..k - 2];
        assert ranked[..k - 1][0] == ranked[0];
      } else {
        assert ranked[..0] == [];
      }
    }
  }

  function RemainingAt(ranked: seq<Stop>): int -> real {
    (i: int) => if 0 <= i < |ranked| then ranked[i].remaining else 0.0
  }

  lemma {:induction false} IndexCount(chosen: set<int>, n: nat)
    requires forall i :: i in chosen ==> 0 <= i < n
    ensures |chosen| <= n
  {
    if n == 0 {
      if chosen != {} {
        var i := AnyOf(chosen);
        assert false;
      }
    } else {
      IndexCount(chosen - {n - 1}, n - 1);
    }
  }

  /** No choice of stops weighs more than as many of the largest. */
  lemma {:induction false} LargestWeighMost(ranked: seq<Stop>, chosen: set<int>)
    requires SortedBy(ranked, LargestFirst) && Resting(ranked)
    requires forall i :: i in chosen ==> 0 <= i < |ranked|
    ensures |chosen| <= |ranked|
    ensures SumSet(chosen, RemainingAt(ranked)) <= SumBy(ranked[..|chosen|], RemainingOf)
    decreases |ranked|
  {
    hide SortedBy, Resting;
    IndexCount(chosen, |ranked|);
    if ranked != [] {
      var n := |ranked| - 1;
      RankedPrefix(ranked, n);
      var rest := chosen - {n};
      IndexCount(rest, n);
      LargestWeighMost(ranked[..n], rest);
      SumSetSame(rest, RemainingAt(ranked), RemainingAt(ranked[..n]));
      assert ranked[..n][..|rest|] == ranked[..|rest|];
      if n in chosen {
        WeighOneMore(ranked, chosen);
      } else {
        assert rest == chosen;
      }
    }
  }

  lemma {:induction false} RankedPrefix(ranked: seq<Stop>, n: nat)
    requires n <= |ranked| && SortedBy(ranked, LargestFirst) && Resting(ranked)
    ensures SortedBy(ranked[..n], LargestFirst) && Resting(ranked[..n])
  {
    assert forall s :: s in ranked[..n] ==> s in ranked;
  }

  lemma {:induction false} WeighOneMore(ranked: seq<Stop>, chosen: set<int>)
    requires SortedBy(ranked, LargestFirst) && |ranked| - 1 in chosen && |chosen| <= |ranked|
    requires var rest := chosen - {|ranked| - 1};
             && |rest| <= |ranked| - 1
             && SumSet(rest, RemainingAt(ranked)) <= SumBy(ranked[..|rest|], RemainingOf)
    ensures SumSet(chosen, RemainingAt(ranked)) <= SumBy(ranked[..|chosen|], RemainingOf)
  {
    hide SumSet, SumBy;
    var n := |ranked| - 1;
    var rest := chosen - {n};
    SumSetWithout(chosen, n, RemainingAt(ranked));
    assert |chosen| == |rest| + 1;
    assert ranked[..|chosen|] == ranked[..|rest|] + [ranked[|rest|]];
    SumLast(ranked[..|rest|], ranked[|rest|]);
    assert |rest| < n ==> LargestFirst(ranked[|rest|], ranked[n]);
  }

  /**
   Largest-first touches the fewest orders possible: cancelling outright any smaller number of the lane's stops would
   still leave more than the tolerance resting over what the lane holds.
   */
  lemma {:induction false} FewestTouched(stops: seq<Stop>, owners: map<string, string>, held: map<string, real>,
                                         lane: string, chosen: set<int>)
    requires Resting(stops)
    requires forall i :: i in chosen ==> 0 <= i < |Ranked(stops, owners, lane)|
    requires |chosen| < |LaneCorrections(stops, owners, held, lane)|
    ensures CoverageOf(stops, owners).Of(lane) - SumSet(chosen, RemainingAt(Ranked(stops, owners, lane)))
          > HeldBy(held, lane) + QTY_EPS
  {
    hide Ranked, CoverageOf, Shrink, SortedBy;
    var ranked := Ranked(stops, owners, lane);
    var covered := CoverageOf(stops, owners).Of(lane);
    RankedIsLane(stops, owners, lane);
    var k := |LaneCorrections(stops, owners, held, lane)|;
    ShrinkStopsInTime(ranked, covered - HeldBy(held, lane), HeldBy(held, lane), covered);
    LargestWeighMost(ranked, chosen);
    PrefixGrows(ranked, |chosen|, k - 1);
  }

  lemma {:induction false} PrefixGrows(ranked: seq<Stop>, a: nat, b: nat)
    requires Resting(ranked) && a <= b <= |ranked|
    ensures SumBy(ranked[..a], RemainingOf) <= SumBy(ranked[..b], RemainingOf)
  {
    assert ranked[..b] == ranked[..a] + ranked[a..b];
    SumByConcat(ranked[..a], ranked[a..b], RemainingOf);
    SumByNonNegative(ranked[a..b], RemainingOf);
  }
}
