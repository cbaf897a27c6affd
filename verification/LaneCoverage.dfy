/**
 Whose stop is resting (backend/api/lane_coverage.py:39-109): protective quantity per lane, and what no lane can be named
 for. The stops given are open, on the leg's reducing side, deduplicated, and have something left.
 */
module LaneCoverage {
  import opened Prelude

  datatype Stop = Stop(coid: string, remaining: real)

  predicate Resting(stops: seq<Stop>) {
    forall s :: s in stops ==> s.remaining > 0.0
  }

  function RemainingOf(s: Stop): real { s.remaining }

  /** The lane the cache names for a client order id, if it names one. */
  function OwnerOf(owners: map<string, string>, coid: string): Option<string> {
    if coid != "" && coid in owners && owners[coid] != "" then Some(owners[coid]) else None
  }

  datatype Coverage = Coverage(byLane: map<string, real>, unattributed: real)
  {
    predicate IsComplete() {
      unattributed == 0.0
    }

    function Of(lane: string): real {
      if lane in byLane then byLane[lane] else 0.0
    }

    function Total(): real {
      SumBy(SortedStrings(byLane.Keys), (lane: string) => Of(lane)) + unattributed
    }
  }

  function Count(c: Coverage, owners: map<string, string>, s: Stop): Coverage {
    if s.remaining <= 0.0 then c
    else
      match OwnerOf(owners, s.coid)
      case None => c.(unattributed := c.unattributed + s.remaining)
      case Some(lane) => c.(byLane := c.byLane[lane := c.Of(lane) + s.remaining])
  }

  function CoverageOf(stops: seq<Stop>, owners: map<string, string>): Coverage
    decreases |stops|
  {
    if stops == [] then Coverage(map[], 0.0)
    else Count(CoverageOf(stops[..|stops| - 1], owners), owners, stops[|stops| - 1])
  }

  method CoverageByLane(stops: seq<Stop>, owners: map<string, string>) returns (c: Coverage)
    ensures c == CoverageOf(stops, owners)
  {
    var byLane: map<string, real> := map[];
    var unattributed := 0.0;
    var n := 0;
    while n < |stops|
      invariant n <= |stops|
      invariant Coverage(byLane, unattributed) == CoverageOf(stops[..n], owners)
    {
      var s := stops[n];
      assert stops[..n + 1][..n] == stops[..n];
      if s.remaining > 0.0 {
        var lane := OwnerOf(owners, s.coid);
        if lane.None? {
          unattributed := unattributed + s.remaining;
        } else {
          byLane := byLane[lane.value := (if lane.value in byLane then byLane[lane.value] else 0.0) + s.remaining];
        }
      }
      n := n + 1;
    }
    assert stops[..n] == stops;
    return Coverage(byLane, unattributed);
  }

  // ---- what coverage says --------------------------------------------------------------------------

  function OwnedBy(owners: map<string, string>, lane: Option<string>): Stop -> bool {
    (s: Stop) => OwnerOf(owners, s.coid) == lane
  }

  /** The stops of one lane, or, for none, those nobody can be named for. */
  function StopsOf(stops: seq<Stop>, owners: map<string, string>, lane: Option<string>): seq<Stop> {
    Filter(stops, OwnedBy(owners, lane))
  }

  lemma {:induction false} StopsOfLast(stops: seq<Stop>, owners: map<string, string>, lane: Option<string>)
    requires stops != []
    ensures StopsOf(stops, owners, lane)
         == StopsOf(stops[..|stops| - 1], owners, lane)
            + (if OwnerOf(owners, stops[|stops| - 1].coid) == lane then [stops[|stops| - 1]] else [])
  {
    var n := |stops| - 1;
    assert stops == stops[..n] + [stops[n]];
    FilterConcat(stops[..n], [stops[n]], OwnedBy(owners, lane));
    assert [stops[n]][1..] == [];
  }

  lemma {:induction false} SumLast(stops: seq<Stop>, s: Stop)
    ensures SumBy(stops + [s], RemainingOf) == SumBy(stops, RemainingOf) + s.remaining
  {
    SumByConcat(stops, [s], RemainingOf);
    assert SumBy([s], RemainingOf) == RemainingOf(s) + SumBy([s][1..], RemainingOf);
  }

  /** Each lane is credited with exactly its own stops, and the unattributed with exactly the rest. */
  lemma {:induction false} CoverageIsPerLane(stops: seq<Stop>, owners: map<string, string>, lane: string)
    requires Resting(stops)
    ensures CoverageOf(stops, owners).Of(lane) == SumBy(StopsOf(stops, owners, Some(lane)), RemainingOf)
    ensures CoverageOf(stops, owners).unattributed == SumBy(StopsOf(stops, owners, None), RemainingOf)
    decreases |stops|
  {
    hide StopsOf;
    if stops == [] {
      assert StopsOf([], owners, Some(lane)) == [] && StopsOf([], owners, None) == [] by { NoStops(owners, lane); }
    } else {
      var n := |stops| - 1;
      assert stops[n] in stops && forall s :: s in stops[..n] ==> s in stops;
      CoverageIsPerLane(stops[..n], owners, lane);
      StopsOfLast(stops, owners, Some(lane));
      StopsOfLast(stops, owners, None);
      SumLast(StopsOf(stops[..n], owners, Some(lane)), stops[n]);
      SumLast(StopsOf(stops[..n], owners, None), stops[n]);
      AppendNothing(StopsOf(stops[..n], owners, Some(lane)));
      AppendNothing(StopsOf(stops[..n], owners, None));
    }
  }

  lemma {:induction false} NoStops(owners: map<string, string>, lane: string)
    ensures StopsOf([], owners, Some(lane)) == [] && StopsOf([], owners, None) == []
  {
  }

  lemma {:induction false} AppendNothing(s: seq<Stop>)
    ensures s + [] == s
  {
  }

  function Credits(c: Coverage): string -> real {
    (lane: string) => c.Of(lane)
  }

  lemma {:induction false} TotalIsSum(c: Coverage)
    ensures c.Total() == SumSet(c.byLane.Keys, Credits(c)) + c.unattributed
  {
    var keys := SortedStrings(c.byLane.Keys);
    SumSetOfList(keys, c.byLane.Keys, Credits(c));
    SumBySame(keys, Credits(c), (lane: string) => c.Of(lane));
  }

  lemma {:induction false} CountAdds(c: Coverage, owners: map<string, string>, s: Stop)
    requires s.remaining > 0.0
    ensures Count(c, owners, s).Total() == c.Total() + s.remaining
  {
    var after := Count(c, owners, s);
    TotalIsSum(c);
    TotalIsSum(after);
    if OwnerOf(owners, s.coid).Some? {
      var lane := OwnerOf(owners, s.coid).value;
      SumSetWithout(after.byLane.Keys, lane, Credits(after));
      assert after.byLane.Keys - {lane} == c.byLane.Keys - {lane};
      SumSetSame(c.byLane.Keys - {lane}, Credits(after), Credits(c));
      if lane in c.byLane {
        SumSetWithout(c.byLane.Keys, lane, Credits(c));
      } else {
        assert c.byLane.Keys - {lane} == c.byLane.Keys;
      }
    } else {
      SumSetSame(c.byLane.Keys, Credits(after), Credits(c));
    }
  }

  /** Two derivations of one fact agree: the lanes and the unattributed add up to everything resting. */
  lemma {:induction false} TotalIsEverything(stops: seq<Stop>, owners: map<string, string>)
    requires Resting(stops)
    ensures CoverageOf(stops, owners).Total() == SumBy(stops, RemainingOf)
    decreases |stops|
  {
    if stops == [] {
      TotalIsSum(Coverage(map[], 0.0));
    } else {
      var n := |stops| - 1;
      assert stops[n] in stops && forall s :: s in stops[..n] ==> s in stops;
      TotalIsEverything(stops[..n], owners);
      CountAdds(CoverageOf(stops[..n], owners), owners, stops[n]);
      assert stops == stops[..n] + [stops[n]];
      SumLast(stops[..n], stops[n]);
    }
  }

  /** The split is complete exactly when every resting stop has an owner; nothing resting is complete. */
  lemma {:induction false} CompleteIff(stops: seq<Stop>, owners: map<string, string>)
    requires Resting(stops)
    ensures CoverageOf(stops, owners).IsComplete() <==> forall s :: s in stops ==> OwnerOf(owners, s.coid).Some?
  {
    CoverageIsPerLane(stops, owners, "");
    var nobody := StopsOf(stops, owners, None);
    SumByNonNegative(nobody, RemainingOf);
    if nobody != [] {
      assert nobody[0] in nobody;
      assert RemainingOf(nobody[0]) > 0.0;
    } else {
      assert SumBy(nobody, RemainingOf) == 0.0;
      assert forall s :: s in stops ==> s !in nobody;
    }
  }
}
