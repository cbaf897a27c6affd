/**
 What a list of fills means (backend/api/cache_repair.py:192-222): a position is a signed running sum that closes at
 zero, and the next fill opens a new instance, as netting does.
 */
module CacheReplay {
  import opened Prelude

  datatype Side = Buy | Sell

  /** One fill as the cache holds it. An empty `positionId` is the absent one. */
  datatype Fill = Fill(coid: string, instrument: string, strategy: string, positionId: string, tradeId: string,
                       venueOrderId: string, side: Side, qty: real, px: real, ts: int, tsInit: int,
                       reconciliation: bool)

  function PositionKey(instrument: string, strategy: string): string {
    instrument + "-" + strategy
  }

  /** A fill with no position id books to the netting position of its lane. */
  function WithPositionId(f: Fill): Fill {
    if f.positionId != "" then f else f.(positionId := PositionKey(f.instrument, f.strategy))
  }

  function Signed(f: Fill): real {
    match f.side
    case Buy => f.qty
    case Sell => -f.qty
  }

  function NetOf(fills: seq<Fill>): real {
    SumBy(fills, Signed)
  }

  /** Replay: each fill joins the open instance, or opens the next one. */
  function Instances(fills: seq<Fill>): (r: seq<seq<Fill>>)
    ensures fills == [] <==> r == []
    ensures forall i :: 0 <= i < |r| ==> r[i] != []
  {
    if fills == [] then []
    else
      var n := |fills| - 1;
      Join(Instances(fills[..n]), fills[n])
  }

  function Join(instances: seq<seq<Fill>>, f: Fill): seq<seq<Fill>> {
    var n := |instances|;
    if n == 0 || NetOf(instances[n - 1]) == 0.0 then instances + [[f]]
    else instances[..n - 1] + [instances[n - 1] + [f]]
  }

  /** The fills of the current instance. */
  function Current(fills: seq<Fill>): (r: seq<Fill>)
    ensures r == [] <==> fills == []
  {
    var r := Instances(fills);
    if r == [] then [] else r[|r| - 1]
  }

  predicate IsOpen(fills: seq<Fill>) {
    Current(fills) != [] && NetOf(Current(fills)) != 0.0
  }

  function Flatten(parts: seq<seq<Fill>>): seq<Fill> {
    if parts == [] then [] else Flatten(parts[..|parts| - 1]) + parts[|parts| - 1]
  }

  /** No instance closes before its last fill. */
  predicate RunsOpen(fills: seq<Fill>) {
    forall k :: 0 < k < |fills| ==> NetOf(fills[..k]) != 0.0
  }

  /** What replay does with a list: cut it, in order, into runs that stay open, all but the last one closed. */
  ghost predicate Segments(fills: seq<Fill>, parts: seq<seq<Fill>>) {
    && Flatten(parts) == fills
    && (forall i :: 0 <= i < |parts| ==> parts[i] != [] && RunsOpen(parts[i]))
    && (forall i :: 0 <= i < |parts| - 1 ==> NetOf(parts[i]) == 0.0)
  }

  lemma {:induction false} ReplaySegments(fills: seq<Fill>)
    ensures Segments(fills, Instances(fills))
  {
    if fills != [] {
      var n := |fills| - 1;
      ReplaySegments(fills[..n]);
      JoinSegments(fills[..n], Instances(fills[..n]), fills[n]);
      assert fills == fills[..n] + [fills[n]];
    }
  }

  lemma {:induction false} JoinSegments(fills: seq<Fill>, parts: seq<seq<Fill>>, f: Fill)
    requires Segments(fills, parts)
    ensures Segments(fills + [f], Join(parts, f))
  {
    var n := |parts|;
    if n == 0 || NetOf(parts[n - 1]) == 0.0 {
      assert (parts + [[f]])[..n] == parts;
    } else {
      var last := parts[n - 1];
      var joined := parts[..n - 1] + [last + [f]];
      assert joined[..n - 1] == parts[..n - 1];
      assert Flatten(joined) == fills + [f];
      forall k | 0 < k < |last + [f]|
        ensures NetOf((last + [f])[..k]) != 0.0
      {
        assert (last + [f])[..k] == last[..k];
        if k == |last| {
          assert last[..k] == last;
        }
      }
      assert RunsOpen(last + [f]);
    }
  }

  /** There is only one way to cut a list so. */
  lemma {:induction false} ReplayOfRun(run: seq<Fill>)
    requires run != [] && RunsOpen(run)
    ensures Instances(run) == [run]
  {
    var n := |run| - 1;
    if n > 0 {
      assert RunsOpen(run[..n]) by {
        forall k | 0 < k < n
          ensures NetOf(run[..n][..k]) != 0.0
        {
          assert run[..n][..k] == run[..k];
        }
      }
      ReplayOfRun(run[..n]);
      assert run == run[..n] + [run[n]];
    } else {
      assert run == [run[0]];
    }
  }

  lemma {:induction false} NetOfClosed(parts: seq<seq<Fill>>)
    requires parts != [] && forall i :: 0 <= i < |parts| - 1 ==> NetOf(parts[i]) == 0.0
    ensures NetOf(Flatten(parts)) == NetOf(parts[|parts| - 1])
  {
    var n := |parts| - 1;
    SumByConcat(Flatten(parts[..n]), parts[n], Signed);
    if n > 0 {
      NetOfClosed(parts[..n]);
    }
  }

  /**
   The fills of the current instance are the last fills of the list; replayed alone they are that one instance
   again; and the signed sum of the whole list is the quantity of the current instance, whatever closed before.
   */
  lemma {:induction false} CurrentIsSuffix(fills: seq<Fill>)
    ensures var cur := Current(fills);
            && |cur| <= |fills| && cur == fills[|fills| - |cur|..]
            && Current(cur) == cur
            && (IsOpen(cur) <==> IsOpen(fills))
            && NetOf(cur) == NetOf(fills)
  {
    ReplaySegments(fills);
    var parts := Instances(fills);
    if parts != [] {
      var n := |parts| - 1;
      assert fills == Flatten(parts[..n]) + parts[n];
      NetOfClosed(parts);
      ReplayOfRun(parts[n]);
    }
  }

  /** An open position is one whose fills do not sum to zero. */
  lemma {:induction false} OpenIffNet(fills: seq<Fill>)
    ensures IsOpen(fills) <==> NetOf(fills) != 0.0
  {
    CurrentIsSuffix(fills);
  }

  /** `replay_position`: the loop that grows the list of instances. */
  method ReplayPosition(fills: seq<Fill>) returns (instances: seq<seq<Fill>>)
    ensures instances == Instances(fills)
  {
    instances := [];
    var n := 0;
    while n < |fills|
      invariant n <= |fills|
      invariant instances == Instances(fills[..n])
    {
      var last := |instances| - 1;
      var f := fills[n];
      assert fills[..n + 1][..n] == fills[..n];
      if instances == [] || NetOf(instances[last]) == 0.0 {
        instances := instances + [[f]];
      } else {
        instances := instances[..last] + [instances[last] + [f]];
      }
      n := n + 1;
    }
    assert fills[..n] == fills;
  }
}
