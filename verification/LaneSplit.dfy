/**
 One row per holding lane (backend/api/lane_split.py:85-195): where the cache can say who holds what, a broker row becomes
 its lanes' rows; where it cannot, the row stays as it is and the divergence is reported.
 */
module LaneSplit {
  import opened Prelude

  const QTY_TOLERANCE: real := 0.000001

  datatype Reading = Num(v: real) | NotANumber

  datatype Row = Row(instrument: string, strategy: string, quantity: Reading, short: bool, marketValue: real)

  /** A cached position. One that cannot say whether it is open has no `open`. */
  datatype Holding = Holding(instrument: string, strategy: string, open: Option<bool>, qty: Reading)

  datatype Divergence = Divergence(instrument: string, brokerNet: Option<Reading>, cacheNet: Option<Reading>)

  function SignedQty(row: Row): Reading {
    match row.quantity
    case NotANumber => NotANumber
    case Num(v) => Num(if row.short then -Abs(v) else Abs(v))
  }

  function OpenOn(instrument: string): Holding -> bool {
    (h: Holding) => h.instrument == instrument && h.open == Some(true)
  }

  function Legs(holdings: seq<Holding>, instrument: string): seq<Holding> {
    Filter(holdings, OpenOn(instrument))
  }

  predicate IsMute(holdings: seq<Holding>, instrument: string) {
    exists h :: h in holdings && h.instrument == instrument && h.open.None?
  }

  function Plus(a: Reading, b: Reading): Reading {
    if a.Num? && b.Num? then Num(a.v + b.v) else NotANumber
  }

  function NetOf(legs: seq<Holding>): Reading {
    if legs == [] then Num(0.0) else Plus(NetOf(legs[..|legs| - 1]), legs[|legs| - 1].qty)
  }

  /** The price the broker's own row implies. */
  function ImpliedPrice(row: Row, brokerNet: real): real {
    if brokerNet != 0.0 then row.marketValue / brokerNet else 0.0
  }

  function LaneRow(row: Row, h: Holding, px: real): Row
    requires h.qty.Num?
  {
    row.(strategy := h.strategy, quantity := Num(Abs(h.qty.v)), short := h.qty.v < 0.0, marketValue := Times(h.qty.v, px))
  }

  predicate Readable(legs: seq<Holding>) {
    forall h :: h in legs ==> h.qty.Num?
  }

  /** A row for each leg that is more than nothing. */
  function LaneRows(row: Row, legs: seq<Holding>, px: real): seq<Row>
    requires Readable(legs)
  {
    if legs == [] then []
    else
      var n := |legs| - 1;
      assert legs[n] in legs;
      LaneRows(row, legs[..n], px)
      + (if Abs(legs[n].qty.v) <= QTY_TOLERANCE then [] else [LaneRow(row, legs[n], px)])
  }

  lemma {:induction false} ReadableNet(legs: seq<Holding>)
    ensures NetOf(legs).Num? <==> Readable(legs)
  {
    if legs != [] {
      var n := |legs| - 1;
      assert legs == legs[..n] + [legs[n]] && legs[n] in legs;
      ReadableNet(legs[..n]);
    }
  }

  /** The broker's net and the lanes' agree, and both are numbers. */
  predicate Splits(row: Row, holdings: seq<Holding>) {
    var mine := Legs(holdings, row.instrument);
    && !IsMute(holdings, row.instrument)
    && mine != []
    && SignedQty(row).Num? && NetOf(mine).Num?
    && Abs(NetOf(mine).v - SignedQty(row).v) <= QTY_TOLERANCE
  }

  function SplitRow(row: Row, holdings: seq<Holding>): (seq<Row>, seq<Divergence>) {
    var mine := Legs(holdings, row.instrument);
    ReadableNet(mine);
    if Splits(row, holdings) then (LaneRows(row, mine, ImpliedPrice(row, SignedQty(row).v)), [])
    else ([row], [Divergence(row.instrument, Some(SignedQty(row)), Some(NetOf(mine)))])
  }

  function SplitRows(rows: seq<Row>, holdings: seq<Holding>): (seq<Row>, seq<Divergence>)
    decreases |rows|
  {
    if rows == [] then ([], [])
    else
      var n := |rows| - 1;
      var before := SplitRows(rows[..n], holdings);
      var last := SplitRow(rows[n], holdings);
      (before.0 + last.0, before.1 + last.1)
  }

  /** The instruments the cache holds, or cannot describe, and the broker does not mention. */
  function Unmentioned(rows: seq<Row>, holdings: seq<Holding>): set<string> {
    set h | h in holdings && h.open != Some(false) && (forall r :: r in rows ==> r.instrument != h.instrument) :: h.instrument
  }

  function Silent(holdings: seq<Holding>, instrument: string): Divergence {
    var net := NetOf(Legs(holdings, instrument));
    Divergence(instrument, None, if net.Num? then Some(net) else None)
  }

  function SilentAll(holdings: seq<Holding>, instruments: seq<string>): (r: seq<Divergence>)
    ensures |r| == |instruments|
    ensures forall i :: 0 <= i < |r| ==> r[i] == Silent(holdings, instruments[i])
  {
    seq(|instruments|, i requires 0 <= i < |instruments| => Silent(holdings, instruments[i]))
  }

  method SplitByLane(rows: seq<Row>, holdings: seq<Holding>) returns (out: seq<Row>, divergent: seq<Divergence>)
    ensures out == SplitRows(rows, holdings).0
    ensures divergent == SplitRows(rows, holdings).1 + SilentAll(holdings, SortedStrings(Unmentioned(rows, holdings)))
  {
    hide Legs, IsMute, NetOf, LaneRows, Readable, Unmentioned, SortedStrings;
    out, divergent := [], [];
    var n := 0;
    while n < |rows|
      invariant n <= |rows|
      invariant (out, divergent) == SplitRows(rows[..n], holdings)
    {
      var row := rows[n];
      assert rows[..n + 1][..n] == rows[..n];
      var brokerNet := SignedQty(row);
      var mine := Legs(holdings, row.instrument);
      var cacheNet := NetOf(mine);
      ReadableNet(mine);
      if IsMute(holdings, row.instrument) || mine == [] || brokerNet.NotANumber? || cacheNet.NotANumber?
         || Abs(cacheNet.v - brokerNet.v) > QTY_TOLERANCE {
        out := out + [row];
        divergent := divergent + [Divergence(row.instrument, Some(brokerNet), Some(cacheNet))];
      } else {
        var lanes := RowsOfLanes(row, mine, ImpliedPrice(row, brokerNet.v));
        out := out + lanes;
        assert divergent + [] == divergent;
      }
      n := n + 1;
    }
    assert rows[..n] == rows;
    divergent := divergent + SilentAll(holdings, SortedStrings(Unmentioned(rows, holdings)));
  }

  method RowsOfLanes(row: Row, legs: seq<Holding>, px: real) returns (out: seq<Row>)
    requires Readable(legs)
    ensures out == LaneRows(row, legs, px)
  {
    out := [];
    var n := 0;
    while n < |legs|
      invariant n <= |legs|
      invariant Readable(legs[..n]) && out == LaneRows(row, legs[..n], px)
    {
      assert legs[..n + 1][..n] == legs[..n];
      assert legs[n] in legs && forall h :: h in legs[..n + 1] ==> h in legs;
      if Abs(legs[n].qty.v) > QTY_TOLERANCE {
        out := out + [LaneRow(row, legs[n], px)];
      }
      n := n + 1;
    }
    assert legs[..n] == legs;
  }

  // ---- conservation --------------------------------------------------------------------------------

  function SignedOf(r: Row): real {
    if SignedQty(r).Num? then SignedQty(r).v else 0.0
  }

  function ValueOf(r: Row): real { r.marketValue }

  /** What the legs too small for a row come to, and how many there are. */
  function Dust(legs: seq<Holding>): real {
    if legs == [] then 0.0
    else
      var h := legs[|legs| - 1];
      Dust(legs[..|legs| - 1]) + (if h.qty.Num? && Abs(h.qty.v) <= QTY_TOLERANCE then h.qty.v else 0.0)
  }

  lemma {:induction false} RowsLast(rows: seq<Row>, r: Row)
    ensures SumBy(rows + [r], SignedOf) == SumBy(rows, SignedOf) + SignedOf(r)
    ensures SumBy(rows + [r], ValueOf) == SumBy(rows, ValueOf) + r.marketValue
  {
    SumByConcat(rows, [r], SignedOf);
    SumByConcat(rows, [r], ValueOf);
    assert SumBy([r], SignedOf) == SignedOf(r) + SumBy([r][1..], SignedOf);
    assert SumBy([r], ValueOf) == ValueOf(r) + SumBy([r][1..], ValueOf);
  }

  /** One more leg: the row it gets, if any, and what it adds. */
  lemma {:induction false} LaneRowsNext(row: Row, legs: seq<Holding>, px: real)
    requires Readable(legs) && legs != []
    ensures legs[|legs| - 1].qty.Num?
    ensures var n := |legs| - 1;
            var q := legs[n].qty.v;
            && Readable(legs[..n]) && NetOf(legs).Num? && NetOf(legs[..n]).Num?
            && NetOf(legs).v == NetOf(legs[..n]).v + q
            && (Abs(q) > QTY_TOLERANCE ==>
                  && Dust(legs) == Dust(legs[..n])
                  && LaneRows(row, legs, px) == LaneRows(row, legs[..n], px) + [LaneRow(row, legs[n], px)])
            && (Abs(q) <= QTY_TOLERANCE ==>
                  && Dust(legs) == Dust(legs[..n]) + q
                  && LaneRows(row, legs, px) == LaneRows(row, legs[..n], px))
  {
    hide Times;
    var n := |legs| - 1;
    assert legs == legs[..n] + [legs[n]] && legs[n] in legs;
    ReadableNet(legs);
    ReadableNet(legs[..n]);
    assert LaneRows(row, legs[..n], px) + [] == LaneRows(row, legs[..n], px);
  }

  /** The lane rows carry the whole of the legs but the dust, at the one price. */
  lemma {:induction false} LaneRowsSum(row: Row, legs: seq<Holding>, px: real)
    requires Readable(legs)
    ensures NetOf(legs).Num?
    ensures SumBy(LaneRows(row, legs, px), SignedOf) == NetOf(legs).v - Dust(legs)
    ensures SumBy(LaneRows(row, legs, px), ValueOf) == Times(px, NetOf(legs).v - Dust(legs))
    decreases |legs|
  {
    hide *;
    if legs == [] {
      NoLaneRows(row, px);
    } else {
      var n := |legs| - 1;
      LaneRowsNext(row, legs, px);
      LaneRowsSum(row, legs[..n], px);
      var q := legs[n].qty.v;
      if Abs(q) > QTY_TOLERANCE {
        RowsLast(LaneRows(row, legs[..n], px), LaneRow(row, legs[n], px));
        LaneRowIs(row, legs[n], px);
        TimesAdds(px, NetOf(legs[..n]).v - Dust(legs[..n]), q);
        assert NetOf(legs).v - Dust(legs) == NetOf(legs[..n]).v - Dust(legs[..n]) + q;
      } else {
        assert NetOf(legs).v - Dust(legs) == NetOf(legs[..n]).v - Dust(legs[..n]);
      }
    }
  }

  lemma {:induction false} NoLaneRows(row: Row, px: real)
    ensures Readable([]) && NetOf([]) == Num(0.0) && Dust([]) == 0.0
    ensures SumBy(LaneRows(row, [], px), SignedOf) == 0.0
    ensures SumBy(LaneRows(row, [], px), ValueOf) == 0.0 == Times(px, 0.0)
  {
  }

  lemma {:induction false} LaneRowIs(row: Row, h: Holding, px: real)
    requires h.qty.Num?
    ensures SignedOf(LaneRow(row, h, px)) == h.qty.v
    ensures LaneRow(row, h, px).marketValue == Times(px, h.qty.v)
  {
    TimesCommutes(h.qty.v, px);
  }

  lemma {:induction false} TimesCommutes(a: real, b: real)
    ensures Times(a, b) == Times(b, a)
  {
  }

  /** Every lane row is the broker's row but for its lane: the instrument is the row's, the lane one that holds. */
  lemma {:induction false} LaneRowsAreLanes(row: Row, legs: seq<Holding>, px: real)
    requires Readable(legs)
    ensures forall r :: r in LaneRows(row, legs, px) ==>
              && r.instrument == row.instrument
              && exists h :: h in legs && h.strategy == r.strategy && Abs(h.qty.v) > QTY_TOLERANCE && SignedQty(r) == h.qty
    decreases |legs|
  {
    if legs != [] {
      var n := |legs| - 1;
      assert legs == legs[..n] + [legs[n]] && legs[n] in legs;
      LaneRowsAreLanes(row, legs[..n], px);
    }
  }

  lemma {:induction false} ExactPrice(mv: real, broker: real, carried: real)
    requires broker != 0.0
    ensures Times(mv / broker, carried) == mv <==> mv == 0.0 || carried == broker
  {
    var px := mv / broker;
    assert px * broker == mv;
    if px * carried == mv {
      assert px * (carried - broker) == 0.0;
    }
  }

  /**
   Conservation: a row that splits reports no divergence, and its lane rows add up to the cache's net less the legs too
   small for a row, which is the broker's quantity to within the tolerance and that dust.
   */
  lemma {:induction false} SplitConservesQuantity(row: Row, holdings: seq<Holding>)
    requires Splits(row, holdings)
    ensures SplitRow(row, holdings).1 == []
    ensures var carried := SumBy(SplitRow(row, holdings).0, SignedOf);
            Abs(carried - SignedQty(row).v) <= QTY_TOLERANCE + Abs(Dust(Legs(holdings, row.instrument)))
  {
    hide Legs;
    var mine := Legs(holdings, row.instrument);
    ReadableNet(mine);
    LaneRowsSum(row, mine, ImpliedPrice(row, SignedQty(row).v));
  }

  /**
   The notionals add back to the broker's market value exactly when the broker is flat at no value, when there is no
   value, or when the lanes with a row carry exactly the broker's quantity: within the tolerance is not enough.
   */
  lemma {:induction false} SplitConservesValueIff(row: Row, holdings: seq<Holding>)
    requires Splits(row, holdings)
    ensures var mine := Legs(holdings, row.instrument);
            var broker := SignedQty(row).v;
            SumBy(SplitRow(row, holdings).0, ValueOf) == row.marketValue
            <==> row.marketValue == 0.0 || (broker != 0.0 && NetOf(mine).v - Dust(mine) == broker)
  {
    hide Legs, Times;
    var mine := Legs(holdings, row.instrument);
    var broker := SignedQty(row).v;
    ReadableNet(mine);
    LaneRowsSum(row, mine, ImpliedPrice(row, broker));
    if broker != 0.0 {
      ExactPrice(row.marketValue, broker, NetOf(mine).v - Dust(mine));
    } else {
      ZeroTimes(NetOf(mine).v - Dust(mine));
    }
  }

  function HalfAndMore(): seq<Holding> {
    [Holding("X.V", "A", Some(true), Num(1.5)), Holding("X.V", "B", Some(true), Num(0.5000005))]
  }

  function Two(): Row {
    Row("X.V", "", Num(2.0), false, 200.0)
  }

  /** Two shares at the broker, 2.0000005 in the lanes: they agree, no divergence is reported, and 200 becomes 200.00005. */
  lemma {:induction false} AgreedButWorthMore()
    ensures Splits(Two(), HalfAndMore()) && SplitRow(Two(), HalfAndMore()).1 == []
    ensures SumBy(SplitRow(Two(), HalfAndMore()).0, ValueOf) == 200.00005 != Two().marketValue
  {
    var row, legs := Two(), HalfAndMore();
    LegsOfTwo();
    assert legs[..1] == [legs[0]] && [legs[0]][..0] == [];
    assert NetOf([legs[0]]) == Num(1.5) && Dust([legs[0]]) == 0.0;
    assert NetOf(legs) == Num(2.0000005) && Dust(legs) == 0.0;
    ReadableNet(legs);
    assert ImpliedPrice(row, 2.0) == 100.0;
    LaneRowsSum(row, legs, 100.0);
  }

  lemma {:induction false} LegsOfTwo()
    ensures Legs(HalfAndMore(), "X.V") == HalfAndMore() && !IsMute(HalfAndMore(), "X.V")
  {
    var legs, on := HalfAndMore(), OpenOn("X.V");
    assert on(legs[0]) && on(legs[1]);
    assert legs[1..] == [legs[1]] && [legs[1]][1..] == [];
    assert Filter([legs[1]], on) == [legs[1]];
    assert [legs[0]] + [legs[1]] == legs;
  }

  lemma {:induction false} ZeroTimes(a: real)
    ensures Times(0.0, a) == 0.0
  {
  }

  /** A row that does not split stays exactly as it was, with exactly one divergence, on its own instrument. */
  lemma {:induction false} FallbackIsUnchanged(row: Row, holdings: seq<Holding>)
    ensures !Splits(row, holdings) <==> |SplitRow(row, holdings).1| == 1
    ensures !Splits(row, holdings) ==>
              && SplitRow(row, holdings).0 == [row]
              && SplitRow(row, holdings).1[0].instrument == row.instrument
    ensures |SplitRow(row, holdings).1| <= 1
  {
    hide Legs, LaneRows;
    ReadableNet(Legs(holdings, row.instrument));
  }

  /** Over the whole book: one divergence for each row that does not split, each lane row under its own instrument. */
  lemma {:induction false} SplitBook(rows: seq<Row>, holdings: seq<Holding>)
    ensures |SplitRows(rows, holdings).1| == |Filter(rows, NotSplit(holdings))|
    ensures forall r :: r in rows && !Splits(r, holdings) ==> r in SplitRows(rows, holdings).0
    ensures forall r :: r in SplitRows(rows, holdings).0 ==> exists b :: b in rows && b.instrument == r.instrument
    decreases |rows|
  {
    hide Splits, Legs;
    if rows != [] {
      var n := |rows| - 1;
      var row := rows[n];
      assert rows == rows[..n] + [row];
      SplitBook(rows[..n], holdings);
      FallbackIsUnchanged(row, holdings);
      RowKeepsInstrument(row, holdings);
      FilterConcat(rows[..n], [row], NotSplit(holdings));
      assert Filter([row], NotSplit(holdings)) == if NotSplit(holdings)(row) then [row] else [] by {
        assert [row][1..] == [];
      }
      hide SplitRow;
      forall r | r in SplitRows(rows, holdings).0
        ensures exists b :: b in rows && b.instrument == r.instrument
      {
        if r in SplitRow(row, holdings).0 {
          assert row in rows;
        } else {
          var b :| b in rows[..n] && b.instrument == r.instrument;
          assert b in rows;
        }
      }
    }
  }

  function NotSplit(holdings: seq<Holding>): Row -> bool {
    (r: Row) => !Splits(r, holdings)
  }

  lemma {:induction false} RowKeepsInstrument(row: Row, holdings: seq<Holding>)
    ensures forall r :: r in SplitRow(row, holdings).0 ==> r.instrument == row.instrument
  {
    hide Legs;
    var mine := Legs(holdings, row.instrument);
    ReadableNet(mine);
    if Splits(row, holdings) {
      LaneRowsAreLanes(row, mine, ImpliedPrice(row, SignedQty(row).v));
    }
  }
}
