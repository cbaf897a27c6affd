/**
 Exit ceilings (backend/api/claims_invariant.py:51-145): how much of a symbol each claiming lane can sell, with the ceiling
 the claims ledger documents: its own claim or what the others' claims leave, whichever is less, and never below zero.
 */
module Claims {
  import opened Prelude

  datatype ClaimRow = ClaimRow(strategy: string, symbol: string, qty: real)

  type Ledger = map<string, map<string, real>>

  function Claim(claims: Ledger, strategy: string, symbol: string): real {
    if strategy in claims && symbol in claims[strategy] then claims[strategy][symbol] else 0.0
  }

  // ---- the fold ------------------------------------------------------------------------------------

  function Fold(rows: seq<ClaimRow>): Ledger
    decreases |rows|
  {
    if rows == [] then map[]
    else
      var before, r := Fold(rows[..|rows| - 1]), rows[|rows| - 1];
      before[r.strategy := (if r.strategy in before then before[r.strategy] else map[])
                           [r.symbol := Claim(before, r.strategy, r.symbol) + r.qty]]
  }

  method ClaimsByStrategy(rows: seq<ClaimRow>) returns (claims: Ledger)
    ensures claims == Fold(rows)
  {
    claims := map[];
    var n := 0;
    while n < |rows|
      invariant n <= |rows|
      invariant claims == Fold(rows[..n])
    {
      var r := rows[n];
      assert rows[..n + 1][..n] == rows[..n];
      var bySymbol := if r.strategy in claims then claims[r.strategy] else map[];
      bySymbol := bySymbol[r.symbol := (if r.symbol in bySymbol then bySymbol[r.symbol] else 0.0) + r.qty];
      claims := claims[r.strategy := bySymbol];
      n := n + 1;
    }
    assert rows[..n] == rows;
  }

  function QtyFor(strategy: string, symbol: string): ClaimRow -> real {
    (r: ClaimRow) => if r.strategy == strategy && r.symbol == symbol then r.qty else 0.0
  }

  /** Duplicates are summed: a claim is the sum of its rows, however many and in whatever order. */
  lemma {:induction false} FoldSums(rows: seq<ClaimRow>, strategy: string, symbol: string)
    ensures Claim(Fold(rows), strategy, symbol) == SumBy(rows, QtyFor(strategy, symbol))
    decreases |rows|
  {
    if rows != [] {
      var n := |rows| - 1;
      FoldSums(rows[..n], strategy, symbol);
      var f := QtyFor(strategy, symbol);
      assert rows == rows[..n] + [rows[n]];
      SumByConcat(rows[..n], [rows[n]], f);
      assert SumBy([rows[n]], f) == f(rows[n]) + SumBy([rows[n]][1..], f);
    }
  }

  lemma {:induction false} FoldIgnoresOrder(a: seq<ClaimRow>, b: seq<ClaimRow>, strategy: string, symbol: string)
    requires multiset(a) == multiset(b)
    ensures Claim(Fold(a), strategy, symbol) == Claim(Fold(b), strategy, symbol)
  {
    FoldSums(a, strategy, symbol);
    FoldSums(b, strategy, symbol);
    SumByPermutes(a, b, QtyFor(strategy, symbol));
  }

  // ---- the ceilings --------------------------------------------------------------------------------

  /** `int(x)`: towards zero. */
  function Trunc(x: real): int {
    if x >= 0.0 then x.Floor else -((-x).Floor)
  }

  function AtLeastZero(n: int): int {
    if n > 0 then n else 0
  }

  function OwnCeiling(held: int, mine: int, others: int): int {
    AtLeastZero(if mine <= held - others then mine else held - others)
  }

  function Sum(q: seq<real>): real {
    SumBy(q, (x: real) => x)
  }

  /** What each claim on one symbol can sell; a lane with no claim can sell nothing. */
  function CeilingAt(held: real, q: seq<real>, i: nat): int
    requires i < |q|
  {
    if q[i] == 0.0 then 0 else OwnCeiling(Trunc(held), Trunc(q[i]), Trunc(Sum(q) - q[i]))
  }

  function SellableUpTo(held: real, q: seq<real>, n: nat): int
    requires n <= |q|
  {
    if n == 0 then 0 else SellableUpTo(held, q, n - 1) + CeilingAt(held, q, n - 1)
  }

  function Sellable(held: real, q: seq<real>): int {
    SellableUpTo(held, q, |q|)
  }

  function Stranded(held: real, q: seq<real>): int {
    AtLeastZero(Trunc(held) - Sellable(held, q))
  }

  /** The claims on one symbol, in the order of the lanes. */
  function ClaimsOn(claims: Ledger, symbol: string): seq<real> {
    var lanes := SortedStrings(claims.Keys);
    seq(|lanes|, i requires 0 <= i < |lanes| => Claim(claims, lanes[i], symbol))
  }

  datatype Exit = Exit(held: real, sellable: int, stranded: int, byStrategy: map<string, int>)

  function CeilingsUpTo(held: real, claims: Ledger, symbol: string, n: nat): map<string, int>
    requires n <= |SortedStrings(claims.Keys)|
  {
    if n == 0 then map[]
    else
      var before := CeilingsUpTo(held, claims, symbol, n - 1);
      var q, lanes := ClaimsOn(claims, symbol), SortedStrings(claims.Keys);
      if q[n - 1] == 0.0 then before else before[lanes[n - 1] := CeilingAt(held, q, n - 1)]
  }

  function ExitOf(held: real, claims: Ledger, symbol: string): Exit {
    var q := ClaimsOn(claims, symbol);
    Exit(held, Sellable(held, q), Stranded(held, q), CeilingsUpTo(held, claims, symbol, |q|))
  }

  /** The symbols both claimed and held. */
  function Symbols(account: map<string, real>, claims: Ledger): set<string> {
    set strategy, symbol | strategy in claims && symbol in claims[strategy] && symbol in account :: symbol
  }

  function Exits(account: map<string, real>, claims: Ledger): map<string, Exit> {
    map symbol | symbol in Symbols(account, claims) :: ExitOf(account[symbol], claims, symbol)
  }

  method ExitCeilings(account: map<string, real>, claims: Ledger) returns (out: map<string, Exit>)
    ensures out == Exits(account, claims)
  {
    hide ExitOf, Symbols, SortedStrings;
    out := map[];
    var symbols := SortedStrings(Symbols(account, claims));
    var n := 0;
    SymbolsHeld(account, claims);
    while n < |symbols|
      invariant n <= |symbols|
      invariant forall s :: s in out <==> s in symbols[..n]
      invariant forall s :: s in out ==> s in account && out[s] == ExitOf(account[s], claims, s)
    {
      var symbol := symbols[n];
      assert symbol in symbols;
      assert symbols[..n + 1] == symbols[..n] + [symbol];
      var exit := ExitFor(account[symbol], claims, symbol);
      out := out[symbol := exit];
      n := n + 1;
    }
    assert symbols[..n] == symbols;
  }

  lemma {:induction false} SymbolsHeld(account: map<string, real>, claims: Ledger)
    ensures forall s :: s in Symbols(account, claims) ==> s in account
  {
  }

  method ExitFor(held: real, claims: Ledger, symbol: string) returns (e: Exit)
    ensures e == ExitOf(held, claims, symbol)
  {
    hide CeilingAt, Claim, Trunc, SortedStrings, Sum;
    var lanes := SortedStrings(claims.Keys);
    var q := ClaimsOn(claims, symbol);
    var byStrategy: map<string, int> := map[];
    var sellable := 0;
    var n := 0;
    while n < |lanes|
      invariant n <= |lanes| == |q|
      invariant byStrategy == CeilingsUpTo(held, claims, symbol, n)
      invariant sellable == SellableUpTo(held, q, n)
    {
      if q[n] != 0.0 {
        byStrategy := byStrategy[lanes[n] := CeilingAt(held, q, n)];
      }
      NoClaimNoCeiling(held, q, n);
      sellable := sellable + CeilingAt(held, q, n);
      n := n + 1;
    }
    return Exit(held, sellable, AtLeastZero(Trunc(held) - sellable), byStrategy);
  }

  lemma {:induction false} NoClaimNoCeiling(held: real, q: seq<real>, n: nat)
    requires n < |q|
    ensures q[n] == 0.0 ==> CeilingAt(held, q, n) == 0
  {
  }

  // ---- whole shares --------------------------------------------------------------------------------

  function Whole(q: seq<real>): (r: seq<int>)
    ensures |r| == |q|
    ensures forall i :: 0 <= i < |r| ==> r[i] == Trunc(q[i])
  {
    seq(|q|, i requires 0 <= i < |q| => Trunc(q[i]))
  }

  function Total(ns: seq<int>): int {
    if ns == [] then 0 else Total(ns[..|ns| - 1]) + ns[|ns| - 1]
  }

  /** What is left of each number once `d` is taken from it. */
  function Over(ns: seq<int>, d: int): int {
    if ns == [] then 0 else Over(ns[..|ns| - 1], d) + AtLeastZero(ns[|ns| - 1] - d)
  }

  predicate NonNegative(ns: seq<int>) {
    forall i :: 0 <= i < |ns| ==> ns[i] >= 0
  }

  function Positives(ns: seq<int>): nat {
    if ns == [] then 0 else Positives(ns[..|ns| - 1]) + (if ns[|ns| - 1] > 0 then 1 else 0)
  }

  lemma {:induction false} NoPositives(ns: seq<int>)
    requires NonNegative(ns)
    ensures Total(ns) >= 0
    ensures Positives(ns) == 0 <==> Total(ns) == 0
    decreases |ns|
  {
    if ns != [] {
      NoPositives(ns[..|ns| - 1]);
    }
  }

  /** Taking `d` from each leaves no more than the total; once one exceeds `d`, no more than the total less `d`. */
  lemma {:induction false} OverBounds(ns: seq<int>, d: int)
    requires NonNegative(ns) && d >= 0
    ensures 0 <= Over(ns, d) <= Total(ns)
    ensures Over(ns, d) > 0 ==> Over(ns, d) <= Total(ns) - d
    ensures d > 0 && Positives(ns) > 0 ==> Over(ns, d) < Total(ns)
    ensures Over(ns, d) > 0 && d > 0 && Positives(ns) >= 2 ==> Over(ns, d) < Total(ns) - d
    decreases |ns|
  {
    NoPositives(ns);
    if ns != [] {
      NoPositives(ns[..|ns| - 1]);
      OverBounds(ns[..|ns| - 1], d);
    }
  }

  /** One claimant alone. */
  lemma {:induction false} OverOne(ns: seq<int>, d: int)
    requires NonNegative(ns) && d >= 0 && Positives(ns) <= 1
    ensures Over(ns, d) == AtLeastZero(Total(ns) - d)
    decreases |ns|
  {
    if ns != [] {
      NoPositives(ns[..|ns| - 1]);
      OverOne(ns[..|ns| - 1], d);
    }
  }

  predicate Claimable(q: seq<real>) {
    forall i :: 0 <= i < |q| ==> q[i] >= 0.0
  }

  lemma {:induction false} TruncAdds(a: real, b: real)
    requires a >= 0.0 && b >= 0.0
    ensures Trunc(a + b) >= Trunc(a) + Trunc(b)
  {
  }

  lemma {:induction false} SumLast(q: seq<real>)
    requires q != []
    ensures Sum(q) == Sum(q[..|q| - 1]) + q[|q| - 1]
  {
    var n := |q| - 1;
    var f := (x: real) => x;
    assert q == q[..n] + [q[n]];
    SumByConcat(q[..n], [q[n]], f);
    assert SumBy([q[n]], f) == f(q[n]) + SumBy([q[n]][1..], f);
  }

  /** The others' claims, in whole shares, are no less than the sum of the others' whole shares. */
  lemma {:induction false} OthersWhole(q: seq<real>, i: nat)
    requires Claimable(q) && i < |q|
    ensures Sum(q) - q[i] >= 0.0
    ensures Trunc(Sum(q) - q[i]) >= Total(Whole(q)) - Trunc(q[i])
    decreases |q|
  {
    hide Sum, Trunc;
    var n := |q| - 1;
    SumLast(q);
    assert Whole(q)[..n] == Whole(q[..n]);
    if i == n {
      SumWhole(q[..n]);
    } else {
      OthersWhole(q[..n], i);
      TruncAdds(Sum(q[..n]) - q[i], q[n]);
      assert Sum(q) - q[i] == Sum(q[..n]) - q[i] + q[n];
    }
  }

  lemma {:induction false} SumWhole(q: seq<real>)
    requires Claimable(q)
    ensures Sum(q) >= 0.0 && Trunc(Sum(q)) >= Total(Whole(q))
    decreases |q|
  {
    hide Trunc;
    if q == [] {
      assert Trunc(0.0) == 0 by { TruncWhole(0); }
    } else {
      var n := |q| - 1;
      SumLast(q);
      hide Sum;
      assert Whole(q)[..n] == Whole(q[..n]);
      SumWhole(q[..n]);
      TruncAdds(Sum(q[..n]), q[n]);
    }
  }

  lemma {:induction false} TruncWhole(n: int)
    ensures Trunc(n as real) == n
  {
  }

  lemma {:induction false} TruncNonNegative(q: seq<real>)
    requires Claimable(q)
    ensures NonNegative(Whole(q))
  {
  }

  /** Each ceiling is no more than its whole claim less what the claims exceed the holding by. */
  lemma {:induction false} CeilingUnder(held: real, q: seq<real>, i: nat)
    requires Claimable(q) && i < |q|
    ensures var d := AtLeastZero(Total(Whole(q)) - Trunc(held));
            CeilingAt(held, q, i) <= AtLeastZero(Trunc(q[i]) - d)
  {
    hide Sum, Total;
    OthersWhole(q, i);
  }

  lemma {:induction false} SellableUnder(held: real, q: seq<real>, n: nat)
    requires Claimable(q) && n <= |q|
    ensures var d := AtLeastZero(Total(Whole(q)) - Trunc(held));
            SellableUpTo(held, q, n) <= Over(Whole(q)[..n], d)
  {
    hide CeilingAt, Trunc, Total, Whole;
    if n > 0 {
      SellableUnder(held, q, n - 1);
      CeilingUnder(held, q, n - 1);
      assert Whole(q)[..n][..n - 1] == Whole(q)[..n - 1];
    }
  }

  /**
   No oversell: whatever the lanes claim, together they can sell no more than is held, for any number of lanes and
   fractional claims included.
   */
  lemma {:induction false} NoOversell(held: real, q: seq<real>)
    requires Claimable(q)
    ensures 0 <= Sellable(held, q) <= AtLeastZero(Trunc(held))
  {
    hide SellableUpTo, Total, Over, Trunc;
    var ns := Whole(q);
    var d := AtLeastZero(Total(ns) - Trunc(held));
    TruncNonNegative(q);
    SellableUnder(held, q, |q|);
    assert ns[..|q|] == ns;
    OverBounds(ns, d);
    SellableNonNegative(held, q, |q|);
  }

  lemma {:induction false} SellableNonNegative(held: real, q: seq<real>, n: nat)
    requires n <= |q|
    ensures SellableUpTo(held, q, n) >= 0
  {
    if n > 0 {
      SellableNonNegative(held, q, n - 1);
    }
  }

  /** Claims that fit are whole: when the claims sum to no more than is held, each ceiling is its claim. */
  lemma {:induction false} ConsistentClaimsSell(held: real, q: seq<real>, i: nat)
    requires Claimable(q) && i < |q| && Sum(q) <= held
    ensures CeilingAt(held, q, i) == Trunc(q[i])
  {
    hide Sum;
    OthersWhole(q, i);
    TruncAdds(q[i], Sum(q) - q[i]);
    TruncMonotone(Sum(q), held);
  }

  lemma {:induction false} TruncMonotone(a: real, b: real)
    requires 0.0 <= a <= b
    ensures Trunc(a) <= Trunc(b)
  {
  }

  predicate WholeShares(q: seq<real>) {
    forall i :: 0 <= i < |q| ==> q[i] == Trunc(q[i]) as real
  }

  lemma {:induction false} OthersExact(q: seq<real>)
    requires WholeShares(q)
    ensures Sum(q) == Total(Whole(q)) as real
    decreases |q|
  {
    hide Trunc;
    if q != [] {
      var n := |q| - 1;
      SumLast(q);
      hide Sum;
      assert Whole(q)[..n] == Whole(q[..n]);
      OthersExact(q[..n]);
    }
  }

  lemma {:induction false} CeilingExact(held: real, q: seq<real>, i: nat)
    requires WholeShares(q) && i < |q|
    ensures CeilingAt(held, q, i) == AtLeastZero(Trunc(q[i]) - AtLeastZero(Total(Whole(q)) - Trunc(held)))
  {
    hide Sum, Total;
    OthersExact(q);
    var ns := Whole(q);
    assert Sum(q) - q[i] == (Total(ns) - Trunc(q[i])) as real;
    TruncWhole(Total(ns) - Trunc(q[i]));
  }

  lemma {:induction false} SellableExact(held: real, q: seq<real>, n: nat)
    requires WholeShares(q) && n <= |q|
    ensures SellableUpTo(held, q, n) == Over(Whole(q)[..n], AtLeastZero(Total(Whole(q)) - Trunc(held)))
  {
    hide CeilingAt, Trunc, Total, Whole;
    if n > 0 {
      SellableExact(held, q, n - 1);
      CeilingExact(held, q, n - 1);
      assert Whole(q)[..n][..n - 1] == Whole(q)[..n - 1];
    }
  }

  /** What the positive claims add up to. */
  function Wanted(ns: seq<int>): int {
    if ns == [] then 0 else Wanted(ns[..|ns| - 1]) + AtLeastZero(ns[|ns| - 1])
  }

  lemma {:induction false} OverZero(ns: seq<int>)
    ensures Over(ns, 0) == Wanted(ns)
    decreases |ns|
  {
    if ns != [] {
      OverZero(ns[..|ns| - 1]);
    }
  }

  function Lesser(a: int, b: int): int {
    if a <= b then a else b
  }

  /** What the claims exceed the holding by, this claim and the sum of the others each cut to whole shares. */
  function OverClaim(held: real, q: seq<real>, i: nat): int
    requires i < |q|
  {
    AtLeastZero(Trunc(q[i]) + Trunc(Sum(q) - q[i]) - Trunc(held))
  }

  /** Of each whole claim, the part the over-claim holds back; of a negative one, all of it. */
  function HeldBack(held: real, q: seq<real>, n: nat): int
    requires n <= |q|
  {
    if n == 0 then 0 else HeldBack(held, q, n - 1) + Lesser(Trunc(q[n - 1]), OverClaim(held, q, n - 1))
  }

  lemma {:induction false} CeilingIsTheRest(held: real, q: seq<real>, i: nat)
    requires i < |q|
    ensures CeilingAt(held, q, i) == Trunc(q[i]) - Lesser(Trunc(q[i]), OverClaim(held, q, i))
  {
    hide Sum;
    TruncWhole(0);
  }

  lemma {:induction false} SellableIsTheRest(held: real, q: seq<real>, n: nat)
    requires n <= |q|
    ensures SellableUpTo(held, q, n) == Total(Whole(q)[..n]) - HeldBack(held, q, n)
  {
    hide CeilingAt, Trunc, Whole, OverClaim, Lesser;
    if n > 0 {
      SellableIsTheRest(held, q, n - 1);
      CeilingIsTheRest(held, q, n - 1);
      assert Whole(q)[..n][..n - 1] == Whole(q)[..n - 1];
    }
  }

  /**
   When the ceilings exceed the holding, for any claims of any sign: exactly when what the over-claim holds back of the whole
   claims, the smaller of the two for each, is less than what they exceed the holding by. It takes a negative claim, which is
   room another lane may sell into.
   */
  lemma {:induction false} OversellsIff(held: real, q: seq<real>)
    ensures var h := AtLeastZero(Trunc(held));
            && (Sellable(held, q) > h <==> HeldBack(held, q, |q|) < Total(Whole(q)) - h)
            && (Sellable(held, q) > h ==> exists i :: 0 <= i < |q| && q[i] < 0.0)
  {
    hide Sum, Total, Trunc, SellableUpTo, HeldBack;
    SellableIsTheRest(held, q, |q|);
    assert Whole(q)[..|q|] == Whole(q);
    if Claimable(q) {
      NoOversell(held, q);
    }
  }

  /** What is held back of each number when `d` is. */
  function CutOff(ns: seq<int>, d: int): int {
    if ns == [] then 0 else CutOff(ns[..|ns| - 1], d) + Lesser(ns[|ns| - 1], d)
  }

  lemma {:induction false} OverAndCutOff(ns: seq<int>, d: int)
    ensures Over(ns, d) + CutOff(ns, d) == Total(ns)
    decreases |ns|
  {
    if ns != [] {
      OverAndCutOff(ns[..|ns| - 1], d);
    }
  }

  /**
   On whole shares the over-claim is one number. Claims that sum to no more than is held are oversold exactly when the positive
   ones alone exceed it; claims that sum to more, of a holding that is not short, exactly when the claims, each counted for no
   more than the over-claim, add up to less than it.
   */
  lemma {:induction false} WholeSharesOversellIff(held: real, q: seq<real>)
    requires WholeShares(q)
    ensures var ns, h := Whole(q), Trunc(held);
            && (Total(ns) <= h ==> (Sellable(held, q) > AtLeastZero(h) <==> Wanted(ns) > AtLeastZero(h)))
            && (Total(ns) > h >= 0 ==> (Sellable(held, q) > h <==> CutOff(ns, Total(ns) - h) < Total(ns) - h))
            && (Total(ns) > h && h < 0 ==> (Sellable(held, q) > 0 <==> exists i :: 0 <= i < |ns| && ns[i] > Total(ns) - h))
  {
    hide Sum, Total, Over, CutOff, Trunc, SellableUpTo, Wanted, Whole;
    var ns, h := Whole(q), Trunc(held);
    SellableExact(held, q, |q|);
    assert ns[..|q|] == ns;
    OverZero(ns);
    OverAndCutOff(ns, Total(ns) - h);
    OverSome(ns, Total(ns) - h);
  }

  lemma {:induction false} OverSome(ns: seq<int>, d: int)
    ensures Over(ns, d) >= 0
    ensures Over(ns, d) > 0 <==> exists i :: 0 <= i < |ns| && ns[i] > d
    decreases |ns|
  {
    if ns != [] {
      var m := |ns| - 1;
      OverSome(ns[..m], d);
      assert forall i :: 0 <= i < m ==> ns[..m][i] == ns[i];
      if Over(ns[..m], d) > 0 {
        var k :| 0 <= k < m && ns[..m][k] > d;
        assert ns[k] > d;
      }
    }
  }

  /** Nothing held, five claimed and five owed: five are sold. */
  lemma {:induction false} NegativeClaimOversells()
    ensures exists held: real, q: seq<real> :: Sellable(held, q) > AtLeastZero(Trunc(held))
  {
    var q := [5.0, -5.0];
    assert q[1..] == [-5.0] && [-5.0][1..] == [];
    assert Sum(q) == 0.0 by {
      var f := (x: real) => x;
      assert SumBy(q, f) == f(q[0]) + SumBy(q[1..], f);
      assert SumBy([-5.0], f) == f(-5.0) + SumBy([], f);
    }
    assert CeilingAt(0.0, q, 0) == 5 && CeilingAt(0.0, q, 1) == 0;
    assert SellableUpTo(0.0, q, 1) == 5;
    assert Sellable(0.0, q) == 5;
  }

  /** The others' claims come to no whole share more than their whole parts: their fractions together are less than one. */
  predicate Spare(q: seq<real>, i: nat)
    requires i < |q|
  {
    Trunc(Sum(q) - q[i]) == Total(Whole(q)) - Trunc(q[i])
  }

  /** What a claim can sell, against the over-claim of the whole parts. */
  lemma {:induction false} CeilingSpare(held: real, q: seq<real>, i: nat)
    requires Claimable(q) && i < |q|
    ensures var d := AtLeastZero(Total(Whole(q)) - Trunc(held));
            && (Trunc(q[i]) == 0 || Spare(q, i) ==> CeilingAt(held, q, i) == AtLeastZero(Trunc(q[i]) - d))
            && (Trunc(q[i]) > d && !Spare(q, i) && Total(Whole(q)) >= Trunc(held) ==>
                  CeilingAt(held, q, i) < AtLeastZero(Trunc(q[i]) - d))
  {
    hide Sum, Total;
    OthersWhole(q, i);
  }

  predicate SpareUpTo(q: seq<real>, n: nat)
    requires n <= |q|
  {
    forall i :: 0 <= i < n && Trunc(q[i]) > 0 ==> Spare(q, i)
  }

  lemma {:induction false} SellableSpare(held: real, q: seq<real>, n: nat)
    requires Claimable(q) && n <= |q| && SpareUpTo(q, n)
    ensures SellableUpTo(held, q, n) == Over(Whole(q)[..n], AtLeastZero(Total(Whole(q)) - Trunc(held)))
  {
    hide CeilingAt, Trunc, Total, Whole, Spare;
    if n > 0 {
      SellableSpare(held, q, n - 1);
      CeilingSpare(held, q, n - 1);
      TruncNonNegative(q);
      assert Whole(q)[..n][..n - 1] == Whole(q)[..n - 1];
    }
  }

  /** One claim that the others' fractions reach into, and the whole comes to less. */
  lemma {:induction false} SellableShort(held: real, q: seq<real>, n: nat, k: nat)
    requires Claimable(q) && k < n <= |q| && !Spare(q, k) && Total(Whole(q)) >= Trunc(held)
    requires Trunc(q[k]) > AtLeastZero(Total(Whole(q)) - Trunc(held))
    ensures SellableUpTo(held, q, n) < Over(Whole(q)[..n], AtLeastZero(Total(Whole(q)) - Trunc(held)))
    decreases n
  {
    hide CeilingAt, Trunc, Total, Whole, Spare;
    assert Whole(q)[..n][..n - 1] == Whole(q)[..n - 1];
    if k == n - 1 {
      SellableUnder(held, q, n - 1);
      CeilingSpare(held, q, k);
    } else {
      SellableShort(held, q, n - 1, k);
      CeilingUnder(held, q, n - 1);
    }
  }

  lemma {:induction false} OnePositive(ns: seq<int>, k: nat)
    requires NonNegative(ns) && Positives(ns) == 1 && k < |ns| && ns[k] > 0
    ensures ns[k] == Total(ns)
    decreases |ns|
  {
    var n := |ns| - 1;
    NoPositives(ns[..n]);
    if k < n {
      assert Positives(ns[..n]) >= 1 by {
        SomePositive(ns[..n], k);
      }
      OnePositive(ns[..n], k);
    }
  }

  lemma {:induction false} SomePositive(ns: seq<int>, k: nat)
    requires k < |ns| && ns[k] > 0
    ensures Positives(ns) >= 1
    decreases |ns|
  {
    if k < |ns| - 1 {
      SomePositive(ns[..|ns| - 1], k);
    }
  }

  /**
   Over-claimed is frozen, not over-sold. Of whole shares held, none is stranded exactly when the whole parts of the claims add
   up to the holding, or exceed it with a single lane claiming a share or more; and the fractions the others claim do not come
   to a whole share against any lane that does. Every other claim, above or below, leaves some unreachable.
   */
  lemma {:induction false} NothingStrandedIff(held: real, q: seq<real>)
    requires Claimable(q) && Trunc(held) > 0
    ensures var total := Total(Whole(q));
            Stranded(held, q) == 0 <==>
              && (total == Trunc(held) || (total > Trunc(held) && Positives(Whole(q)) == 1))
              && SpareUpTo(q, |q|)
  {
    hide Sum, Total, Over, Trunc, SellableUpTo, Spare, Positives;
    var ns := Whole(q);
    var d := AtLeastZero(Total(ns) - Trunc(held));
    TruncNonNegative(q);
    NoOversell(held, q);
    SellableUnder(held, q, |q|);
    assert ns[..|q|] == ns;
    OverBounds(ns, d);
    NoPositives(ns);
    if Positives(ns) <= 1 {
      OverOne(ns, d);
    }
    if d == 0 {
      OverNothing(ns);
    }
    if SpareUpTo(q, |q|) {
      SellableSpare(held, q, |q|);
    } else if Total(ns) == Trunc(held) || (Total(ns) > Trunc(held) && Positives(ns) == 1) {
      var k :| 0 <= k < |q| && Trunc(q[k]) > 0 && !Spare(q, k);
      if Positives(ns) == 1 {
        OnePositive(ns, k);
      }
      SellableShort(held, q, |q|, k);
    }
  }

  /** Claims on whole shares leave no fraction to reach into anything. */
  lemma {:induction false} WholeSharesSpare(q: seq<real>)
    requires WholeShares(q)
    ensures SpareUpTo(q, |q|)
  {
    hide Sum, Total;
    OthersExact(q);
    forall i | 0 <= i < |q|
      ensures Spare(q, i)
    {
      TruncWhole(Total(Whole(q)) - Trunc(q[i]));
      assert Sum(q) - q[i] == (Total(Whole(q)) - Trunc(q[i])) as real;
    }
  }

  lemma {:induction false} OverNothing(ns: seq<int>)
    requires NonNegative(ns)
    ensures Over(ns, 0) == Total(ns)
    decreases |ns|
  {
    if ns != [] {
      OverNothing(ns[..|ns| - 1]);
    }
  }

  /** Over-claimed by two lanes that claim a share or more each, some of the shares held are strictly out of reach. */
  lemma {:induction false} OverClaimedStrands(held: real, q: seq<real>)
    requires Claimable(q) && Trunc(held) > 0
    requires Total(Whole(q)) > Trunc(held) && Positives(Whole(q)) >= 2
    ensures Stranded(held, q) > 0
  {
    hide Stranded, Total, Positives;
    NothingStrandedIff(held, q);
    assert Stranded(held, q) >= 0 by { StrandedNonNegative(held, q); }
  }

  lemma {:induction false} StrandedNonNegative(held: real, q: seq<real>)
    ensures Stranded(held, q) >= 0
  {
  }
}
