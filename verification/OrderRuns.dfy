/**
 What the blotter keeps over every run of order events and snapshots, and what one reconcile settles.
 */
module OrderRuns {
  import opened Prelude
  import opened OrderBlotter

  predicate NoRepeats(s: seq<Order>) {
    forall i, j :: 0 <= i < j < |s| ==> s[i] != s[j]
  }

  function Elements(s: seq<Order>): set<Order> {
    set o | o in s
  }

  lemma {:induction false} CountOfDistinct(s: seq<Order>)
    requires NoRepeats(s)
    ensures |Elements(s)| == |s|
  {
    if s != [] {
      var n := |s| - 1;
      CountOfDistinct(s[..n]);
      assert s == s[..n] + [s[n]];
      assert Elements(s) == Elements(s[..n]) + {s[n]};
      assert s[n] !in s[..n];
    }
  }

  lemma {:induction false} KeyedFilter(rows: seq<Order>, keep: Order -> bool)
    requires Keyed(rows)
    ensures Keyed(Filter(rows, keep))
  {
    if rows != [] {
      assert rows == [rows[0]] + rows[1..];
      assert forall i :: 0 <= i < |rows[1..]| ==> rows[1..][i] == rows[i + 1];
      assert forall o :: o in rows[1..] ==> o.coid != rows[0].coid;
      KeyedFilter(rows[1..], keep);
      var rest := Filter(rows[1..], keep);
      assert forall i :: 0 <= i < |rest| ==> rest[i] in rest;
    }
  }

  lemma {:induction false} KeyedIsDistinct(rows: seq<Order>)
    requires Keyed(rows)
    ensures NoRepeats(rows)
    ensures forall a, b :: a in rows && b in rows && a.coid == b.coid ==> a == b
  {
  }

  /** Storing a row leaves a dictionary, with that row under its key and every other row as it was. */
  lemma {:induction false} PutLaws(rows: seq<Order>, o: Order)
    requires Keyed(rows)
    ensures Keyed(Put(rows, o))
    ensures forall x :: x in Put(rows, o) <==> x == o || (x in rows && x.coid != o.coid)
  {
    if rows != [] {
      assert rows == [rows[0]] + rows[1..];
      assert forall i :: 0 <= i < |rows[1..]| ==> rows[1..][i] == rows[i + 1];
      assert forall x :: x in rows[1..] ==> x.coid != rows[0].coid;
      PutLaws(rows[1..], o);
      var rest := Put(rows[1..], o);
      assert forall i :: 0 <= i < |rest| ==> rest[i] in rest;
      if rows[0].coid == o.coid {
        assert Put(rows, o) == [o] + rows[1..];
      } else {
        assert Put(rows, o) == [rows[0]] + rest;
      }
    }
  }

  // ---- the cap -----------------------------------------------------------------------------------

  lemma {:induction false} ByAgeIsOrder()
    ensures TotalOrder(ByAge)
  {
  }

  /** What the cap drops: terminal rows, each once, exactly as many as are over it. */
  lemma {:induction false} ExcessLaws(rows: seq<Order>)
    requires Keyed(rows)
    ensures forall g :: g in Excess(rows) ==> g in rows && g.IsTerminal()
    ensures NoRepeats(Excess(rows))
    ensures var n := |Filter(rows, Terminal)|;
            |Excess(rows)| == (if n > MAX_TERMINAL_ORDERS then n - MAX_TERMINAL_ORDERS else 0)
  {
    var terminal := Filter(rows, Terminal);
    if |terminal| > MAX_TERMINAL_ORDERS {
      var sorted := Sort(terminal, ByAge);
      KeyedFilter(rows, Terminal);
      KeyedIsDistinct(terminal);
      SortMembers(terminal, ByAge);
      SortPermutes(terminal, ByAge);
      PermutedDistinct(terminal, sorted);
    }
  }

  lemma {:induction false} PermutedDistinct(a: seq<Order>, b: seq<Order>)
    requires NoRepeats(a) && multiset(a) == multiset(b)
    ensures NoRepeats(b)
  {
    forall i, j | 0 <= i < j < |b|
      ensures b[i] != b[j]
    {
      OnceEach(a, b[i]);
      assert b == b[..j] + b[j..];
      assert b[i] in b[..j] && b[j] in b[j..];
    }
  }

  lemma {:induction false} OnceEach(a: seq<Order>, o: Order)
    requires NoRepeats(a)
    ensures multiset(a)[o] <= 1
  {
    if a != [] {
      var n := |a| - 1;
      assert a == a[..n] + [a[n]];
      OnceEach(a[..n], o);
      assert a[n] !in a[..n];
    }
  }

  lemma {:induction false} FilterSwap(s: seq<Order>, p: Order -> bool, q: Order -> bool)
    ensures Filter(Filter(s, p), q) == Filter(Filter(s, q), p)
  {
    FilterTwice(s, p, q, (o: Order) => p(o) && q(o));
    FilterTwice(s, q, p, (o: Order) => p(o) && q(o));
  }

  lemma {:induction false} FilterOutCount(s: seq<Order>, gone: seq<Order>)
    requires Keyed(s) && NoRepeats(gone) && forall g :: g in gone ==> g in s
    ensures |Without(s, gone)| == |s| - |gone|
  {
    var kept := Without(s, gone);
    KeyedFilter(s, (o: Order) => o !in gone);
    KeyedIsDistinct(kept);
    KeyedIsDistinct(s);
    CountOfDistinct(kept);
    CountOfDistinct(s);
    CountOfDistinct(gone);
    assert Elements(kept) == Elements(s) - Elements(gone);
    assert Elements(gone) <= Elements(s);
  }

  function Terminals(rows: seq<Order>): nat {
    |Filter(rows, Terminal)|
  }

  /** After the cap: at most the maximum of terminal rows, still a dictionary, and no working row lost. */
  lemma {:induction false} CapLaws(rows: seq<Order>)
    requires Keyed(rows)
    ensures var kept := Without(rows, Excess(rows));
            && Keyed(kept)
            && Terminals(kept) == (if Terminals(rows) > MAX_TERMINAL_ORDERS then MAX_TERMINAL_ORDERS else Terminals(rows))
            && (forall o :: o in kept ==> o in rows)
            && (forall o :: o in rows && !o.IsTerminal() ==> o in kept)
  {
    hide Keyed, NoRepeats, Excess;
    var gone := Excess(rows);
    var kept := Without(rows, gone);
    ExcessLaws(rows);
    KeyedFilter(rows, (o: Order) => o !in gone);
    KeyedFilter(rows, Terminal);
    FilterSwap(rows, (o: Order) => o !in gone, Terminal);
    FilterOutCount(Filter(rows, Terminal), gone);
  }

  /** The rows the cap drops are the oldest: none is newer than a terminal row it keeps. */
  lemma {:induction false} CapDropsOldest(rows: seq<Order>, gone: Order, kept: Order)
    requires Keyed(rows) && gone in Excess(rows)
    requires kept in rows && kept.IsTerminal() && kept !in Excess(rows)
    ensures gone.tsLast <= kept.tsLast
  {
    var terminal := Filter(rows, Terminal);
    var sorted := Sort(terminal, ByAge);
    ByAgeIsOrder();
    SortSorts(terminal, ByAge);
    SortMembers(terminal, ByAge);
    var k := |terminal| - MAX_TERMINAL_ORDERS;
    var i :| 0 <= i < k && sorted[i] == gone;
    var j :| 0 <= j < |sorted| && sorted[j] == kept;
    assert forall m :: 0 <= m < k ==> sorted[m] == sorted[..k][m];
    assert j >= k;
    assert ByAge(sorted[i], sorted[j]);
  }

  // ---- one event ---------------------------------------------------------------------------------

  ghost predicate Bounded(rows: seq<Order>) {
    Keyed(rows) && Terminals(rows) <= MAX_TERMINAL_ORDERS
  }

  /** A working row the event does not name survives it; so does a working row the event brings. */
  lemma {:induction false} UpsertLaws(rows: seq<Order>, o: Order)
    requires Keyed(rows)
    ensures Bounded(Upserted(rows, o))
    ensures forall x :: x in Upserted(rows, o) ==> x == o || (x in rows && x.coid != o.coid)
    ensures forall x :: x in rows && x.coid != o.coid && !x.IsTerminal() ==> x in Upserted(rows, o)
    ensures !o.IsTerminal() ==> o in Upserted(rows, o)
  {
    hide Keyed, Put, Excess, Without, Terminals;
    PutLaws(rows, o);
    CapLaws(Put(rows, o));
  }

  datatype Event = Streamed(order: Order) | Snapshot(rows: seq<Order>, ts: Option<int>)

  function Step(rows: seq<Order>, e: Event): seq<Order> {
    match e
    case Streamed(o) => Upserted(rows, o)
    case Snapshot(snapshot, ts) => Reconciled(rows, snapshot, ts)
  }

  function Run(events: seq<Event>): seq<Order>
    decreases |events|
  {
    if events == [] then [] else Step(Run(events[..|events| - 1]), events[|events| - 1])
  }

  lemma {:induction false} FilterBounded(rows: seq<Order>, keep: Order -> bool)
    requires Bounded(rows)
    ensures Bounded(Filter(rows, keep))
  {
    hide Keyed;
    KeyedFilter(rows, keep);
    FilterSwap(rows, keep, Terminal);
  }

  lemma {:induction false} AdmitAllBounded(rows: seq<Order>, snapshot: seq<Order>, ts: Option<int>)
    requires Bounded(rows)
    ensures Bounded(AdmitAll(rows, snapshot, ts))
    decreases |snapshot|
  {
    hide Keyed, Terminals, Upserted, Admits;
    if snapshot != [] {
      var n := |snapshot| - 1;
      AdmitAllBounded(rows, snapshot[..n], ts);
      UpsertLaws(AdmitAll(rows, snapshot[..n], ts), snapshot[n]);
    }
  }

  /** In every reachable state the blotter is a dictionary with at most the maximum of terminal rows. */
  lemma {:induction false} ReachableIsBounded(events: seq<Event>)
    ensures Bounded(Run(events))
    decreases |events|
  {
    hide Bounded, Upserted, AdmitAll, Survives;
    if events == [] {
      EmptyIsBounded();
    } else {
      var n := |events| - 1;
      var rows := Run(events[..n]);
      ReachableIsBounded(events[..n]);
      match events[n]
      case Streamed(o) =>
        StreamBounded(rows, o);
      case Snapshot(snapshot, ts) =>
        AdmitAllBounded(rows, ById(snapshot), ts);
        FilterBounded(AdmitAll(rows, ById(snapshot), ts), Survives(ById(snapshot), ts));
    }
  }

  lemma {:induction false} EmptyIsBounded()
    ensures Bounded([])
  {
  }

  lemma {:induction false} StreamBounded(rows: seq<Order>, o: Order)
    requires Bounded(rows)
    ensures Bounded(Upserted(rows, o))
  {
    UpsertLaws(rows, o);
  }

  // ---- what a reconcile settles ------------------------------------------------------------------

  lemma {:induction false} ByIdLaws(snapshot: seq<Order>)
    ensures Keyed(ById(snapshot))
    ensures forall o :: o in ById(snapshot) ==> o in snapshot
    ensures forall o :: o in snapshot ==> Has(ById(snapshot), o.coid)
    decreases |snapshot|
  {
    hide Keyed, Put;
    if snapshot == [] {
      NothingIsKeyed();
    } else {
      var n := |snapshot| - 1;
      var before, last := snapshot[..n], snapshot[n];
      assert snapshot == before + [last];
      ByIdLaws(before);
      PutLaws(ById(before), last);
      forall o | o in snapshot
        ensures Has(ById(snapshot), o.coid)
      {
        if o.coid == last.coid {
          assert last in ById(snapshot);
        } else {
          var x :| x in ById(before) && x.coid == o.coid;
          assert x in ById(snapshot);
        }
      }
    }
  }

  lemma {:induction false} NothingIsKeyed()
    ensures Keyed([])
  {
  }

  lemma {:induction false} LookupIs(rows: seq<Order>, o: Order)
    requires Keyed(rows) && o in rows
    ensures Lookup(rows, o.coid) == Some(o)
  {
    KeyedIsDistinct(rows);
    assert Has(rows, o.coid);
  }

  /** A working row newer than the snapshot's row of its key, if there is one, passes the first loop unchanged. */
  lemma {:induction false} NewerPasses(rows: seq<Order>, snapshot: seq<Order>, ts: Option<int>, r: Order)
    requires Bounded(rows) && r in rows && !r.IsTerminal()
    requires forall o :: o in snapshot && o.coid == r.coid ==> o.tsLast < r.tsLast
    ensures r in AdmitAll(rows, snapshot, ts)
    decreases |snapshot|
  {
    hide Keyed, Terminals, Upserted;
    if snapshot != [] {
      var n := |snapshot| - 1;
      var last := snapshot[n];
      var mid := AdmitAll(rows, snapshot[..n], ts);
      assert last in snapshot && forall o :: o in snapshot[..n] ==> o in snapshot;
      NewerPasses(rows, snapshot[..n], ts, r);
      AdmitAllBounded(rows, snapshot[..n], ts);
      if last.coid == r.coid {
        LookupIs(mid, r);
      } else {
        UpsertLaws(mid, last);
      }
    }
  }

  /**
   Never reverted and never dropped: a working row newer than both its own row in the snapshot and the snapshot itself
   is still there, unchanged, after the reconcile.
   */
  lemma {:induction false} NewerThanSnapshotIsKept(rows: seq<Order>, snapshot: seq<Order>, ts: int, r: Order)
    requires Bounded(rows) && r in rows && !r.IsTerminal() && r.tsLast > ts
    requires forall o :: o in snapshot && o.coid == r.coid ==> o.tsLast < r.tsLast
    ensures r in Reconciled(rows, snapshot, Some(ts))
  {
    hide Keyed, Terminals, AdmitAll, Bounded, Upserted;
    ByIdLaws(snapshot);
    NewerPasses(rows, ById(snapshot), Some(ts), r);
  }

  /** After the first loop, under a snapshot newer than everything held, each snapshot key has a working row. */
  lemma {:induction false} SnapshotKeysWork(rows: seq<Order>, snapshot: seq<Order>, ts: int, k: nat)
    requires Bounded(rows) && Keyed(snapshot) && k < |snapshot|
    requires forall o :: o in snapshot ==> !o.IsTerminal()
    requires forall o :: o in rows ==> o.tsLast < ts
    ensures exists r :: r in AdmitAll(rows, snapshot, Some(ts)) && r.coid == snapshot[k].coid && !r.IsTerminal()
    decreases |snapshot|
  {
    hide Terminals, Upserted, Admits;
    var n := |snapshot| - 1;
    var last := snapshot[n];
    var mid := AdmitAll(rows, snapshot[..n], Some(ts));
    assert last in snapshot && forall o :: o in snapshot[..n] ==> o in snapshot;
    AdmitAllBounded(rows, snapshot[..n], Some(ts));
    UpsertLaws(mid, last);
    if k == n {
      AdmitOrigin(rows, snapshot[..n], Some(ts));
      assert forall o :: o in snapshot[..n] ==> o.coid != last.coid;
      FreshAdmits(mid, last, ts);
    } else {
      SnapshotKeysWork(rows, snapshot[..n], ts, k);
      var r :| r in mid && r.coid == snapshot[k].coid && !r.IsTerminal();
      assert snapshot[k].coid != last.coid;
    }
  }

  /** Under a snapshot newer than the row held, its row either is taken or leaves a working row in place. */
  lemma {:induction false} FreshAdmits(mid: seq<Order>, last: Order, ts: int)
    requires Keyed(mid) && !last.IsTerminal()
    requires forall o :: o in mid && o.coid == last.coid ==> o.tsLast < ts
    ensures exists r :: r in Admitted(mid, last, Some(ts)) && r.coid == last.coid && !r.IsTerminal()
  {
    hide Keyed, Upserted;
    if Admits(mid, last, Some(ts)) {
      UpsertLaws(mid, last);
    } else {
      assert Lookup(mid, last.coid).value in mid;
    }
  }

  /** Every row after the first loop was held before it or comes from the snapshot. */
  lemma {:induction false} AdmitOrigin(rows: seq<Order>, snapshot: seq<Order>, ts: Option<int>)
    requires Bounded(rows)
    ensures forall x :: x in AdmitAll(rows, snapshot, ts) ==> x in rows || x in snapshot
    decreases |snapshot|
  {
    hide Keyed, Terminals, Upserted, Admits;
    if snapshot != [] {
      var n := |snapshot| - 1;
      assert snapshot == snapshot[..n] + [snapshot[n]];
      AdmitOrigin(rows, snapshot[..n], ts);
      AdmitAllBounded(rows, snapshot[..n], ts);
      UpsertLaws(AdmitAll(rows, snapshot[..n], ts), snapshot[n]);
    }
  }

  function WorkingKeys(rows: seq<Order>): set<string> {
    set o | o in rows && !o.IsTerminal() :: o.coid
  }

  function Keys(rows: seq<Order>): set<string> {
    set o | o in rows :: o.coid
  }

  /**
   A snapshot of working orders, newer than everything held, settles the blotter: the orders it shows working are exactly
   the snapshot's, whatever was missed, revived or stale before.
   */
  lemma {:induction false} FreshSnapshotSettles(rows: seq<Order>, snapshot: seq<Order>, ts: int)
    requires Bounded(rows)
    requires forall o :: o in snapshot ==> !o.IsTerminal()
    requires forall o :: o in rows ==> o.tsLast < ts
    ensures WorkingKeys(Reconciled(rows, snapshot, Some(ts))) == Keys(snapshot)
  {
    hide Keyed, Terminals, Bounded, AdmitAll, ById;
    var byId := ById(snapshot);
    var mid := AdmitAll(rows, byId, Some(ts));
    var after := Reconciled(rows, snapshot, Some(ts));
    ByIdLaws(snapshot);
    AdmitOrigin(rows, byId, Some(ts));
    forall k | k in Keys(snapshot)
      ensures k in WorkingKeys(after)
    {
      var o :| o in snapshot && o.coid == k;
      var x :| x in byId && x.coid == k;
      var i :| 0 <= i < |byId| && byId[i] == x;
      SnapshotKeysWork(rows, byId, ts, i);
      var r :| r in mid && r.coid == byId[i].coid && !r.IsTerminal();
      assert Has(byId, r.coid);
      assert r in after;
    }
    forall k | k in WorkingKeys(after)
      ensures k in Keys(snapshot)
    {
      var r :| r in after && !r.IsTerminal() && r.coid == k;
      assert r in mid && (Has(byId, r.coid) || r.tsLast > ts);
      assert r in byId ==> Has(byId, r.coid);
      var x :| x in byId && x.coid == k;
      assert x in snapshot;
    }
  }

  lemma {:induction false} WorkingAddsNoTerminal(rows: seq<Order>, o: Order)
    requires !o.IsTerminal()
    ensures Terminals(Put(rows, o)) <= Terminals(rows)
  {
    if rows == [] {
      assert [o][1..] == [];
    } else {
      WorkingAddsNoTerminal(rows[1..], o);
      assert Put(rows, o)[1..] == if rows[0].coid == o.coid then rows[1..] else Put(rows[1..], o);
    }
  }

  lemma {:induction false} TerminalPasses(rows: seq<Order>, snapshot: seq<Order>, ts: Option<int>, r: Order)
    requires Bounded(rows) && r in rows && r.IsTerminal()
    requires forall o :: o in snapshot ==> !o.IsTerminal() && o.coid != r.coid
    ensures r in AdmitAll(rows, snapshot, ts)
    decreases |snapshot|
  {
    hide Keyed, Terminals, Put, Admits, Sort;
    if snapshot != [] {
      var n := |snapshot| - 1;
      assert snapshot[n] in snapshot && forall o :: o in snapshot[..n] ==> o in snapshot;
      var mid := AdmitAll(rows, snapshot[..n], ts);
      TerminalPasses(rows, snapshot[..n], ts, r);
      AdmitAllBounded(rows, snapshot[..n], ts);
      WorkingAddsNoTerminal(mid, snapshot[n]);
      PutLaws(mid, snapshot[n]);
      NothingOver(Put(mid, snapshot[n]));
    }
  }

  lemma {:induction false} NothingOver(rows: seq<Order>)
    requires Terminals(rows) <= MAX_TERMINAL_ORDERS
    ensures Without(rows, Excess(rows)) == rows
  {
    WithoutNothing(rows);
  }

  /** A closed order the snapshot does not mention stays recorded: a snapshot of working orders drops only working rows. */
  lemma {:induction false} ClosedOrdersStay(rows: seq<Order>, snapshot: seq<Order>, ts: Option<int>, r: Order)
    requires Bounded(rows) && r in rows && r.IsTerminal()
    requires forall o :: o in snapshot ==> !o.IsTerminal() && o.coid != r.coid
    ensures r in Reconciled(rows, snapshot, ts)
  {
    hide Keyed, Terminals, Bounded, AdmitAll, ById;
    ByIdLaws(snapshot);
    TerminalPasses(rows, ById(snapshot), ts, r);
  }
}
