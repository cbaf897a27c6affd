/**
 The order blotter of the read side (backend/api/consumer.py:350-396): a dictionary in insertion order, bounded on its
 terminal rows only, reconciled against snapshots that race the stream of order events.
 */
module OrderBlotter {
  import opened Prelude

  const MAX_TERMINAL_ORDERS: nat := 200
  const TERMINAL_STATUS := {"FILLED", "CANCELED", "REJECTED", "EXPIRED", "DENIED"}

  datatype Order = Order(coid: string, status: string, tsLast: int)
  {
    predicate IsTerminal() {
      status in TERMINAL_STATUS
    }
  }

  predicate Terminal(o: Order) { o.IsTerminal() }

  /** No key twice: the rows are a dictionary, in the order its keys were first inserted. */
  predicate Keyed(rows: seq<Order>) {
    forall i, j :: 0 <= i < j < |rows| ==> rows[i].coid != rows[j].coid
  }

  predicate Has(rows: seq<Order>, coid: string) {
    exists o :: o in rows && o.coid == coid
  }

  function Lookup(rows: seq<Order>, coid: string): (r: Option<Order>)
    ensures r.Some? ==> r.value in rows && r.value.coid == coid
    ensures r.None? ==> !Has(rows, coid)
  {
    if rows == [] then None
    else
      assert rows == [rows[0]] + rows[1..];
      if rows[0].coid == coid then Some(rows[0]) else Lookup(rows[1..], coid)
  }

  /** `rows[o.client_order_id] = o`: in place when the key is there, at the end when it is new. */
  function Put(rows: seq<Order>, o: Order): seq<Order> {
    if rows == [] then [o]
    else if rows[0].coid == o.coid then [o] + rows[1..]
    else [rows[0]] + Put(rows[1..], o)
  }

  predicate ByAge(a: Order, b: Order) {
    a.tsLast <= b.tsLast
  }

  /** The terminal rows the cap drops: the oldest, as many as are over it. */
  function Excess(rows: seq<Order>): seq<Order> {
    var terminal := Filter(rows, Terminal);
    if |terminal| > MAX_TERMINAL_ORDERS then Sort(terminal, ByAge)[..|terminal| - MAX_TERMINAL_ORDERS] else []
  }

  function Without(rows: seq<Order>, gone: seq<Order>): seq<Order> {
    Filter(rows, (o: Order) => o !in gone)
  }

  function Upserted(rows: seq<Order>, o: Order): seq<Order> {
    var put := Put(rows, o);
    Without(put, Excess(put))
  }

  // ---- a snapshot --------------------------------------------------------------------------------

  /** The snapshot as a dictionary: a repeated id keeps its place and takes the later row. */
  function ById(snapshot: seq<Order>): seq<Order> {
    if snapshot == [] then [] else Put(ById(snapshot[..|snapshot| - 1]), snapshot[|snapshot| - 1])
  }

  /** A snapshot row is taken when it is no older than the row held, or reopens a row the snapshot postdates. */
  predicate Admits(rows: seq<Order>, o: Order, ts: Option<int>) {
    var held := Lookup(rows, o.coid);
    || held.None?
    || o.tsLast >= held.value.tsLast
    || (held.value.IsTerminal() && !o.IsTerminal() && ts.Some? && ts.value > held.value.tsLast)
  }

  function Admitted(rows: seq<Order>, o: Order, ts: Option<int>): seq<Order> {
    if Admits(rows, o, ts) then Upserted(rows, o) else rows
  }

  function AdmitAll(rows: seq<Order>, snapshot: seq<Order>, ts: Option<int>): seq<Order>
    decreases |snapshot|
  {
    if snapshot == [] then rows
    else Admitted(AdmitAll(rows, snapshot[..|snapshot| - 1], ts), snapshot[|snapshot| - 1], ts)
  }

  /** What the second pass keeps: closed rows, rows the snapshot has, and rows newer than the snapshot. */
  function Survives(byId: seq<Order>, ts: Option<int>): Order -> bool {
    (o: Order) => o.IsTerminal() || Has(byId, o.coid) || (ts.Some? && o.tsLast > ts.value)
  }

  function Reconciled(rows: seq<Order>, snapshot: seq<Order>, ts: Option<int>): seq<Order> {
    Filter(AdmitAll(rows, ById(snapshot), ts), Survives(ById(snapshot), ts))
  }

  // ---- the blotter -------------------------------------------------------------------------------

  class Blotter {
    var rows: seq<Order>

    constructor ()
      ensures rows == []
    {
      rows := [];
    }

    method UpsertOrder(o: Order)
      modifies this
      ensures rows == Upserted(old(rows), o)
    {
      rows := Put(rows, o);
      var terminal := Filter(rows, Terminal);
      if |terminal| > MAX_TERMINAL_ORDERS {
        var oldest := Sort(terminal, ByAge)[..|terminal| - MAX_TERMINAL_ORDERS];
        DropAll(oldest);
      } else {
        WithoutNothing(rows);
      }
    }

    /** Delete the given rows one by one. */
    method DropAll(gone: seq<Order>)
      modifies this
      ensures rows == Without(old(rows), gone)
    {
      var n := 0;
      WithoutNothing(rows);
      while n < |gone|
        invariant n <= |gone|
        invariant rows == Without(old(rows), gone[..n])
      {
        assert gone[..n + 1] == gone[..n] + [gone[n]];
        WithoutOneMore(old(rows), gone[..n], gone[n]);
        rows := Without(rows, [gone[n]]);
        n := n + 1;
      }
      assert gone[..n] == gone;
    }

    method ReconcileOrders(snapshot: seq<Order>, ts: Option<int>)
      modifies this
      ensures rows == Reconciled(old(rows), snapshot, ts)
    {
      var byId := ById(snapshot);
      var n := 0;
      while n < |byId|
        invariant n <= |byId|
        invariant rows == AdmitAll(old(rows), byId[..n], ts)
      {
        var o := byId[n];
        assert byId[..n + 1][..n] == byId[..n];
        var existing := Lookup(rows, o.coid);
        if existing.None? || o.tsLast >= existing.value.tsLast {
          UpsertOrder(o);
        } else if existing.value.IsTerminal() && !o.IsTerminal() && ts.Some? && ts.value > existing.value.tsLast {
          UpsertOrder(o);
        }
        n := n + 1;
      }
      assert byId[..n] == byId;
      rows := Filter(rows, Survives(byId, ts));
    }
  }

  lemma {:induction false} FilterAll<T(!new)>(s: seq<T>, keep: T -> bool)
    requires forall x :: x in s ==> keep(x)
    ensures Filter(s, keep) == s
  {
    if s != [] {
      assert s == [s[0]] + s[1..];
      assert s[0] in s && forall x :: x in s[1..] ==> x in s;
      FilterAll(s[1..], keep);
    }
  }

  lemma {:induction false} WithoutNothing(rows: seq<Order>)
    ensures Without(rows, []) == rows
  {
    FilterAll(rows, (o: Order) => o !in []);
  }

  lemma {:induction false} FilterTwice<T(!new)>(s: seq<T>, p: T -> bool, q: T -> bool, both: T -> bool)
    requires forall x :: both(x) <==> p(x) && q(x)
    ensures Filter(Filter(s, p), q) == Filter(s, both)
  {
    if s != [] {
      FilterTwice(s[1..], p, q, both);
      if p(s[0]) {
        assert Filter(s, p)[1..] == Filter(s[1..], p);
      }
    }
  }

  lemma {:induction false} WithoutOneMore(rows: seq<Order>, gone: seq<Order>, o: Order)
    ensures Without(Without(rows, gone), [o]) == Without(rows, gone + [o])
  {
    FilterTwice(rows, (x: Order) => x !in gone, (x: Order) => x !in [o], (x: Order) => x !in gone + [o]);
  }
}
