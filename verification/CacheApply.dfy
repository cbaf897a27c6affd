/**
 Writing a repair (backend/api/cache_repair.py:587-639): lists and index sets change together, in one transaction, or
 nothing does.
 */
module CacheApply {
  import opened Prelude
  import opened CacheReplay
  import opened CacheOrders
  import opened CachePlan
  import opened CacheNet

  /** The keys a repair writes. */
  datatype Cache = Cache(orders: map<string, seq<OrderEvent>>, positions: map<string, seq<Fill>>,
                         ordersAll: set<string>, ordersOpen: set<string>, ordersClosed: set<string>,
                         positionsAll: set<string>, positionsOpen: set<string>, positionsClosed: set<string>,
                         snapshots: set<string>, orderPosition: map<string, string>)

  predicate RestsOpen(s: Status) {
    || s.IsAccepted? || s.IsPartiallyFilled?
    || (s.IsMarked? && (s.mark.Triggered? || s.mark.PendingUpdate? || s.mark.PendingCancel?))
  }

  /** The position id of the last fill that has one. */
  function LastPid(events: seq<OrderEvent>): Option<string> {
    if events == [] then None
    else
      var e := events[|events| - 1];
      if e.Filled? && e.fill.positionId != "" then Some(e.fill.positionId) else LastPid(events[..|events| - 1])
  }

  function Mapped(m: map<string, string>, coid: string, pid: Option<string>): map<string, string> {
    if pid.Some? then m[coid := pid.value] else m
  }

  function ApplyRevival(c: Cache, rv: Revival): Cache {
    var open := RestsOpen(rv.after);
    c.(orders := c.orders[rv.coid := rv.events],
       ordersOpen := if open then c.ordersOpen + {rv.coid} else c.ordersOpen - {rv.coid},
       ordersClosed := if open then c.ordersClosed - {rv.coid} else c.ordersClosed + {rv.coid},
       orderPosition := Mapped(c.orderPosition, rv.coid, LastPid(rv.events)))
  }

  function ApplyRevivals(c: Cache, revivals: seq<Revival>): Cache
    decreases |revivals|
  {
    if revivals == [] then c
    else ApplyRevival(ApplyRevivals(c, revivals[..|revivals| - 1]), revivals[|revivals| - 1])
  }

  /** The orders the index, as it was read, maps to a position. */
  function MappedTo(snapshot: map<string, string>, pid: string): set<string> {
    set coid | coid in snapshot && snapshot[coid] == pid
  }

  function ApplyRewrite(c: Cache, rw: Rewrite, snapshot: map<string, string>): Cache {
    if rw.same then c
    else if rw.events != [] then
      c.(positions := c.positions[rw.pid := rw.events],
         positionsAll := c.positionsAll + {rw.pid},
         positionsOpen := if rw.isOpen then c.positionsOpen + {rw.pid} else c.positionsOpen - {rw.pid},
         positionsClosed := if rw.isOpen then c.positionsClosed - {rw.pid} else c.positionsClosed + {rw.pid})
    else
      c.(positions := c.positions - {rw.pid},
         positionsAll := c.positionsAll - {rw.pid},
         positionsOpen := c.positionsOpen - {rw.pid},
         positionsClosed := c.positionsClosed - {rw.pid},
         snapshots := c.snapshots - {rw.pid},
         orderPosition := c.orderPosition - MappedTo(snapshot, rw.pid))
  }

  function ApplyRewrites(c: Cache, rewrites: seq<Rewrite>, snapshot: map<string, string>): Cache
    decreases |rewrites|
  {
    if rewrites == [] then c
    else ApplyRewrite(ApplyRewrites(c, rewrites[..|rewrites| - 1], snapshot), rewrites[|rewrites| - 1], snapshot)
  }

  function ApplyDrop(c: Cache, coid: string): Cache {
    c.(orders := c.orders - {coid},
       ordersAll := c.ordersAll - {coid}, ordersOpen := c.ordersOpen - {coid}, ordersClosed := c.ordersClosed - {coid},
       orderPosition := c.orderPosition - {coid})
  }

  function ApplyDrops(c: Cache, coids: seq<string>): Cache
    decreases |coids|
  {
    if coids == [] then c else ApplyDrop(ApplyDrops(c, coids[..|coids| - 1]), coids[|coids| - 1])
  }

  /** The whole transaction. */
  function Apply(c: Cache, plan: Plan): Cache {
    ApplyDrops(ApplyRewrites(ApplyRevivals(c, plan.revivals), plan.rewrites, c.orderPosition), plan.dropOrders)
  }

  function Changed(rewrites: seq<Rewrite>): nat {
    if rewrites == [] then 0
    else Changed(rewrites[..|rewrites| - 1]) + (if rewrites[|rewrites| - 1].same then 0 else 1)
  }

  datatype Outcome = RefusedPlan | Wrote(keys: nat)

  class CacheStore {
    var orders: map<string, seq<OrderEvent>>
    var positions: map<string, seq<Fill>>
    var ordersAll: set<string>
    var ordersOpen: set<string>
    var ordersClosed: set<string>
    var positionsAll: set<string>
    var positionsOpen: set<string>
    var positionsClosed: set<string>
    var snapshots: set<string>
    var orderPosition: map<string, string>

    ghost function View(): Cache
      reads this
    {
      Cache(orders, positions, ordersAll, ordersOpen, ordersClosed, positionsAll, positionsOpen, positionsClosed,
            snapshots, orderPosition)
    }

    constructor (c: Cache)
      ensures View() == c
    {
      orders, positions, ordersAll, ordersOpen, ordersClosed :=
        c.orders, c.positions, c.ordersAll, c.ordersOpen, c.ordersClosed;
      positionsAll, positionsOpen, positionsClosed, snapshots, orderPosition :=
        c.positionsAll, c.positionsOpen, c.positionsClosed, c.snapshots, c.orderPosition;
    }

    /** `apply_plan`: a refused plan writes nothing. */
    method ApplyPlan(plan: Plan) returns (r: Outcome)
      modifies this
      ensures plan.IsRefused() ==> r == RefusedPlan && View() == old(View())
      ensures !plan.IsRefused() ==>
                && View() == Apply(old(View()), plan)
                && r == Wrote(|plan.revivals| + Changed(plan.rewrites) + |plan.dropOrders|)
    {
      if plan.refusals != map[] || plan.unexplained != [] {
        return RefusedPlan;
      }
      var snapshot := orderPosition;
      ghost var start := View();
      var n := 0;
      while n < |plan.revivals|
        invariant n <= |plan.revivals|
        invariant View() == ApplyRevivals(start, plan.revivals[..n])
      {
        assert plan.revivals[..n + 1][..n] == plan.revivals[..n];
        WriteRevival(plan.revivals[n]);
        n := n + 1;
      }
      assert plan.revivals[..n] == plan.revivals;
      ghost var revived := View();
      var keys := n;
      n := 0;
      while n < |plan.rewrites|
        invariant n <= |plan.rewrites|
        invariant keys == |plan.revivals| + Changed(plan.rewrites[..n])
        invariant View() == ApplyRewrites(revived, plan.rewrites[..n], snapshot)
      {
        assert plan.rewrites[..n + 1][..n] == plan.rewrites[..n];
        if !plan.rewrites[n].same {
          WriteRewrite(plan.rewrites[n], snapshot);
          keys := keys + 1;
        }
        n := n + 1;
      }
      assert plan.rewrites[..n] == plan.rewrites;
      ghost var rewritten := View();
      n := 0;
      while n < |plan.dropOrders|
        invariant n <= |plan.dropOrders|
        invariant View() == ApplyDrops(rewritten, plan.dropOrders[..n])
      {
        assert plan.dropOrders[..n + 1][..n] == plan.dropOrders[..n];
        DropOrder(plan.dropOrders[n]);
        n := n + 1;
      }
      assert plan.dropOrders[..n] == plan.dropOrders;
      return Wrote(keys + n);
    }

    method WriteRevival(rv: Revival)
      modifies this
      ensures View() == ApplyRevival(old(View()), rv)
    {
      orders := orders[rv.coid := rv.events];
      if RestsOpen(rv.after) {
        ordersOpen, ordersClosed := ordersOpen + {rv.coid}, ordersClosed - {rv.coid};
      } else {
        ordersClosed, ordersOpen := ordersClosed + {rv.coid}, ordersOpen - {rv.coid};
      }
      ghost var before := orderPosition;
      var n := 0;
      while n < |rv.events|
        modifies this`orderPosition
        invariant n <= |rv.events|
        invariant orderPosition == Mapped(before, rv.coid, LastPid(rv.events[..n]))
      {
        var e := rv.events[n];
        assert rv.events[..n + 1][..n] == rv.events[..n];
        if e.Filled? && e.fill.positionId != "" {
          orderPosition := orderPosition[rv.coid := e.fill.positionId];
        }
        n := n + 1;
      }
      assert rv.events[..n] == rv.events;
    }

    method WriteRewrite(rw: Rewrite, snapshot: map<string, string>)
      requires !rw.same
      modifies this
      ensures View() == ApplyRewrite(old(View()), rw, snapshot)
    {
      if rw.events != [] {
        positions := positions[rw.pid := rw.events];
        positionsAll := positionsAll + {rw.pid};
        if rw.isOpen {
          positionsOpen, positionsClosed := positionsOpen + {rw.pid}, positionsClosed - {rw.pid};
        } else {
          positionsClosed, positionsOpen := positionsClosed + {rw.pid}, positionsOpen - {rw.pid};
        }
      } else {
        positions := positions - {rw.pid};
        positionsAll, positionsOpen, positionsClosed :=
          positionsAll - {rw.pid}, positionsOpen - {rw.pid}, positionsClosed - {rw.pid};
        snapshots := snapshots - {rw.pid};
        orderPosition := orderPosition - MappedTo(snapshot, rw.pid);
      }
    }

    method DropOrder(coid: string)
      modifies this
      ensures View() == ApplyDrop(old(View()), coid)
    {
      orders := orders - {coid};
      ordersAll, ordersOpen, ordersClosed := ordersAll - {coid}, ordersOpen - {coid}, ordersClosed - {coid};
      orderPosition := orderPosition - {coid};
    }
  }
}
