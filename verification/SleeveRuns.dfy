/**
 Capital over whole runs: any sequence of sell fills (duplicated, replayed, in any order) and distributions, under
 targets that may change between any two of them.
 */
module SleeveRuns {
  import opened Prelude
  import opened Budget
  import opened Distribution
  import opened BudgetStore

  function Holding(rows: map<string, real>): string -> real {
    id => Balance(rows, id)
  }

  /** `allocated`: the capital of every sleeve, the holding pen included. */
  ghost function Capital(rows: map<string, real>): real {
    SumSet(rows.Keys, Holding(rows))
  }

  function SignedFor(id: string): Transfer -> real {
    (t: Transfer) => (if t.to == id then t.amount else 0.0) - (if t.from == id then t.amount else 0.0)
  }

  /** Logged credits less logged debits of one sleeve. */
  function Net(log: seq<Transfer>, id: string): real {
    SumBy(log, SignedFor(id))
  }

  lemma {:induction false} CapitalPut(rows: map<string, real>, id: string, v: real)
    ensures Capital(rows[id := v]) == Capital(rows) - Balance(rows, id) + v
  {
    var rows' := rows[id := v];
    SumSetWithout(rows'.Keys, id, Holding(rows'));
    assert rows'.Keys - {id} == rows.Keys - {id};
    SumSetSame(rows.Keys - {id}, Holding(rows'), Holding(rows));
    if id in rows {
      SumSetWithout(rows.Keys, id, Holding(rows));
    } else {
      assert rows.Keys - {id} == rows.Keys;
    }
  }

  lemma {:induction false} NetOfOne(t: Transfer, id: string)
    ensures Net([t], id) == (if t.to == id then t.amount else 0.0) - (if t.from == id then t.amount else 0.0)
  {
    var f := SignedFor(id);
    assert SumBy([t], f) == f(t) + SumBy([t][1..], f);
  }

  lemma {:induction false} MoveLaws(rows: map<string, real>, t: Transfer)
    ensures Capital(Move(rows, t)) == Capital(rows)
    ensures forall id :: Balance(Move(rows, t), id) == Balance(rows, id) + Net([t], id)
  {
    var debited := rows[t.from := Balance(rows, t.from) - t.amount];
    CapitalPut(rows, t.from, Balance(rows, t.from) - t.amount);
    CapitalPut(debited, t.to, Balance(debited, t.to) + t.amount);
    forall id
      ensures Balance(Move(rows, t), id) == Balance(rows, id) + Net([t], id)
    {
      NetOfOne(t, id);
    }
  }

  function CreditFor(id: string): Allocation -> real {
    (a: Allocation) => if a.to == id then a.Amount() else 0.0
  }

  lemma {:induction false} CreditLaws(rows: map<string, real>, plan: seq<Allocation>)
    ensures Capital(Credit(rows, plan)) == Capital(rows) + SumBy(plan, AmountOf)
    ensures forall id :: Balance(Credit(rows, plan), id) == Balance(rows, id) + SumBy(plan, CreditFor(id))
    decreases |plan|
  {
    if plan != [] {
      var next := rows[plan[0].to := Balance(rows, plan[0].to) + plan[0].Amount()];
      CapitalPut(rows, plan[0].to, Balance(rows, plan[0].to) + plan[0].Amount());
      CreditLaws(next, plan[1..]);
      forall id
        ensures Balance(Credit(rows, plan), id) == Balance(rows, id) + SumBy(plan, CreditFor(id))
      {
        assert Balance(next, id) == Balance(rows, id) + CreditFor(id)(plan[0]);
      }
    }
  }

  /** What the entries of a run log is what it credits, less the whole of it from the holding pen. */
  lemma {:induction false} EntriesNet(run: string, plan: seq<Allocation>, id: string)
    ensures Net(Entries(run, plan), id)
         == SumBy(plan, CreditFor(id)) - (if id == UNALLOCATED then SumBy(plan, AmountOf) else 0.0)
  {
    if plan != [] {
      EntriesNet(run, plan[1..], id);
      assert Entries(run, plan)[1..] == Entries(run, plan[1..]);
    }
  }

  lemma {:induction false} RunIdInjective(run: string, a: string, b: string)
    requires RunId(run, a) == RunId(run, b)
    ensures a == b
  {
    assert a == RunId(run, a)[|run| + 1..] && b == RunId(run, b)[|run| + 1..];
  }

  // ---- what one step keeps -------------------------------------------------------------------

  /** What holds between the store before and after any part of a run. */
  ghost predicate Follows(st: Store, st': Store) {
    && st.log <= st'.log
    && Capital(st'.rows) == Capital(st.rows)
    && (forall id :: Balance(st'.rows, id) == Balance(st.rows, id) + Net(st'.log[|st.log|..], id))
    && (UniqueFills(st.log) ==> UniqueFills(st'.log))
    && (Balance(st.rows, UNALLOCATED) >= 0.0 ==> Balance(st'.rows, UNALLOCATED) >= 0.0)
  }

  lemma {:induction false} FollowsItself(st: Store)
    ensures Follows(st, st)
  {
    assert st.log[|st.log|..] == [];
  }

  lemma {:induction false} FollowsOn(a: Store, b: Store, c: Store)
    requires Follows(a, b) && Follows(b, c)
    ensures Follows(a, c)
  {
    forall id
      ensures Balance(c.rows, id) == Balance(a.rows, id) + Net(c.log[|a.log|..], id)
    {
      assert c.log[|a.log|..] == b.log[|a.log|..] + c.log[|b.log|..];
      SumByConcat(b.log[|a.log|..], c.log[|b.log|..], SignedFor(id));
    }
  }

  lemma {:induction false} UniqueWith(log: seq<Transfer>, t: Transfer)
    requires UniqueFills(log) && !Logged(log, t.fillId)
    ensures UniqueFills(log + [t])
  {
    assert forall i :: 0 <= i < |log| ==> log[i] in log;
  }

  /** The target of a sleeve as the book has it. */
  function TargetOf(targets: map<string, Money>, id: string): Money {
    if id in targets then targets[id] else Finite(0.0)
  }

  /**
   A sale that moves capital moves no more than it freed, leaves the donor at or above its target and the
   recipient at or below its own, and is refused once its fill is logged.
   */
  lemma {:induction false} SaleBounds(st: Store, targets: map<string, Money>, sale: Sale)
    ensures var (st', r) := OnSale(st, targets, sale);
            && (Logged(st.log, sale.fillId) ==> st' == st)
            && (!(r.Ok? && r.value.Some?) ==> st' == st)
            && (r.Ok? && r.value.Some? ==>
                  var t := r.value.value;
                  && st' == Store(Move(st.rows, t), st.log + [t])
                  && t.fillId == sale.fillId && !Logged(st.log, t.fillId)
                  && t.from == sale.seller && (t.to == UNALLOCATED || Some(t.to) == sale.recipient)
                  && sale.proceeds.Finite? && EPS < t.amount <= sale.proceeds.v
                  && TargetOf(targets, t.from).Finite?
                  && Balance(st'.rows, t.from) >= TargetOf(targets, t.from).v
                  && (t.to != UNALLOCATED && TargetOf(targets, t.to).Finite? ==>
                        Balance(st'.rows, t.to) <= TargetOf(targets, t.to).v))
  {
    var book := LoadBook(st.rows, targets);
    if sale.seller in book {
      TransferBounds(book[sale.seller], sale.proceeds, Lookup(book, sale.recipient), sale.fillId);
    }
  }

  lemma {:induction false} SaleFollows(st: Store, targets: map<string, Money>, sale: Sale)
    requires Registered(targets)
    ensures Follows(st, OnSale(st, targets, sale).0)
  {
    FollowsItself(st);
    SaleBounds(st, targets, sale);
    var (st', r) := OnSale(st, targets, sale);
    if r.Ok? && r.value.Some? {
      var t := r.value.value;
      hide OnSale;
      MoveLaws(st.rows, t);
      assert st'.log[|st.log|..] == [t];
      if UniqueFills(st.log) {
        UniqueWith(st.log, t);
      }
      assert t.amount > 0.0;
      if t.from != UNALLOCATED {
        NetOfOne(t, UNALLOCATED);
      }
    }
  }

  lemma {:induction false} PlanBounds(book: map<string, Sleeve>, pot: real)
    ensures var plan := Planned(book, Finite(pot), {UNALLOCATED});
            && DistinctAllocations(plan)
            && (plan != [] ==> 0.0 < SumBy(plan, AmountOf) <= pot)
            && (forall a :: a in plan ==>
                  && a.to != UNALLOCATED && a.to in book
                  && book[a.to].Headroom().Finite? && 0.0 < a.Amount() <= book[a.to].Headroom().v)
  {
    var plan := Planned(book, Finite(pot), {UNALLOCATED});
    PlannedDistinct(book, Finite(pot), {UNALLOCATED});
    DistributionLaws(book, Finite(pot), {UNALLOCATED});
    if plan != [] {
      NeverMoreThanAvailable(book, Finite(pot), {UNALLOCATED});
      hide Planned, DistinctAllocations;
      SumByNonNegative(plan, AmountOf);
    }
  }

  /** What a distribution that took effect did. */
  ghost predicate Distributed(st: Store, targets: map<string, Money>, st': Store, plan: seq<Allocation>, run: string) {
    var total := SumBy(plan, AmountOf);
    && plan != [] && DistinctAllocations(plan)
    && 0.0 < total <= Balance(st.rows, UNALLOCATED)
    && !AnyLogged(st.log, Entries(run, plan))
    && st' == Store(Credit(st.rows[UNALLOCATED := Balance(st.rows, UNALLOCATED) - total], plan),
                    st.log + Entries(run, plan))
    && (forall a :: a in plan ==> a.to != UNALLOCATED && HasHeadroom(st, targets, a))
  }

  predicate HasHeadroom(st: Store, targets: map<string, Money>, a: Allocation) {
    && TargetOf(targets, a.to).Finite?
    && 0.0 < a.Amount() && Balance(st.rows, a.to) + a.Amount() <= TargetOf(targets, a.to).v
  }

  lemma {:induction false} HeadroomInBook(st: Store, targets: map<string, Money>, a: Allocation)
    requires var book := LoadBook(st.rows, targets);
             && a.to in book && book[a.to].Headroom().Finite? && 0.0 < a.Amount() <= book[a.to].Headroom().v
    ensures HasHeadroom(st, targets, a)
  {
  }

  lemma {:induction false} PotBounds(st: Store, targets: map<string, Money>, requested: Option<Money>)
    ensures var book := LoadBook(st.rows, targets);
            UNALLOCATED in book && Pot(book[UNALLOCATED].actual, requested).Ok? ==>
              var pot := Pot(book[UNALLOCATED].actual, requested).value;
              pot <= 0.0 || pot <= Balance(st.rows, UNALLOCATED)
  {
  }

  /**
   A distribution either changes nothing or takes effect as a whole: it hands out no more than the holding pen
   has, each recipient once and within its headroom; and the last guard, on the planned total, never fires.
   */
  lemma {:induction false} DistributionBounds(st: Store, targets: map<string, Money>, requested: Option<Money>,
                                              run: string)
    ensures var (st', r) := OnDistribution(st, targets, requested, run);
            && r != Err(OverPlanned)
            && (st' == st || (r.Ok? && Distributed(st, targets, st', r.value, run)))
  {
    hide Planned, SumBy, LoadBook, AnyLogged, Credit, Entries, Balance, AmountOf, HasHeadroom, DistinctAllocations;
    var book := LoadBook(st.rows, targets);
    PotBounds(st, targets, requested);
    if UNALLOCATED in book {
      var pot := Pot(book[UNALLOCATED].actual, requested);
      if pot.Ok? {
        PlanBounds(book, pot.value);
        var plan := Planned(book, Finite(pot.value), {UNALLOCATED});
        forall a | a in plan
          ensures HasHeadroom(st, targets, a)
        {
          HeadroomInBook(st, targets, a);
        }
      }
    }
  }

  lemma {:induction false} CreditOfOne(plan: seq<Allocation>, id: string)
    requires DistinctAllocations(plan)
    ensures forall a :: a in plan && a.to == id ==> SumBy(plan, CreditFor(id)) == a.Amount()
    ensures (forall a :: a in plan ==> a.to != id) ==> SumBy(plan, CreditFor(id)) == 0.0
  {
    if plan != [] {
      assert plan == [plan[0]] + plan[1..];
      assert forall i :: 0 <= i < |plan[1..]| ==> plan[1..][i] == plan[i + 1];
      assert forall a :: a in plan[1..] ==> a.to != plan[0].to;
      CreditOfOne(plan[1..], id);
    }
  }

  lemma {:induction false} UniqueWithEntries(log: seq<Transfer>, run: string, plan: seq<Allocation>)
    requires UniqueFills(log) && !AnyLogged(log, Entries(run, plan)) && DistinctAllocations(plan)
    ensures UniqueFills(log + Entries(run, plan))
  {
    var entries := Entries(run, plan);
    forall i, j | 0 <= i < j < |log + entries|
      ensures (log + entries)[i].fillId != (log + entries)[j].fillId
    {
      if i >= |log| {
        if entries[i - |log|].fillId == entries[j - |log|].fillId {
          RunIdInjective(run, plan[i - |log|].to, plan[j - |log|].to);
        }
      } else if j >= |log| {
        assert log[i] in log && entries[j - |log|] in entries;
        assert !Logged(log, entries[j - |log|].fillId);
      }
    }
  }

  /** After a distribution no recipient is above its target, and the holding pen is not below zero. */
  lemma {:induction false} RecipientsWithinTarget(st: Store, targets: map<string, Money>, st': Store,
                                                  plan: seq<Allocation>, run: string)
    requires Distributed(st, targets, st', plan, run)
    ensures Balance(st'.rows, UNALLOCATED) >= 0.0
    ensures forall a :: a in plan ==> Balance(st'.rows, a.to) <= TargetOf(targets, a.to).v
  {
    hide Credit, DistinctAllocations;
    var debited := st.rows[UNALLOCATED := Balance(st.rows, UNALLOCATED) - SumBy(plan, AmountOf)];
    CreditLaws(debited, plan);
    CreditOfOne(plan, UNALLOCATED);
    forall a | a in plan
      ensures Balance(st'.rows, a.to) <= TargetOf(targets, a.to).v
    {
      CreditOfOne(plan, a.to);
    }
  }

  lemma {:induction false} DistributedFollows(st: Store, targets: map<string, Money>, st': Store,
                                              plan: seq<Allocation>, run: string)
    requires Distributed(st, targets, st', plan, run)
    ensures Follows(st, st')
  {
    hide Credit, DistinctAllocations, UniqueFills, AnyLogged, SumBy, HasHeadroom;
    var total := SumBy(plan, AmountOf);
    var debited := st.rows[UNALLOCATED := Balance(st.rows, UNALLOCATED) - total];
    CapitalPut(st.rows, UNALLOCATED, Balance(st.rows, UNALLOCATED) - total);
    CreditLaws(debited, plan);
    RecipientsWithinTarget(st, targets, st', plan, run);
    assert st'.log[|st.log|..] == Entries(run, plan);
    forall id
      ensures Balance(st'.rows, id) == Balance(st.rows, id) + Net(st'.log[|st.log|..], id)
    {
      EntriesNet(run, plan, id);
    }
    if UniqueFills(st.log) {
      UniqueWithEntries(st.log, run, plan);
    }
  }

  // ---- whole runs ----------------------------------------------------------------------------

  /** One thing that happens to the store, under the targets of its moment. */
  datatype Event =
    | Sold(targets: map<string, Money>, sale: Sale)
    | Distribute(targets: map<string, Money>, requested: Option<Money>, run: string)

  function Step(st: Store, e: Event): Store {
    match e
    case Sold(targets, sale) => OnSale(st, targets, sale).0
    case Distribute(targets, requested, run) => OnDistribution(st, targets, requested, run).0
  }

  function Run(st: Store, events: seq<Event>): Store
    decreases |events|
  {
    if events == [] then st else Run(Step(st, events[0]), events[1..])
  }

  lemma {:induction false} StepFollows(st: Store, e: Event)
    requires Registered(e.targets)
    ensures Follows(st, Step(st, e))
  {
    hide OnSale, OnDistribution, Follows, Distributed;
    match e
    case Sold(targets, sale) =>
      SaleFollows(st, targets, sale);
    case Distribute(targets, requested, run) =>
      DistributionBounds(st, targets, requested, run);
      var (st', r) := OnDistribution(st, targets, requested, run);
      FollowsItself(st);
      if st' != st {
        DistributedFollows(st, targets, st', r.value, run);
      }
  }

  /**
   Over any run: the total capital is what it was, every balance is its first value plus what the log credits it
   less what the log debits it, no fill is logged twice, and the holding pen never goes negative.
   */
  lemma {:induction false} RunFollows(st: Store, events: seq<Event>)
    requires forall e :: e in events ==> Registered(e.targets)
    ensures Follows(st, Run(st, events))
    decreases |events|
  {
    hide Step, Follows, Registered;
    if events == [] {
      FollowsItself(st);
    } else {
      assert events[0] in events && (forall e :: e in events[1..] ==> e in events);
      StepFollows(st, events[0]);
      RunFollows(Step(st, events[0]), events[1..]);
      FollowsOn(st, Step(st, events[0]), Run(st, events));
    }
  }

  /** A fill that once moved capital never moves any again, whatever happens in between. */
  lemma {:induction false} RedeliveryIsNoOp(st: Store, targets: map<string, Money>, sale: Sale, events: seq<Event>,
                                            later: map<string, Money>, again: Sale)
    requires Registered(targets) && forall e :: e in events ==> Registered(e.targets)
    requires OnSale(st, targets, sale).1.Ok? && OnSale(st, targets, sale).1.value.Some?
    requires again.fillId == sale.fillId
    ensures var reached := Run(OnSale(st, targets, sale).0, events);
            OnSale(reached, later, again).0 == reached
  {
    SaleBounds(st, targets, sale);
    var first := OnSale(st, targets, sale).0;
    var t := OnSale(st, targets, sale).1.value.value;
    hide OnSale, Run, Capital, Net, Balance, UniqueFills;
    RunFollows(first, events);
    var reached := Run(first, events);
    assert first.log[|st.log|] == t;
    assert reached.log[|st.log|] == t;
    assert t in reached.log;
    SaleBounds(reached, later, again);
  }

  /** The row of the seller holds more than its target by something to speak of, and the sale brought in as much. */
  predicate Frees(st: Store, targets: map<string, Money>, sale: Sale) {
    && sale.seller in st.rows
    && sale.proceeds.Finite? && sale.proceeds.v > EPS
    && TargetOf(targets, sale.seller).Finite? && st.rows[sale.seller] - TargetOf(targets, sale.seller).v > EPS
  }

  /**
   Exactly when a sale moves capital, first delivery or not: its fill has an id that is not in the log, and its seller's row
   frees something at the targets of the moment. The recipient has no say, for what it has no room for is parked.
   */
  lemma {:induction false} SaleMovesIff(st: Store, targets: map<string, Money>, sale: Sale)
    ensures OnSale(st, targets, sale).0 != st
       <==> sale.fillId != "" && !Logged(st.log, sale.fillId) && Frees(st, targets, sale)
  {
    var book := LoadBook(st.rows, targets);
    var plan := SalePlan(st, targets, sale);
    if sale.seller in book {
      var recipient := Lookup(book, sale.recipient);
      TransferBounds(book[sale.seller], sale.proceeds, recipient, sale.fillId);
      assert book[sale.seller].IsReducing() <==>
        TargetOf(targets, sale.seller).Finite? && Balance(st.rows, sale.seller) - TargetOf(targets, sale.seller).v > EPS;
      if plan.Some? {
        assert |st.log + [plan.value]| != |st.log|;
      }
    }
  }

  /** What happens at this point of a run would be logged under this fill id. */
  predicate Carries(st: Store, e: Event, fillId: string) {
    match e
    case Sold(_, sale) => sale.fillId == fillId
    case Distribute(targets, requested, run) => exists a :: a in PlannedFor(st, targets, requested) && RunId(run, a.to) == fillId
  }

  /** The `k`th event of the run moved capital under this fill id. */
  predicate MovedAt(st: Store, events: seq<Event>, k: nat, fillId: string) {
    && k < |events|
    && Carries(Run(st, events[..k]), events[k], fillId)
    && Step(Run(st, events[..k]), events[k]) != Run(st, events[..k])
  }

  /** A fill is in the log exactly when it was at the start or some event of the run has moved capital under it. */
  lemma {:induction false} LoggedIffMoved(st: Store, events: seq<Event>, fillId: string)
    ensures Logged(Run(st, events).log, fillId) <==>
              Logged(st.log, fillId) || exists k :: 0 <= k < |events| && MovedAt(st, events, k, fillId)
    decreases |events|
  {
    hide Logged, Step, Carries, Run;
    if events == [] {
      RunNothing(st);
    } else {
      var n := |events| - 1;
      LoggedIffMoved(st, events[..n], fillId);
      RunLast(st, events);
      LoggedByStep(Run(st, events[..n]), events[n], fillId);
      forall k: nat | k < n
        ensures MovedAt(st, events[..n], k, fillId) <==> MovedAt(st, events, k, fillId)
      {
        assert events[..n][..k] == events[..k];
      }
      assert MovedAt(st, events, n, fillId) <==>
        Carries(Run(st, events[..n]), events[n], fillId) && Run(st, events) != Run(st, events[..n]);
    }
  }

  lemma {:induction false} RunNothing(st: Store)
    ensures Run(st, []) == st
  {
  }

  lemma {:induction false} LoggedByStep(st: Store, e: Event, fillId: string)
    ensures Logged(Step(st, e).log, fillId) <==> Logged(st.log, fillId) || (Carries(st, e, fillId) && Step(st, e) != st)
  {
    hide OnSale, OnDistribution, Logged, PlannedFor;
    match e
    case Sold(targets, sale) => LoggedBySale(st, targets, sale, fillId);
    case Distribute(targets, requested, run) => LoggedByRun(st, targets, requested, run, fillId);
  }

  lemma {:induction false} LoggedConcat(a: seq<Transfer>, b: seq<Transfer>, fillId: string)
    ensures Logged(a + b, fillId) <==> Logged(a, fillId) || Logged(b, fillId)
  {
    if t :| t in a + b && t.fillId == fillId {
      assert t in a || t in b;
    }
    if t :| t in a && t.fillId == fillId {
      assert t in a + b;
    }
    if t :| t in b && t.fillId == fillId {
      assert t in a + b;
    }
  }

  lemma {:induction false} LoggedByRun(st: Store, targets: map<string, Money>, requested: Option<Money>, run: string,
                                       fillId: string)
    ensures Logged(OnDistribution(st, targets, requested, run).0.log, fillId) <==>
              || Logged(st.log, fillId)
              || (OnDistribution(st, targets, requested, run).0 != st
                  && exists a :: a in PlannedFor(st, targets, requested) && RunId(run, a.to) == fillId)
  {
    hide OnDistribution, PlannedFor, Logged, Credit, SumBy, RunId, DistinctAllocations;
    var plan := PlannedFor(st, targets, requested);
    if OnDistribution(st, targets, requested, run).0 != st {
      MovedIsPlanned(st, targets, requested, run);
      LoggedConcat(st.log, Entries(run, plan), fillId);
      EntriesNamed(run, plan, fillId);
    }
  }

  lemma {:induction false} MovedIsPlanned(st: Store, targets: map<string, Money>, requested: Option<Money>, run: string)
    requires OnDistribution(st, targets, requested, run).0 != st
    ensures OnDistribution(st, targets, requested, run).0.log == st.log + Entries(run, PlannedFor(st, targets, requested))
  {
    hide Planned, SumBy, LoadBook, AnyLogged, Credit, Balance;
  }

  lemma {:induction false} EntriesNamed(run: string, plan: seq<Allocation>, fillId: string)
    ensures Logged(Entries(run, plan), fillId) <==> exists a :: a in plan && RunId(run, a.to) == fillId
  {
    hide RunId;
    var entries := Entries(run, plan);
    if t :| t in entries && t.fillId == fillId {
      var i :| 0 <= i < |entries| && entries[i] == t;
      assert plan[i] in plan;
    }
    if a :| a in plan && RunId(run, a.to) == fillId {
      var i :| 0 <= i < |plan| && plan[i] == a;
      assert entries[i] in entries;
    }
  }

  lemma {:induction false} RunLast(st: Store, events: seq<Event>)
    requires events != []
    ensures Run(st, events) == Step(Run(st, events[..|events| - 1]), events[|events| - 1])
    decreases |events|
  {
    hide Step;
    if |events| == 1 {
      assert events[..0] == [] && events[1..] == [];
    } else {
      RunLast(Step(st, events[0]), events[1..]);
      assert events[..|events| - 1][1..] == events[1..][..|events| - 2];
    }
  }

  lemma {:induction false} LoggedBySale(st: Store, targets: map<string, Money>, sale: Sale, fillId: string)
    ensures Logged(OnSale(st, targets, sale).0.log, fillId) <==>
              Logged(st.log, fillId) || (sale.fillId == fillId && OnSale(st, targets, sale).0 != st)
  {
    SaleBounds(st, targets, sale);
    var (st', r) := OnSale(st, targets, sale);
    if r.Ok? && r.value.Some? {
      var t := r.value.value;
      hide OnSale;
      assert t in st'.log && |st'.log| != |st.log|;
      if Logged(st.log, fillId) {
        var x :| x in st.log && x.fillId == fillId;
        assert x in st'.log;
      }
    }
  }

  /**
   A fill that moved nothing leaves no trace: delivered again after any run, it moves capital exactly when nothing has moved
   under its id in the meantime and the seller's row frees something at the targets it then meets.
   */
  lemma {:induction false} UnloggedFillMovesIff(st: Store, targets: map<string, Money>, sale: Sale, events: seq<Event>,
                                                later: map<string, Money>, again: Sale)
    requires OnSale(st, targets, sale).0 == st && !Logged(st.log, sale.fillId) && sale.fillId != ""
    requires again.fillId == sale.fillId
    ensures var reached := Run(OnSale(st, targets, sale).0, events);
            OnSale(reached, later, again).0 != reached <==>
              Frees(reached, later, again) && forall k :: 0 <= k < |events| ==> !MovedAt(st, events, k, sale.fillId)
  {
    hide OnSale, Run, Logged, Frees, MovedAt;
    SaleMovesIff(Run(st, events), later, again);
    LoggedIffMoved(st, events, sale.fillId);
  }

  /** For one: a target that drops between the two deliveries. */
  lemma {:induction false} UnloggedFillMovesLater()
    ensures exists st: Store, sale: Sale, before, after :: Registered(before) && Registered(after)
              && OnSale(st, before, sale) == (st, Ok(None))
              && OnSale(st, after, sale).1.Ok? && OnSale(st, after, sale).1.value.Some?
              && OnSale(st, after, sale).0 != st
  {
    var st := Store(map["M" := 100.0], []);
    var sale := Sale("M", Finite(30.0), "fill", None);
    var before, after := map["M" := Finite(100.0)], map["M" := Finite(50.0)];
    assert LoadBook(st.rows, before)["M"] == Sleeve("M", Finite(100.0), 100.0);
    assert LoadBook(st.rows, after)["M"] == Sleeve("M", Finite(50.0), 100.0);
    assert OnSale(st, before, sale) == (st, Ok(None));
    assert OnSale(st, after, sale).1 == Ok(Some(Transfer("M", UNALLOCATED, 30.0, "fill")));
    assert |OnSale(st, after, sale).0.log| == 1;
  }

  // ---- replayed distributions ----------------------------------------------------------------

  /** Replaying a run never funds a sleeve that run has already funded. */
  lemma {:induction false} ReplayFundsOnlyOthers(st: Store, targets: map<string, Money>, st': Store, plan: seq<Allocation>,
                                                 run: string, events: seq<Event>, later: map<string, Money>,
                                                 requested: Option<Money>)
    requires Distributed(st, targets, st', plan, run)
    requires Registered(later) && forall e :: e in events ==> Registered(e.targets)
    ensures var reached := Run(st', events);
            var (again, r) := OnDistribution(reached, later, requested, run);
            again == reached || (r.Ok? && forall a, b :: a in plan && b in r.value ==> a.to != b.to)
  {
    hide Run, OnDistribution, Capital, Net, UniqueFills, Credit, SumBy, DistinctAllocations;
    RunFollows(st', events);
    var reached := Run(st', events);
    DistributionBounds(reached, later, requested, run);
    var (again, r) := OnDistribution(reached, later, requested, run);
    if again != reached {
      forall a, b | a in plan && b in r.value
        ensures a.to != b.to
      {
        var i :| 0 <= i < |plan| && plan[i] == a;
        var j :| 0 <= j < |r.value| && r.value[j] == b;
        EntryIsLogged(st, plan, run, reached.log, i);
        assert Entries(run, r.value)[j] in Entries(run, r.value);
        assert !Logged(reached.log, RunId(run, b.to));
      }
    }
  }

  lemma {:induction false} EntryIsLogged(st: Store, plan: seq<Allocation>, run: string, log: seq<Transfer>, i: nat)
    requires i < |plan| && st.log + Entries(run, plan) <= log
    ensures Logged(log, RunId(run, plan[i].to))
  {
    var t := Entries(run, plan)[i];
    assert log[|st.log| + i] == (st.log + Entries(run, plan))[|st.log| + i] == t;
    assert t in log;
  }

  /** What a distribution plans, if it gets as far as planning. */
  function PlannedFor(st: Store, targets: map<string, Money>, requested: Option<Money>): seq<Allocation> {
    var book := LoadBook(st.rows, targets);
    if UNALLOCATED !in book || Pot(book[UNALLOCATED].actual, requested).Err? then []
    else Planned(book, Finite(Pot(book[UNALLOCATED].actual, requested).value), {UNALLOCATED})
  }

  /**
   Exactly when a distribution moves capital, replayed or not: it plans something, and none of the sleeves it plans for is
   already logged under its run id.
   */
  lemma {:induction false} DistributionMovesIff(st: Store, targets: map<string, Money>, requested: Option<Money>, run: string)
    ensures OnDistribution(st, targets, requested, run).0 != st
       <==> && PlannedFor(st, targets, requested) != []
            && forall a :: a in PlannedFor(st, targets, requested) ==> !Logged(st.log, RunId(run, a.to))
  {
    hide Planned, SumBy, LoadBook, Logged, Credit, Balance, AmountOf, RunId;
    var plan := PlannedFor(st, targets, requested);
    DistributionBounds(st, targets, requested, run);
    AnyLoggedIff(st.log, run, plan);
    if OnDistribution(st, targets, requested, run).1 == Ok(plan) && plan != [] {
      assert |st.log + Entries(run, plan)| != |st.log|;
    }
  }

  lemma {:induction false} AnyLoggedIff(log: seq<Transfer>, run: string, plan: seq<Allocation>)
    ensures AnyLogged(log, Entries(run, plan)) <==> exists a :: a in plan && Logged(log, RunId(run, a.to))
  {
    hide Logged, RunId;
    var entries := Entries(run, plan);
    if AnyLogged(log, entries) {
      var e :| e in entries && Logged(log, e.fillId);
      var i :| 0 <= i < |entries| && entries[i] == e;
      assert plan[i] in plan;
    }
    if a :| a in plan && Logged(log, RunId(run, a.to)) {
      var i :| 0 <= i < |plan| && plan[i] == a;
      assert entries[i] in entries;
    }
  }

  /**
   A run that has been applied, replayed after anything else: it moves capital again exactly when it now plans something, for
   sleeves none of which is logged under its id; and then for none that it funded before.
   */
  lemma {:induction false} ReplayMovesIff(st: Store, targets: map<string, Money>, st': Store, plan: seq<Allocation>, run: string,
                                          events: seq<Event>, later: map<string, Money>, requested: Option<Money>)
    requires Distributed(st, targets, st', plan, run)
    requires forall e :: e in events ==> Registered(e.targets)
    ensures var reached := Run(st', events);
            var now := PlannedFor(reached, later, requested);
            && (OnDistribution(reached, later, requested, run).0 != reached <==>
                  now != [] && forall a :: a in now ==> !Logged(reached.log, RunId(run, a.to)))
            && forall a :: a in plan ==> Logged(reached.log, RunId(run, a.to))
  {
    hide Run, OnDistribution, PlannedFor, Capital, Net, UniqueFills, Credit, SumBy, DistinctAllocations, Logged;
    var reached := Run(st', events);
    DistributionMovesIff(reached, later, requested, run);
    RunFollows(st', events);
    forall a | a in plan
      ensures Logged(reached.log, RunId(run, a.to))
    {
      var i :| 0 <= i < |plan| && plan[i] == a;
      EntryIsLogged(st, plan, run, reached.log, i);
    }
  }

  /** One sleeve is short, by one unit, and the holding pen has that much. */
  predicate OneShort(st: Store, targets: map<string, Money>, id: string) {
    && id != UNALLOCATED && UNALLOCATED in st.rows && st.rows[UNALLOCATED] >= 1.0
    && id in targets && targets[id] == Finite(1.0) && Balance(st.rows, id) == 0.0
    && (forall k :: k in st.rows.Keys + targets.Keys && k != id && k != UNALLOCATED ==>
          TargetOf(targets, k).Finite? && Balance(st.rows, k) >= TargetOf(targets, k).v)
  }

  lemma {:induction false} PlanForOne(st: Store, targets: map<string, Money>, id: string)
    requires OneShort(st, targets, id)
    ensures Planned(LoadBook(st.rows, targets), Finite(st.rows[UNALLOCATED]), {UNALLOCATED}) == [Allocation(id, 100)]
  {
    hide Planned, ClaimsOf, SumInt, DistinctAllocations, DistinctClaims;
    var book := LoadBook(st.rows, targets);
    var held := st.rows[UNALLOCATED];
    var claims := ClaimsOf(book, {UNALLOCATED});
    ClaimsFacts(book, {UNALLOCATED});
    assert book[id] == Sleeve(id, Finite(1.0), 0.0);
    assert Claim(id, 1.0) in claims;
    assert forall c :: c in claims ==> c == Claim(id, 1.0);
    OnlyOne(claims, Claim(id, 1.0));
    OneClaimDivides(id, held);
    DistributionLaws(book, Finite(held), {UNALLOCATED});
    PlannedDistinct(book, Finite(held), {UNALLOCATED});
    PlanBounds(book, held);
    OnlyRecipient(Planned(book, Finite(held), {UNALLOCATED}), id);
  }

  /** With one sleeve short, a distribution goes to it and moves capital. */
  lemma {:induction false} OneShortSleeve(st: Store, targets: map<string, Money>, run: string, id: string)
    requires OneShort(st, targets, id) && !Logged(st.log, RunId(run, id))
    ensures var (st', r) := OnDistribution(st, targets, None, run);
            && st' != st && r == Ok([Allocation(id, 100)])
  {
    hide Planned, OneShort, Credit, SumBy;
    PlanForOne(st, targets, id);
    DistributionBounds(st, targets, None, run);
    ShortFacts(st, targets, id);
    var plan := [Allocation(id, 100)];
    TotalOfOne(id);
    assert Entries(run, plan) == [Transfer(UNALLOCATED, id, plan[0].Amount(), RunId(run, id))];
    assert |(st.log + Entries(run, plan))| == |st.log| + 1;
  }

  lemma {:induction false} TotalOfOne(id: string)
    ensures SumBy([Allocation(id, 100)], AmountOf) == 1.0
  {
    var plan := [Allocation(id, 100)];
    assert SumBy(plan, AmountOf) == AmountOf(plan[0]) + SumBy(plan[1..], AmountOf);
  }

  lemma {:induction false} ShortFacts(st: Store, targets: map<string, Money>, id: string)
    requires OneShort(st, targets, id)
    ensures UNALLOCATED in st.rows && st.rows[UNALLOCATED] >= 1.0
    ensures var book := LoadBook(st.rows, targets);
            UNALLOCATED in book && Pot(book[UNALLOCATED].actual, None) == Ok(st.rows[UNALLOCATED])
  {
  }

  lemma {:induction false} OnlyOne(claims: seq<Claim>, c: Claim)
    requires DistinctClaims(claims) && c in claims && forall d :: d in claims ==> d == c
    ensures claims == [c]
  {
    var last := |claims| - 1;
    assert claims[0] in claims && claims[last] in claims;
    assert claims[0].id == claims[last].id;
  }

  lemma {:induction false} OneClaimDivides(id: string, held: real)
    requires held >= 1.0
    ensures PotCents([Claim(id, 1.0)], held) == 100 && Divides([Claim(id, 1.0)], Finite(held))
  {
    var claims := [Claim(id, 1.0)];
    assert claims[1..] == [];
    assert CapCents(claims[0]) == 100;
    assert SumInt(claims, CapCents) == CapCents(claims[0]) + SumInt(claims[1..], CapCents);
    assert SumBy(claims, RoomOf) == 1.0;
  }

  lemma {:induction false} OnlyRecipient(plan: seq<Allocation>, id: string)
    requires DistinctAllocations(plan) && (forall a :: a in plan ==> a.to == id)
    requires SumInt(plan, AllocationCents) == 100
    ensures plan == [Allocation(id, 100)]
  {
    if plan != [] {
      var last := |plan| - 1;
      assert plan[0] in plan && plan[last] in plan;
      assert plan[0].to == plan[last].to;
      assert plan[1..] == [];
    }
  }

  lemma {:induction false} FirstRun(st: Store, targets: map<string, Money>, run: string)
    requires st == Store(map[UNALLOCATED := 2.0], []) && targets == map["X" := Finite(1.0)]
    ensures OnDistribution(st, targets, None, run).0
         == Store(map[UNALLOCATED := 1.0, "X" := 1.0], [Transfer(UNALLOCATED, "X", 1.0, RunId(run, "X"))])
  {
    hide OnDistribution, Credit;
    OneShortSleeve(st, targets, run, "X");
    DistributionBounds(st, targets, None, run);
    CreditTheOne(st, targets, OnDistribution(st, targets, None, run).0, run);
  }

  lemma {:induction false} CreditTheOne(st: Store, targets: map<string, Money>, once: Store, run: string)
    requires st == Store(map[UNALLOCATED := 2.0], [])
    requires Distributed(st, targets, once, [Allocation("X", 100)], run)
    ensures once == Store(map[UNALLOCATED := 1.0, "X" := 1.0],
                          [Transfer(UNALLOCATED, "X", 1.0, RunId(run, "X"))])
  {
    var plan := [Allocation("X", 100)];
    assert plan[1..] == [];
    TotalOfOne("X");
  }

  /** But it may fund others: a run replayed after a target was raised moves capital a second time. */
  lemma {:induction false} ReplayMayMoveAgain(run: string)
    ensures exists st: Store, before, after :: Registered(before) && Registered(after)
              && var once := OnDistribution(st, before, None, run).0;
              && once != st
              && OnDistribution(once, after, None, run).0 != once
  {
    hide OnDistribution;
    var st := Store(map[UNALLOCATED := 2.0], []);
    var before, after := map["X" := Finite(1.0)], map["X" := Finite(1.0), "Y" := Finite(1.0)];
    FirstRun(st, before, run);
    var once := Store(map[UNALLOCATED := 1.0, "X" := 1.0], [Transfer(UNALLOCATED, "X", 1.0, RunId(run, "X"))]);
    assert |once.log| != |st.log|;
    if RunId(run, "X") == RunId(run, "Y") {
      RunIdInjective(run, "X", "Y");
    }
    OneShortSleeve(once, after, run, "Y");
    assert Registered(before) && Registered(after);
  }
}
