/**
 The durable sleeves (backend/api/budget_store.py): balances in rows, transfers in a log whose fill ids are
 unique, and the two operations that move capital. Targets are operator intent and arrive with each call.
 */
module BudgetStore {
  import opened Prelude
  import opened Budget
  import opened Distribution

  datatype StoreError = EmptyFillId | NoDonorRow | OverRequested | OverPlanned

  /** The two tables: what each sleeve holds, and the log in the order it was written. */
  datatype Store = Store(rows: map<string, real>, log: seq<Transfer>)

  function Balance(rows: map<string, real>, id: string): real {
    if id in rows then rows[id] else 0.0
  }

  /** The unique index on `fill_id`. */
  predicate Logged(log: seq<Transfer>, fillId: string) {
    exists t :: t in log && t.fillId == fillId
  }

  predicate UniqueFills(log: seq<Transfer>) {
    forall i, j :: 0 <= i < j < |log| ==> log[i].fillId != log[j].fillId
  }

  /** `load_book`: every id with a row or a target. */
  function LoadBook(rows: map<string, real>, targets: map<string, Money>): map<string, Sleeve> {
    map id | id in rows.Keys + targets.Keys ::
      Sleeve(id, if id in targets then targets[id] else Finite(0.0), Balance(rows, id))
  }

  /** The settings name registered strategies only, and the holding pen is not one of them. */
  predicate Registered(targets: map<string, Money>) {
    UNALLOCATED !in targets
  }

  /** The amount leaves one row and reaches another, which is created if it was not there. */
  function Move(rows: map<string, real>, t: Transfer): map<string, real> {
    var debited := rows[t.from := Balance(rows, t.from) - t.amount];
    debited[t.to := Balance(debited, t.to) + t.amount]
  }

  function Lookup(book: map<string, Sleeve>, id: Option<string>): Option<Sleeve> {
    if id.Some? && id.value != "" && id.value in book then Some(book[id.value]) else None
  }

  /** A sale, as the store takes it. */
  datatype Sale = Sale(seller: string, proceeds: Money, fillId: string, recipient: Option<string>)

  /** What a sale plans to move, on the balances and targets of the moment. */
  function SalePlan(st: Store, targets: map<string, Money>, sale: Sale): Option<Transfer> {
    var book := LoadBook(st.rows, targets);
    if sale.seller !in book then None
    else PlanTransfer(book[sale.seller], sale.proceeds, Lookup(book, sale.recipient), sale.fillId)
  }

  function OnSale(st: Store, targets: map<string, Money>, sale: Sale): (Store, Result<Option<Transfer>, StoreError>) {
    if sale.fillId == "" then (st, Err(EmptyFillId))
    else
      var plan := SalePlan(st, targets, sale);
      if plan.None? then (st, Ok(None))
      else if Logged(st.log, sale.fillId) then (st, Ok(None))
      else if plan.value.from !in st.rows then (st, Err(NoDonorRow))
      else (Store(Move(st.rows, plan.value), st.log + [plan.value]), Ok(plan))
  }

  // ---- a distribution ------------------------------------------------------------------------

  /** The deterministic fill id of one allocation of a run. */
  function RunId(run: string, to: string): string {
    run + "-" + to
  }

  function Entries(run: string, plan: seq<Allocation>): (r: seq<Transfer>)
    ensures |r| == |plan|
    ensures forall i :: 0 <= i < |r| ==> r[i] == Transfer(UNALLOCATED, plan[i].to, plan[i].Amount(), RunId(run, plan[i].to))
  {
    seq(|plan|, i requires 0 <= i < |plan| =>
      Transfer(UNALLOCATED, plan[i].to, plan[i].Amount(), RunId(run, plan[i].to)))
  }

  predicate AnyLogged(log: seq<Transfer>, entries: seq<Transfer>) {
    exists e :: e in entries && Logged(log, e.fillId)
  }

  function Credit(rows: map<string, real>, plan: seq<Allocation>): map<string, real>
    decreases |plan|
  {
    if plan == [] then rows
    else Credit(rows[plan[0].to := Balance(rows, plan[0].to) + plan[0].Amount()], plan[1..])
  }

  /** How much the request leaves to distribute: an unreadable request compares false and leaves nothing. */
  function Pot(held: real, requested: Option<Money>): Result<real, StoreError> {
    var asked := if requested.None? then Finite(held) else requested.value;
    match asked
    case Infinite => Err(OverRequested)
    case NotANumber => Ok(0.0)
    case Finite(r) => if r > held + 0.000000001 then Err(OverRequested) else Ok(Max(0.0, Min(r, held)))
  }

  function OnDistribution(st: Store, targets: map<string, Money>, requested: Option<Money>, run: string)
    : (Store, Result<seq<Allocation>, StoreError>)
  {
    var book := LoadBook(st.rows, targets);
    if UNALLOCATED !in book then (st, Ok([]))
    else
      var pot := Pot(book[UNALLOCATED].actual, requested);
      if pot.Err? then (st, Err(pot.error))
      else
        var plan := Planned(book, Finite(pot.value), {UNALLOCATED});
        var total := SumBy(plan, AmountOf);
        if plan == [] then (st, Ok([]))
        else if total > pot.value + 0.000000001 then (st, Err(OverPlanned))
        else if AnyLogged(st.log, Entries(run, plan)) then (st, Ok([]))
        else
          (Store(Credit(st.rows[UNALLOCATED := Balance(st.rows, UNALLOCATED) - total], plan),
                 st.log + Entries(run, plan)),
           Ok(plan))
  }

  // ---- the store itself ----------------------------------------------------------------------

  class SleeveStore {
    var rows: map<string, real>
    var log: seq<Transfer>

    ghost function View(): Store
      reads this
    {
      Store(rows, log)
    }

    constructor (rows: map<string, real>)
      ensures View() == Store(rows, [])
    {
      this.rows, log := rows, [];
    }

    /** A strategy sold: log the transfer first, then move the balances. */
    method OnSellFill(targets: map<string, Money>, sale: Sale) returns (r: Result<Option<Transfer>, StoreError>)
      modifies this
      ensures (View(), r) == OnSale(old(View()), targets, sale)
    {
      hide LoadBook, PlanTransfer, Logged, Lookup;
      if sale.fillId == "" {
        return Err(EmptyFillId);
      }
      var book := LoadBook(rows, targets);
      if sale.seller !in book {
        return Ok(None);
      }
      var plan := PlanTransfer(book[sale.seller], sale.proceeds, Lookup(book, sale.recipient), sale.fillId);
      TransferBounds(book[sale.seller], sale.proceeds, Lookup(book, sale.recipient), sale.fillId);
      if plan.None? {
        return Ok(None);
      }
      var t := plan.value;
      if Logged(log, t.fillId) {
        return Ok(None);
      }
      if t.from !in rows {
        return Err(NoDonorRow);
      }
      log := log + [t];
      rows := rows[t.from := rows[t.from] - t.amount];
      if t.to !in rows {
        rows := rows[t.to := t.amount];
      } else {
        rows := rows[t.to := rows[t.to] + t.amount];
      }
      return Ok(Some(t));
    }

    /** Hand what is unallocated to the sleeves that are short: all of the run or none of it. */
    method DistributeUnallocated(targets: map<string, Money>, requested: Option<Money>, run: string)
      returns (r: Result<seq<Allocation>, StoreError>)
      modifies this
      ensures (View(), r) == OnDistribution(old(View()), targets, requested, run)
    {
      hide Planned, Credit, LoadBook, SumBy, AnyLogged, Logged, Pot, Balance, Entries;
      var book := LoadBook(rows, targets);
      if UNALLOCATED !in book {
        return Ok([]);
      }
      var pot := Pot(book[UNALLOCATED].actual, requested);
      if pot.Err? {
        return Err(pot.error);
      }
      var plan := PlanDistribution(book, Finite(pot.value), {UNALLOCATED});
      if plan == [] {
        return Ok([]);
      }
      var total := SumBy(plan, AmountOf);
      if total > pot.value + 0.000000001 {
        return Err(OverPlanned);
      }
      var entries := Entries(run, plan);
      if AnyLogged(log, entries) {
        return Ok([]);
      }
      log := log + entries;
      rows := rows[UNALLOCATED := Balance(rows, UNALLOCATED) - total];
      CreditAll(plan);
      return Ok(plan);
    }

    /** Credit each recipient, opening a row for one that has none. */
    method CreditAll(plan: seq<Allocation>)
      modifies this`rows
      ensures rows == Credit(old(rows), plan)
    {
      ghost var credited := Credit(rows, plan);
      var n := 0;
      assert plan[0..] == plan;
      while n < |plan|
        invariant n <= |plan|
        invariant Credit(rows, plan[n..]) == credited
      {
        var a := plan[n];
        assert plan[n..][0] == a && plan[n..][1..] == plan[n + 1..];
        ghost var next := rows[a.to := Balance(rows, a.to) + a.Amount()];
        if a.to !in rows {
          rows := rows[a.to := 0.0];
        }
        rows := rows[a.to := rows[a.to] + a.Amount()];
        assert rows == next;
        n := n + 1;
      }
    }
  }
}
