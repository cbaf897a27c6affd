/**
 What was asked for and not got (backend/api/failed_requests.py:30-166): one row a condition, cleared every pass, and beside
 it the recurrence that survives the clearing, defined here against the history of operations.
 */
module FailedRequests {
  import opened Prelude

  datatype Key = Key(kind: string, subject: string)

  datatype Row = Row(key: Key, count: nat, note: string, firstTs: int, lastTs: int)

  datatype Recurrence = Recurrence(consecutive: nat, total: nat, since: int, seen: bool)

  /** The row table in the order its keys were inserted, the recurrence table, and the kinds with a pass structure. */
  datatype State = State(rows: seq<Row>, recurrence: map<Key, Recurrence>, delimited: set<string>)

  datatype Op =
    | Record(key: Key, note: string, ts: int)
    | Clear(key: Key)
    | ClearKind(kind: string)

  function FindRow(rows: seq<Row>, k: Key): Option<Row> {
    if rows == [] then None else if rows[0].key == k then Some(rows[0]) else FindRow(rows[1..], k)
  }

  function PutRow(rows: seq<Row>, r: Row): seq<Row> {
    if rows == [] then [r]
    else if rows[0].key == r.key then [r] + rows[1..]
    else [rows[0]] + PutRow(rows[1..], r)
  }

  function Recorded(row: Option<Row>, k: Key, note: string, ts: int): Row {
    var held := if row.Some? then row.value else Row(k, 0, note, ts, 0);
    held.(count := held.count + 1, lastTs := ts, note := if note != "" then note else held.note)
  }

  function Counted(rec: Option<Recurrence>, ts: int): Recurrence {
    var held := if rec.Some? then rec.value else Recurrence(0, 0, ts, false);
    if held.seen then held
    else held.(consecutive := held.consecutive + 1, total := held.total + 1, seen := true)
  }

  function RecOf(s: State, k: Key): Option<Recurrence> {
    if k in s.recurrence then Some(s.recurrence[k]) else None
  }

  /** What the end of a pass does to one key of the kind. */
  function Closed(rec: Recurrence): Recurrence {
    rec.(consecutive := if rec.seen then rec.consecutive else 0, seen := false)
  }

  function OfOtherKinds(kind: string): Row -> bool {
    (r: Row) => r.key.kind != kind
  }

  function OtherThan(k: Key): Row -> bool {
    (r: Row) => r.key != k
  }

  function Step(s: State, op: Op): State {
    match op
    case Record(k, note, ts) =>
      s.(rows := PutRow(s.rows, Recorded(FindRow(s.rows, k), k, note, ts)),
         recurrence := s.recurrence[k := Counted(RecOf(s, k), ts)])
    case Clear(k) =>
      s.(rows := Filter(s.rows, OtherThan(k)),
         recurrence := if k in s.recurrence then s.recurrence[k := s.recurrence[k].(consecutive := 0, seen := false)]
                       else s.recurrence)
    case ClearKind(kind) =>
      State(Filter(s.rows, OfOtherKinds(kind)),
            map k | k in s.recurrence :: if k.kind == kind then Closed(s.recurrence[k]) else s.recurrence[k],
            s.delimited + {kind})
  }

  function Run(h: seq<Op>): State
    decreases |h|
  {
    if h == [] then State([], map[], {}) else Step(Run(h[..|h| - 1]), h[|h| - 1])
  }

  // ---- the recorder --------------------------------------------------------------------------------

  class Recorder {
    var rows: seq<Row>
    var recurrence: map<Key, Recurrence>
    var delimited: set<string>

    ghost function View(): State
      reads this
    {
      State(rows, recurrence, delimited)
    }

    constructor ()
      ensures View() == State([], map[], {})
    {
      rows, recurrence, delimited := [], map[], {};
    }

    method RecordFailure(kind: string, subject: string, note: string, ts: int)
      modifies this
      ensures View() == Step(old(View()), Record(Key(kind, subject), note, ts))
    {
      var k := Key(kind, subject);
      var held := FindRow(rows, k);
      var row := if held.Some? then held.value else Row(k, 0, note, ts, 0);
      row := row.(count := row.count + 1);
      row := row.(lastTs := ts);
      if note != "" {
        row := row.(note := note);
      }
      FoundKey(rows, k);
      rows := PutRow(rows, row);
      var rec := if k in recurrence then recurrence[k] else Recurrence(0, 0, ts, false);
      if !rec.seen {
        rec := rec.(consecutive := rec.consecutive + 1);
        rec := rec.(total := rec.total + 1);
        rec := rec.(seen := true);
      }
      recurrence := recurrence[k := rec];
    }

    method ClearOne(kind: string, subject: string)
      modifies this
      ensures View() == Step(old(View()), Clear(Key(kind, subject)))
    {
      var k := Key(kind, subject);
      rows := Filter(rows, OtherThan(k));
      if k in recurrence {
        recurrence := recurrence[k := recurrence[k].(consecutive := 0, seen := false)];
      }
    }

    /** The boundary of a pass: the rows of the kind go, and each of its keys is closed in turn. */
    method ClearAll(kind: string)
      modifies this
      ensures View() == Step(old(View()), ClearKind(kind))
    {
      rows := Filter(rows, OfOtherKinds(kind));
      var todo := recurrence.Keys;
      ghost var before := recurrence;
      while todo != {}
        modifies this`recurrence
        invariant recurrence.Keys == before.Keys && todo <= before.Keys
        invariant forall k :: k in before ==>
                    recurrence[k] == if k.kind == kind && k !in todo then Closed(before[k]) else before[k]
        decreases |todo|
      {
        var k :| k in todo;
        if k.kind == kind {
          var rec := recurrence[k];
          if !rec.seen {
            rec := rec.(consecutive := 0);
          }
          recurrence := recurrence[k := rec.(seen := false)];
        }
        todo := todo - {k};
      }
      delimited := delimited + {kind};
      assert recurrence == Step(old(View()), ClearKind(kind)).recurrence;
    }
  }

  lemma {:induction false} FoundKey(rows: seq<Row>, k: Key)
    ensures FindRow(rows, k).Some? ==> FindRow(rows, k).value.key == k && FindRow(rows, k).value in rows
  {
    if rows != [] {
      assert rows == [rows[0]] + rows[1..];
      FoundKey(rows[1..], k);
    }
  }

  // ---- the history ---------------------------------------------------------------------------------

  /** What the history says of one key: which of its passes recorded it, and whether the present one has. A clear ends
      the streak, and is followed by a pass that recorded nothing. */
  datatype Passes = Passes(done: seq<bool>, now: bool)

  function PassesOf(h: seq<Op>, k: Key): Passes
    decreases |h|
  {
    if h == [] then Passes([], false)
    else
      var p := PassesOf(h[..|h| - 1], k);
      match h[|h| - 1]
      case Record(key, _, _) => if key == k then p.(now := true) else p
      case Clear(key) => if key == k then Passes(p.done + [p.now, false], false) else p
      case ClearKind(kind) => if kind == k.kind then Passes(p.done + [p.now], false) else p
  }

  function TrueCount(s: seq<bool>): nat {
    if s == [] then 0 else TrueCount(s[..|s| - 1]) + (if s[|s| - 1] then 1 else 0)
  }

  /** The unbroken run at the end. */
  function TrailingTrue(s: seq<bool>): nat {
    if s == [] || !s[|s| - 1] then 0 else TrailingTrue(s[..|s| - 1]) + 1
  }

  function Streak(p: Passes): nat {
    TrailingTrue(p.done) + (if p.now then 1 else 0)
  }

  function TotalPasses(p: Passes): nat {
    TrueCount(p.done) + (if p.now then 1 else 0)
  }

  /** The operations since the key's last clear or pass boundary. */
  function SinceBoundary(h: seq<Op>, k: Key): seq<Op>
    decreases |h|
  {
    if h == [] then []
    else
      var last := h[|h| - 1];
      if (last.Clear? && last.key == k) || (last.ClearKind? && last.kind == k.kind) then []
      else SinceBoundary(h[..|h| - 1], k) + [last]
  }

  function RecordsOf(k: Key): Op -> bool {
    (op: Op) => op.Record? && op.key == k
  }

  /** The records of the key since then, in order. */
  function Records(h: seq<Op>, k: Key): seq<Op> {
    Filter(SinceBoundary(h, k), RecordsOf(k))
  }

  /** The last note that says anything. */
  function LastNote(ops: seq<Op>): string {
    if ops == [] then ""
    else
      var op := ops[|ops| - 1];
      if op.Record? && op.note != "" then op.note else LastNote(ops[..|ops| - 1])
  }

  // ---- the row table -------------------------------------------------------------------------------

  lemma {:induction false} FindPut(rows: seq<Row>, r: Row, k: Key)
    ensures FindRow(PutRow(rows, r), k) == if r.key == k then Some(r) else FindRow(rows, k)
  {
    if rows != [] {
      FindPut(rows[1..], r, k);
      if rows[0].key == r.key {
        assert PutRow(rows, r)[1..] == rows[1..];
      } else {
        assert PutRow(rows, r)[1..] == PutRow(rows[1..], r);
      }
    }
  }

  lemma {:induction false} FindFiltered(rows: seq<Row>, keep: Row -> bool, k: Key)
    requires forall a, b :: a in rows && b in rows && a.key == b.key ==> keep(a) == keep(b)
    ensures FindRow(Filter(rows, keep), k)
         == if FindRow(rows, k).Some? && keep(FindRow(rows, k).value) then FindRow(rows, k) else None
  {
    if rows != [] {
      assert rows == [rows[0]] + rows[1..];
      FindFiltered(rows[1..], keep, k);
      FoundKey(rows[1..], k);
      FoundKey(Filter(rows[1..], keep), k);
      assert rows[0] in rows;
      if keep(rows[0]) {
        assert Filter(rows, keep)[1..] == Filter(rows[1..], keep);
      }
    }
  }

  lemma {:induction false} RecordsLast(h: seq<Op>, k: Key)
    requires h != []
    ensures var last := h[|h| - 1];
            Records(h, k) ==
              if (last.Clear? && last.key == k) || (last.ClearKind? && last.kind == k.kind) then []
              else Records(h[..|h| - 1], k) + (if last.Record? && last.key == k then [last] else [])
  {
    var last := h[|h| - 1];
    var before := SinceBoundary(h[..|h| - 1], k);
    FilterConcat(before, [last], RecordsOf(k));
    assert [last][1..] == [];
    assert Records(h[..|h| - 1], k) + [] == Records(h[..|h| - 1], k);
  }

  /** What the row of a key says of its records since the last boundary. */
  predicate RowTells(row: Option<Row>, records: seq<Op>, k: Key) {
    if records == [] then row.None?
    else
      && row.Some? && row.value.key == k
      && row.value.count == |records|
      && records[0].Record? && row.value.firstTs == records[0].ts
      && records[|records| - 1].Record? && row.value.lastTs == records[|records| - 1].ts
      && row.value.note == LastNote(records)
  }

  lemma {:induction false} TellsNext(row: Option<Row>, records: seq<Op>, k: Key, op: Op)
    requires RowTells(row, records, k) && op.Record? && op.key == k
    ensures RowTells(Some(Recorded(row, k, op.note, op.ts)), records + [op], k)
  {
    assert (records + [op])[..|records|] == records;
  }

  /**
   A row is there exactly when its key has been recorded since its last clear or pass boundary, and says how often, when
   first, when last, and the last thing that was said.
   */
  lemma {:induction false} RowsTell(h: seq<Op>, k: Key)
    ensures RowTells(FindRow(Run(h).rows, k), Records(h, k), k)
    decreases |h|
  {
    hide Records, RowTells;
    if h == [] {
      NothingRecorded(k);
    } else {
      var before, last := h[..|h| - 1], h[|h| - 1];
      var s := Run(before);
      RowsTell(before, k);
      RecordsLast(h, k);
      AppendNothing(Records(before, k));
      match last
      case Record(key, note, ts) =>
        FindPut(s.rows, Recorded(FindRow(s.rows, key), key, note, ts), k);
        RecordedKey(s.rows, key, note, ts);
        if key == k {
          TellsNext(FindRow(s.rows, k), Records(before, k), k, last);
        }
      case Clear(key) =>
        FindFiltered(s.rows, OtherThan(key), k);
        FoundKey(s.rows, k);
        NothingTold(k);
      case ClearKind(kind) =>
        FindFiltered(s.rows, OfOtherKinds(kind), k);
        FoundKey(s.rows, k);
        NothingTold(k);
    }
  }

  lemma {:induction false} RecordedKey(rows: seq<Row>, k: Key, note: string, ts: int)
    ensures Recorded(FindRow(rows, k), k, note, ts).key == k
  {
    FoundKey(rows, k);
  }

  lemma {:induction false} AppendNothing(ops: seq<Op>)
    ensures ops + [] == ops
  {
  }

  lemma {:induction false} NothingTold(k: Key)
    ensures RowTells(None, [], k)
  {
  }

  lemma {:induction false} NothingRecorded(k: Key)
    ensures RowTells(FindRow(Run([]).rows, k), Records([], k), k)
  {
  }

  // ---- recurrence ----------------------------------------------------------------------------------

  /** When the key was first recorded at all. */
  function FirstSeen(h: seq<Op>, k: Key): Option<int>
    decreases |h|
  {
    if h == [] then None
    else
      var before := FirstSeen(h[..|h| - 1], k);
      var last := h[|h| - 1];
      if before.Some? then before else if last.Record? && last.key == k then Some(last.ts) else None
  }

  /** What the recurrence of a key says of its passes. */
  predicate RecTells(rec: Option<Recurrence>, p: Passes, first: Option<int>) {
    if first.None? then rec.None? && Streak(p) == 0 && TotalPasses(p) == 0 && !p.now
    else rec == Some(Recurrence(Streak(p), TotalPasses(p), first.value, p.now))
  }

  lemma {:induction false} PassEnds(done: seq<bool>, now: bool)
    ensures TrueCount(done + [now]) == TrueCount(done) + (if now then 1 else 0)
    ensures TrailingTrue(done + [now]) == if now then TrailingTrue(done) + 1 else 0
  {
    assert (done + [now])[..|done|] == done;
  }

  /**
   The counters are what the history defines them to be: the consecutive passes are the unbroken run of passes that
   recorded the key, the total is how many ever did, the start is its first record, and the mark is this pass.
   */
  lemma {:induction false} RecurrenceTells(h: seq<Op>, k: Key)
    ensures RecTells(RecOf(Run(h), k), PassesOf(h, k), FirstSeen(h, k))
    decreases |h|
  {
    hide Step, RecTells, RecOf;
    if h == [] {
      NoPasses(k);
    } else {
      var before, last := h[..|h| - 1], h[|h| - 1];
      RecurrenceTells(before, k);
      RecTellsNext(Run(before), PassesOf(before, k), FirstSeen(before, k), k, last);
    }
  }

  /** One more operation, on both sides. */
  lemma {:induction false} RecTellsNext(s: State, p: Passes, first: Option<int>, k: Key, op: Op)
    requires RecTells(RecOf(s, k), p, first)
    ensures var next := match op
                        case Record(key, _, _) => if key == k then p.(now := true) else p
                        case Clear(key) => if key == k then Passes(p.done + [p.now, false], false) else p
                        case ClearKind(kind) => if kind == k.kind then Passes(p.done + [p.now], false) else p;
            RecTells(RecOf(Step(s, op), k), next,
                     if first.Some? then first else if op.Record? && op.key == k then Some(op.ts) else None)
  {
    hide TrueCount, TrailingTrue, FindRow, PutRow, Filter;
    match op
    case Record(key, note, ts) =>
    case Clear(key) =>
      PassEnds(p.done, p.now);
      PassEnds(p.done + [p.now], false);
      assert p.done + [p.now, false] == (p.done + [p.now]) + [false];
    case ClearKind(kind) =>
      PassEnds(p.done, p.now);
  }

  lemma {:induction false} NoPasses(k: Key)
    ensures RecTells(RecOf(Run([]), k), PassesOf([], k), FirstSeen([], k))
  {
  }

  lemma {:induction false} RunIsPart(s: seq<bool>)
    ensures TrailingTrue(s) <= TrueCount(s)
    decreases |s|
  {
    if s != [] {
      RunIsPart(s[..|s| - 1]);
    }
  }

  /** In every reachable state, for every key: the streak is no longer than the total. */
  lemma {:induction false} StreakWithinTotal(h: seq<Op>, k: Key)
    ensures RecOf(Run(h), k).Some? ==> RecOf(Run(h), k).value.consecutive <= RecOf(Run(h), k).value.total
  {
    hide Run, RecOf;
    RecurrenceTells(h, k);
    RunIsPart(PassesOf(h, k).done);
  }

  /** The row of a key and the mark of the present pass come and go together. */
  lemma {:induction false} RowIffSeen(h: seq<Op>, k: Key)
    ensures FindRow(Run(h).rows, k).Some? <==> RecOf(Run(h), k).Some? && RecOf(Run(h), k).value.seen
    decreases |h|
  {
    hide FindRow, RecOf, Run;
    RowsTell(h, k);
    RecurrenceTells(h, k);
    RecordsIffNow(h, k);
  }

  lemma {:induction false} RecordsIffNow(h: seq<Op>, k: Key)
    ensures PassesOf(h, k).now <==> Records(h, k) != []
    decreases |h|
  {
    hide Records;
    if h == [] {
      assert Records([], k) == [] by { NoRecords(k); }
    } else {
      RecordsIffNow(h[..|h| - 1], k);
      RecordsLast(h, k);
    }
  }

  lemma {:induction false} NoRecords(k: Key)
    ensures Records([], k) == []
  {
  }

  /** The boundary of one kind leaves every key of every other kind exactly as it was. */
  lemma {:induction false} OtherKindsUntouched(s: State, kind: string, k: Key)
    requires k.kind != kind
    ensures FindRow(Step(s, ClearKind(kind)).rows, k) == FindRow(s.rows, k)
    ensures RecOf(Step(s, ClearKind(kind)), k) == RecOf(s, k)
    ensures k.kind in Step(s, ClearKind(kind)).delimited <==> k.kind in s.delimited
  {
    FindFiltered(s.rows, OfOtherKinds(kind), k);
    FoundKey(s.rows, k);
  }

  // ---- what is reported ----------------------------------------------------------------------------

  datatype Report = Report(row: Row, recurrence: Option<Recurrence>)

  /** The recurrence shown: none for a kind that has never had a pass boundary. */
  function Shown(s: State, r: Row): Option<Recurrence> {
    if r.key.kind !in s.delimited then None else RecOf(s, r.key)
  }

  function TotalShown(s: State, r: Row): nat {
    if Shown(s, r).Some? then Shown(s, r).value.total else 0
  }

  /** Most recurrent first, then most failures, then most recent. */
  function WorstFirst(s: State): (Row, Row) -> bool {
    (a: Row, b: Row) =>
      || TotalShown(s, a) > TotalShown(s, b)
      || (TotalShown(s, a) == TotalShown(s, b)
          && (a.count > b.count || (a.count == b.count && a.lastTs >= b.lastTs)))
  }

  function AsRows(s: State): (r: seq<Report>)
    ensures |r| == |s.rows|
    ensures forall i :: 0 <= i < |r| ==>
              r[i] == Report(Sort(s.rows, WorstFirst(s))[i], Shown(s, Sort(s.rows, WorstFirst(s))[i]))
  {
    var sorted := Sort(s.rows, WorstFirst(s));
    seq(|sorted|, i requires 0 <= i < |sorted| => Report(sorted[i], Shown(s, sorted[i])))
  }

  predicate HasBoundary(h: seq<Op>, kind: string) {
    exists op :: op in h && op.ClearKind? && op.kind == kind
  }

  lemma {:induction false} DelimitedIff(h: seq<Op>, kind: string)
    ensures kind in Run(h).delimited <==> HasBoundary(h, kind)
    decreases |h|
  {
    if h != [] {
      var n := |h| - 1;
      assert h == h[..n] + [h[n]];
      DelimitedIff(h[..n], kind);
    }
  }

  /**
   The report lists every row once, worst first; and it shows the recurrence of a row, all of it or none, exactly when
   its kind has ever had a pass boundary.
   */
  lemma {:induction false} ReportLaws(h: seq<Op>)
    ensures var s := Run(h);
            var reports := AsRows(s);
            && multiset(Sort(s.rows, WorstFirst(s))) == multiset(s.rows)
            && SortedBy(Sort(s.rows, WorstFirst(s)), WorstFirst(s))
            && (forall i :: 0 <= i < |reports| ==>
                  (reports[i].recurrence.Some? <==> HasBoundary(h, reports[i].row.key.kind)))
  {
    hide Run, HasBoundary;
    var s := Run(h);
    var sorted := Sort(s.rows, WorstFirst(s));
    SortPermutes(s.rows, WorstFirst(s));
    SortSorts(s.rows, WorstFirst(s));
    SortMembers(s.rows, WorstFirst(s));
    forall i | 0 <= i < |AsRows(s)|
      ensures AsRows(s)[i].recurrence.Some? <==> HasBoundary(h, AsRows(s)[i].row.key.kind)
    {
      assert sorted[i] in sorted;
      FindIn(s.rows, sorted[i]);
      RowIffSeen(h, sorted[i].key);
      DelimitedIff(h, sorted[i].key.kind);
    }
  }

  lemma {:induction false} FindIn(rows: seq<Row>, r: Row)
    requires r in rows
    ensures FindRow(rows, r.key).Some?
  {
    assert rows == [rows[0]] + rows[1..];
    if rows[0].key != r.key {
      FindIn(rows[1..], r);
    }
  }
}
