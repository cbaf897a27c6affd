/**
 The pure fold of transfers over a book (backend/api/budget.py:158-202): balances and the fills already applied,
 kept together. Delivery order and repetition do not matter; only the set of fills does.
 */
module TransferFold {
  import opened Prelude
  import opened Budget
  import opened BudgetStore
  import opened SleeveRuns

  datatype Book = Book(sleeves: map<string, Sleeve>, applied: set<string>)

  datatype BookError = NoDonor(id: string)

  /** The sleeve as it stands, or the empty one a first credit opens. */
  function Standing(book: Book, id: string): Sleeve {
    if id in book.sleeves then book.sleeves[id] else Sleeve(id, Finite(0.0), 0.0)
  }

  function ApplyTransfer(book: Book, t: Transfer): Result<Book, BookError> {
    if t.fillId != "" && t.fillId in book.applied then Ok(book)
    else if t.from !in book.sleeves then Err(NoDonor(t.from))
    else
      var donor := book.sleeves[t.from];
      var debited := book.(sleeves := book.sleeves[t.from := donor.(actual := donor.actual - t.amount)]);
      var target := Standing(debited, t.to);
      Ok(Book(debited.sleeves[t.to := target.(actual := target.actual + t.amount)],
              if t.fillId != "" then book.applied + {t.fillId} else book.applied))
  }

  function ApplyAll(book: Book, ts: seq<Transfer>): Result<Book, BookError>
    decreases |ts|
  {
    if ts == [] then Ok(book)
    else
      var next := ApplyTransfer(book, ts[0]);
      if next.Err? then next else ApplyAll(next.value, ts[1..])
  }

  // ---- the balances a set of transfers leads to ------------------------------------------------

  /** The transfers not applied yet, as a set. */
  function Fresh(ts: seq<Transfer>, applied: set<string>): set<Transfer> {
    set t | t in ts && t.fillId !in applied
  }

  function Ids(ts: set<Transfer>): set<string> {
    set t | t in ts :: t.fillId
  }

  function Recipients(ts: set<Transfer>): set<string> {
    set t | t in ts :: t.to
  }

  /** Every transfer of the set at once. */
  ghost function Together(book: Book, ts: set<Transfer>): Book {
    Book(map id | id in book.sleeves.Keys + Recipients(ts) ::
           Standing(book, id).(actual := Standing(book, id).actual + SumSet(ts, SignedFor(id))),
         book.applied + Ids(ts))
  }

  /** Every fill is identified, and one id names one transfer. */
  predicate Identified(ts: seq<Transfer>) {
    && (forall t :: t in ts ==> t.fillId != "")
    && (forall a, b :: a in ts && b in ts && a.fillId == b.fillId ==> a == b)
  }

  predicate DonorsKnown(book: Book, ts: seq<Transfer>) {
    forall t :: t in ts ==> t.from in book.sleeves
  }

  lemma {:induction false} SumOfOne(t: Transfer, id: string)
    ensures SumSet({t}, SignedFor(id)) == (if t.to == id then t.amount else 0.0) - (if t.from == id then t.amount else 0.0)
  {
    SumSetWithout({t}, t, SignedFor(id));
    assert {t} - {t} == {};
  }

  lemma {:induction false} OneIsTogether(book: Book, t: Transfer)
    requires t.fillId != "" && t.fillId !in book.applied && t.from in book.sleeves
    ensures ApplyTransfer(book, t) == Ok(Together(book, {t}))
  {
    var b := ApplyTransfer(book, t).value;
    var w := Together(book, {t});
    assert Recipients({t}) == {t.to} && Ids({t}) == {t.fillId};
    forall id | id in w.sleeves.Keys
      ensures b.sleeves[id] == w.sleeves[id]
    {
      SumOfOne(t, id);
    }
    assert b.sleeves.Keys == w.sleeves.Keys;
    assert b.sleeves == w.sleeves;
  }

  /** How one transfer leaves the sleeve of any id, whether or not it has one. */
  lemma {:induction false} StandingAfterOne(book: Book, t: Transfer, id: string)
    requires t.from in book.sleeves
    ensures Standing(Together(book, {t}), id)
         == Standing(book, id).(actual := Standing(book, id).actual + SignedFor(id)(t))
  {
    SumOfOne(t, id);
    assert Recipients({t}) == {t.to};
  }

  lemma {:induction false} SumWithOne(t: Transfer, ts: set<Transfer>, id: string)
    requires t !in ts
    ensures SumSet({t} + ts, SignedFor(id)) == SignedFor(id)(t) + SumSet(ts, SignedFor(id))
  {
    SumSetWithout({t} + ts, t, SignedFor(id));
    assert {t} + ts - {t} == ts;
  }

  lemma {:induction false} TogetherKeys(book: Book, t: Transfer, ts: set<Transfer>)
    ensures Together(Together(book, {t}), ts).sleeves.Keys == Together(book, {t} + ts).sleeves.Keys
    ensures Together(Together(book, {t}), ts).applied == Together(book, {t} + ts).applied
  {
    hide Standing, SumSet;
    assert Recipients({t} + ts) == Recipients({t}) + Recipients(ts);
    assert Ids({t} + ts) == Ids({t}) + Ids(ts);
  }

  lemma {:induction false} TogetherAt(book: Book, ts: set<Transfer>, id: string)
    requires id in Together(book, ts).sleeves
    ensures Together(book, ts).sleeves[id]
         == Standing(book, id).(actual := Standing(book, id).actual + SumSet(ts, SignedFor(id)))
  {
    hide Standing, SumSet, Recipients, Ids;
  }

  lemma {:induction false} TogetherThenMore(book: Book, t: Transfer, ts: set<Transfer>)
    requires t !in ts && t.from in book.sleeves
    ensures Together(Together(book, {t}), ts) == Together(book, {t} + ts)
  {
    hide Together, Standing, SumSet, SignedFor;
    var one := Together(book, {t});
    var a, b := Together(one, ts), Together(book, {t} + ts);
    TogetherKeys(book, t, ts);
    forall id | id in b.sleeves
      ensures a.sleeves[id] == b.sleeves[id]
    {
      TogetherAt(one, ts, id);
      TogetherAt(book, {t} + ts, id);
      StandingAfterOne(book, t, id);
      SumWithOne(t, ts, id);
    }
    assert a.sleeves == b.sleeves;
  }

  /** A sequence of deliveries leads to where its unapplied transfers lead together. */
  lemma {:induction false} FoldIsTogether(book: Book, ts: seq<Transfer>)
    requires Identified(ts) && DonorsKnown(book, ts)
    ensures ApplyAll(book, ts) == Ok(Together(book, Fresh(ts, book.applied)))
    decreases |ts|
  {
    hide Together, SumSet, Standing, ApplyTransfer;
    if ts == [] {
      NothingTogether(book);
      assert Fresh(ts, book.applied) == {};
    } else {
      assert ts == [ts[0]] + ts[1..];
      var t, rest := ts[0], ts[1..];
      assert t in ts && (forall x :: x in rest ==> x in ts);
      if t.fillId in book.applied {
        AppliedIsSkipped(book, t);
        FoldIsTogether(book, rest);
        assert Fresh(ts, book.applied) == Fresh(rest, book.applied);
      } else {
        OneIsTogether(book, t);
        TogetherKeeps(book, t);
        var next := Together(book, {t});
        FoldIsTogether(next, rest);
        FreshAfter(t, rest, book.applied);
        TogetherThenMore(book, t, Fresh(rest, next.applied));
      }
    }
  }

  lemma {:induction false} NothingTogether(book: Book)
    ensures Together(book, {}) == book
  {
    assert Recipients({}) == {} && Ids({}) == {};
    assert Together(book, {}).sleeves == book.sleeves;
  }

  lemma {:induction false} AppliedIsSkipped(book: Book, t: Transfer)
    requires t.fillId != "" && t.fillId in book.applied
    ensures ApplyTransfer(book, t) == Ok(book)
  {
  }

  lemma {:induction false} TogetherKeeps(book: Book, t: Transfer)
    ensures Together(book, {t}).applied == book.applied + {t.fillId}
    ensures forall id :: id in book.sleeves ==> id in Together(book, {t}).sleeves
  {
    assert Ids({t}) == {t.fillId};
  }

  lemma {:induction false} FreshAfter(t: Transfer, rest: seq<Transfer>, applied: set<string>)
    requires Identified([t] + rest) && t.fillId !in applied
    ensures t !in Fresh(rest, applied + {t.fillId})
    ensures Fresh([t] + rest, applied) == {t} + Fresh(rest, applied + {t.fillId})
  {
    assert ([t] + rest)[0] == t;
    forall x | x in rest
      ensures x in [t] + rest
    {
    }
  }

  /**
   The fold depends only on the set of fills: two deliveries of the same transfers, in any order and with any
   repetition, lead to the same book.
   */
  lemma {:induction false} FoldIgnoresOrderAndRepetition(book: Book, a: seq<Transfer>, b: seq<Transfer>)
    requires Identified(a) && DonorsKnown(book, a)
    requires forall t :: t in a <==> t in b
    ensures ApplyAll(book, a).Ok? && ApplyAll(book, a) == ApplyAll(book, b)
  {
    FoldIsTogether(book, a);
    FoldIsTogether(book, b);
    assert Fresh(a, book.applied) == Fresh(b, book.applied);
  }

  /** An unidentified transfer has no such protection: delivered twice, it moves its amount twice. */
  lemma {:induction false} UnidentifiedMovesTwice(book: Book, t: Transfer)
    requires t.fillId == "" && t.from in book.sleeves && t.from != t.to
    ensures ApplyAll(book, [t, t]).Ok?
    ensures Standing(ApplyAll(book, [t, t]).value, t.from).actual == book.sleeves[t.from].actual - 2.0 * t.amount
  {
    var once := ApplyTransfer(book, t).value;
    assert [t, t][1..] == [t] && [t][1..] == [];
    assert ApplyAll(book, [t, t]) == ApplyAll(once, [t]) == ApplyTransfer(once, t);
  }

  // ---- the conservation law --------------------------------------------------------------------

  function Actuals(book: Book): map<string, real> {
    map id | id in book.sleeves :: book.sleeves[id].actual
  }

  /** `allocated`: invariant under any sequence of transfers. */
  lemma {:induction false} AllocatedIsInvariant(book: Book, ts: seq<Transfer>)
    requires ApplyAll(book, ts).Ok?
    ensures Capital(Actuals(ApplyAll(book, ts).value)) == Capital(Actuals(book))
    decreases |ts|
  {
    if ts != [] {
      var next := ApplyTransfer(book, ts[0]).value;
      TransferConserves(book, ts[0]);
      hide Actuals, Capital, ApplyTransfer;
      AllocatedIsInvariant(next, ts[1..]);
    }
  }

  lemma {:induction false} TransferConserves(book: Book, t: Transfer)
    requires ApplyTransfer(book, t).Ok?
    ensures Capital(Actuals(ApplyTransfer(book, t).value)) == Capital(Actuals(book))
  {
    hide Capital;
    var after := ApplyTransfer(book, t).value;
    if after != book {
      MoveLaws(Actuals(book), t);
      assert Actuals(after) == Move(Actuals(book), t);
    }
  }
}
