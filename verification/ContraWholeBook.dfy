/**
 The planner over a whole book: exactly one outcome for each instrument, and one statement about booking
 all of its legs at once.
 */
module ContraWholeBook {
  import opened Prelude
  import opened Netting
  import opened ContraClose
  import opened ContraFlatten
  import opened ContraPlanProofs

  /** Everything one planning pass reads. */
  datatype Read = Read(positions: seq<Position>, broker: map<string, Qty>, resting: set<string>, complete: bool)

  function OpenOf(positions: seq<Position>): seq<Position> {
    Filter(positions, IsOpen)
  }

  function Decision(r: Read, instrument: string): Outcome {
    Outcomes(r.positions, r.broker, r.resting, r.complete, instrument)
  }

  /** The outcome of one instrument within the whole plan. */
  function OutcomeAt(r: Read, instrument: string): Outcome {
    if instrument in Blocked(r.positions) then Refused(CannotSayOpen)
    else if instrument in OpenInstruments(r.positions) then Decision(r, instrument)
    else Silent
  }

  function PlanPrefix(r: Read, instruments: seq<string>): ContraPlan {
    PlanOver(r.positions, r.broker, r.resting, r.complete, instruments)
  }

  function PlanOf(r: Read): ContraPlan {
    Plan(r.positions, r.broker, r.resting, r.complete)
  }

  /** Every leg the plan books, at its planned quantity. */
  function PlanLegs(plan: ContraPlan): seq<Leg> {
    PairLegs(plan.pairs) + EvictionLegs(plan.evictions) + SurplusLegs(plan.surplus)
  }

  // ---- grouping ------------------------------------------------------------------------------

  lemma {:induction false} LegsOfMembers(positions: seq<Position>, instrument: string)
    ensures forall p :: p in LegsOf(positions, instrument) <==> p in positions && IsOpen(p) && p.instrument == instrument
  {
    if positions != [] {
      var n := |positions| - 1;
      assert positions == positions[..n] + [positions[n]];
      LegsOfMembers(positions[..n], instrument);
    }
  }

  lemma {:induction false} OpenInstrumentsMembers(positions: seq<Position>)
    ensures forall i :: i in OpenInstruments(positions) <==> exists p :: p in positions && IsOpen(p) && p.instrument == i
    ensures forall a, b :: 0 <= a < b < |OpenInstruments(positions)| ==>
              OpenInstruments(positions)[a] != OpenInstruments(positions)[b]
  {
    if positions != [] {
      var n := |positions| - 1;
      assert positions == positions[..n] + [positions[n]];
      OpenInstrumentsMembers(positions[..n]);
      var p := positions[n];
      forall i
        ensures i in OpenInstruments(positions) <==> exists q :: q in positions && IsOpen(q) && q.instrument == i
      {
        if i in OpenInstruments(positions[..n]) {
          var q :| q in positions[..n] && IsOpen(q) && q.instrument == i;
          assert q in positions;
        } else if IsOpen(p) && i == p.instrument {
          assert p in positions;
        }
      }
    }
  }

  lemma {:induction false} DistinctAppend(s: seq<Position>, p: Position)
    ensures Distinct(s + [p]) <==> Distinct(s) && p.id !in PosIds(s)
  {
    if s == [] {
      assert s + [p] == [p] && [p][1..] == [];
    } else {
      assert (s + [p])[0] == s[0] && (s + [p])[1..] == s[1..] + [p];
      DistinctAppend(s[1..], p);
      assert s == [s[0]] + s[1..];
      assert PosIds(s[1..] + [p]) == PosIds(s[1..]) + {p.id};
    }
  }

  lemma {:induction false} SumOfOne(p: Position)
    ensures SumBy([p], SignedOf) == p.Signed()
  {
    assert [p][1..] == [];
  }

  lemma {:induction false} EmptyBook(instrument: string)
    ensures NetOn(Book([]), instrument) == SumBy([], SignedOf) && Distinct([])
  {
    assert Book([]) == [];
  }

  lemma {:induction false} NetOfOne(h: Holding, instrument: string)
    ensures NetOn([h], instrument) == (if h.instrument == instrument then h.qty else 0.0)
  {
    assert [h][1..] == [];
    assert NetOn([h][1..], instrument) == 0.0;
  }

  /** The legs of one instrument keep their ids distinct, and their net is the book's net on it. */
  lemma {:induction false} LegsOfBook(positions: seq<Position>, instrument: string)
    requires Distinct(OpenOf(positions))
    ensures Distinct(LegsOf(positions, instrument))
    ensures NetOn(Book(OpenOf(positions)), instrument) == SumBy(LegsOf(positions, instrument), SignedOf)
  {
    hide SumBy, Distinct;
    if positions == [] {
      EmptyBook(instrument);
    } else {
      var n := |positions| - 1;
      var init, p := positions[..n], positions[n];
      assert positions == init + [p];
      FilterConcat(init, [p], IsOpen);
      assert [p][1..] == [];
      var legs := LegsOf(init, instrument);
      if IsOpen(p) {
        assert OpenOf(positions) == OpenOf(init) + [p];
        DistinctAppend(OpenOf(init), p);
        LegsOfBook(init, instrument);
        LegsOfMembers(init, instrument);
        assert Book(OpenOf(positions)) == Book(OpenOf(init)) + [HoldingOf(p)];
        NetOnConcat(Book(OpenOf(init)), [HoldingOf(p)], instrument);
        NetOfOne(HoldingOf(p), instrument);
        if p.instrument == instrument {
          DistinctAppend(legs, p);
          SumByConcat(legs, [p], SignedOf);
          SumOfOne(p);
        }
      } else {
        assert OpenOf(positions) == OpenOf(init);
        LegsOfBook(init, instrument);
      }
    }
  }

  // ---- the plan's legs -----------------------------------------------------------------------

  lemma {:induction false} PairLegsConcat(a: seq<ContraPair>, b: seq<ContraPair>)
    ensures PairLegs(a + b) == PairLegs(a) + PairLegs(b)
  {
    if a == [] {
      assert a + b == b;
    } else {
      assert (a + b)[1..] == a[1..] + b;
      PairLegsConcat(a[1..], b);
    }
  }

  lemma {:induction false} EvictionLegsAppend(a: seq<Eviction>, e: Eviction)
    ensures EvictionLegs(a + [e]) == EvictionLegs(a) + e.legs
  {
    if a == [] {
      assert a + [e] == [e] && [e][1..] == [];
      assert EvictionLegs([e][1..]) == [];
    } else {
      assert (a + [e])[1..] == a[1..] + [e];
      EvictionLegsAppend(a[1..], e);
    }
  }

  lemma {:induction false} SurplusLegsAppend(a: seq<SurplusEviction>, s: SurplusEviction)
    ensures SurplusLegs(a + [s]) == SurplusLegs(a) + [s.leg]
  {
    if a == [] {
      assert a + [s] == [s] && [s][1..] == [];
      assert SurplusLegs([s][1..]) == [];
    } else {
      assert (a + [s])[1..] == a[1..] + [s];
      SurplusLegsAppend(a[1..], s);
    }
  }

  /** Adding one instrument's outcome adds exactly its legs to the plan's. */
  lemma {:induction false} AddLegs(plan: ContraPlan, instrument: string, o: Outcome)
    ensures forall l :: l in PlanLegs(Add(plan, instrument, o)) <==> l in PlanLegs(plan) || l in OutcomeLegs(o)
    ensures forall id :: SignedAt(PlanLegs(Add(plan, instrument, o)), id)
                      == SignedAt(PlanLegs(plan), id) + SignedAt(OutcomeLegs(o), id)
    ensures forall i :: SignedOn(PlanLegs(Add(plan, instrument, o)), i)
                     == SignedOn(PlanLegs(plan), i) + SignedOn(OutcomeLegs(o), i)
  {
    var P, E, S := PairLegs(plan.pairs), EvictionLegs(plan.evictions), SurplusLegs(plan.surplus);
    var L := OutcomeLegs(o);
    match o {
      case Paired(pairs) =>
        PairLegsConcat(plan.pairs, pairs);
        Totals(P + L, E, S);
      case Evicted(e) =>
        EvictionLegsAppend(plan.evictions, e);
        Totals(P, E + L, S);
      case SurplusEvicted(s) =>
        SurplusLegsAppend(plan.surplus, s);
        Totals(P, E, S + L);
      case Silent =>
      case Refused(_) =>
    }
    Totals(P, E, S);
    Joined(P, L);
    Joined(E, L);
    Joined(S, L);
  }

  lemma {:induction false} Totals(a: seq<Leg>, b: seq<Leg>, c: seq<Leg>)
    ensures forall id :: SignedAt(a + b + c, id) == SignedAt(a, id) + SignedAt(b, id) + SignedAt(c, id)
    ensures forall i :: SignedOn(a + b + c, i) == SignedOn(a, i) + SignedOn(b, i) + SignedOn(c, i)
  {
    Joined(a + b, c);
    Joined(a, b);
  }

  lemma {:induction false} Joined(a: seq<Leg>, b: seq<Leg>)
    ensures forall id :: SignedAt(a + b, id) == SignedAt(a, id) + SignedAt(b, id)
    ensures forall i :: SignedOn(a + b, i) == SignedOn(a, i) + SignedOn(b, i)
  {
    forall id
      ensures SignedAt(a + b, id) == SignedAt(a, id) + SignedAt(b, id)
    {
      SignedAtConcat(a, b, id);
    }
    forall i
      ensures SignedOn(a + b, i) == SignedOn(a, i) + SignedOn(b, i)
    {
      SignedOnConcat(a, b, i);
    }
  }

  // ---- one instrument inside the plan --------------------------------------------------------

  ghost predicate Ready(r: Read) {
    UniqueIds(Book(OpenOf(r.positions)))
  }

  /** The legs of an outcome stay on the instrument and name its own positions. */
  lemma {:induction false} DecisionLegs(r: Read, instrument: string)
    requires Ready(r)
    ensures Distinct(LegsOf(r.positions, instrument))
    ensures forall l :: l in OutcomeLegs(Decision(r, instrument)) ==>
              l.instrument == instrument && Aimed(Book(LegsOf(r.positions, instrument)), l)
  {
    hide PlanInstrument;
    UniqueIsDistinct(OpenOf(r.positions));
    LegsOfBook(r.positions, instrument);
    LegsOfMembers(r.positions, instrument);
    if Acts(Decision(r, instrument)) {
      InstrumentRepairs(instrument, LegsOf(r.positions, instrument), r.broker, r.resting, r.complete);
    }
  }

  /** A leg aimed at the legs of one instrument names one of them. */
  lemma {:induction false} AimNames(legs: seq<Position>, l: Leg) returns (p: Position)
    requires Aimed(Book(legs), l)
    ensures p in legs && p.id == l.positionId && p.strategy == l.strategy && p.instrument == l.instrument
  {
    p := legs[Find(Book(legs), l.positionId)];
  }

  /** Another instrument's outcome does not touch this position. */
  lemma {:induction false} ElsewhereUntouched(r: Read, instrument: string, p: Position)
    requires Ready(r) && p in r.positions && IsOpen(p) && p.instrument != instrument
    ensures forall l :: l in OutcomeLegs(Decision(r, instrument)) ==> l.positionId != p.id
    ensures SignedAt(OutcomeLegs(Decision(r, instrument)), p.id) == 0.0
    ensures SignedOn(OutcomeLegs(Decision(r, instrument)), p.instrument) == 0.0
  {
    hide PlanInstrument;
    DecisionLegs(r, instrument);
    UniqueIsDistinct(OpenOf(r.positions));
    LegsOfMembers(r.positions, instrument);
    var moves := OutcomeLegs(Decision(r, instrument));
    forall l | l in moves
      ensures l.positionId != p.id
    {
      var q := AimNames(LegsOf(r.positions, instrument), l);
      if q.id == p.id {
        SameId(OpenOf(r.positions), p, q);
      }
    }
    SignedAtAbsent(moves, p.id);
    OtherInstrument(moves, instrument, p.instrument);
  }

  lemma {:induction false} OtherInstrument(legs: seq<Leg>, instrument: string, other: string)
    requires instrument != other && (forall l :: l in legs ==> l.instrument == instrument)
    ensures SignedOn(legs, other) == 0.0
  {
    if legs != [] {
      assert legs[0] in legs && (forall l :: l in legs[1..] ==> l in legs);
      OtherInstrument(legs[1..], instrument, other);
    }
  }

  lemma {:induction false} EmptyPlan(r: Read)
    ensures PlanLegs(PlanPrefix(r, [])) == []
    ensures forall id :: SignedAt([], id) == 0.0
    ensures forall i :: SignedOn([], i) == 0.0
  {
  }

  lemma {:induction false} PrefixStep(r: Read, instruments: seq<string>)
    requires instruments != []
    ensures var n := |instruments| - 1;
            var init := PlanPrefix(r, instruments[..n]);
            PlanPrefix(r, instruments) == (if instruments[n] in Blocked(r.positions) then init
                                           else Add(init, instruments[n], Decision(r, instruments[n])))
  {
    hide PlanInstrument;
  }

  /** The legs of an instrument's own outcome, when the plan reaches it. */
  function Mine(r: Read, instruments: seq<string>, p: Position): seq<Leg> {
    if p.instrument in instruments && p.instrument !in Blocked(r.positions)
    then OutcomeLegs(Decision(r, p.instrument)) else []
  }

  /** What the plan over some instruments does to one position and to its instrument's net. */
  lemma {:induction false} PlanTotals(r: Read, instruments: seq<string>, p: Position)
    requires Ready(r) && p in r.positions && IsOpen(p)
    requires forall a, b :: 0 <= a < b < |instruments| ==> instruments[a] != instruments[b]
    ensures var moves := PlanLegs(PlanPrefix(r, instruments));
            && SignedAt(moves, p.id) == SignedAt(Mine(r, instruments, p), p.id)
            && SignedOn(moves, p.instrument) == SignedOn(Mine(r, instruments, p), p.instrument)
            && (forall l :: l in moves && l.positionId == p.id ==> l in Mine(r, instruments, p))
    decreases |instruments|
  {
    hide PlanInstrument, Decision, OutcomeLegs, SignedAt, SignedOn, PlanLegs, PlanPrefix, LegsOf, Ready;
    EmptyPlan(r);
    if instruments != [] {
      var n := |instruments| - 1;
      var i := instruments[n];
      assert instruments == instruments[..n] + [i];
      PrefixStep(r, instruments);
      PlanTotals(r, instruments[..n], p);
      if i !in Blocked(r.positions) {
        AddLegs(PlanPrefix(r, instruments[..n]), i, Decision(r, i));
        if i != p.instrument {
          ElsewhereUntouched(r, i, p);
        }
      }
    }
  }

  /** Every leg of the plan is aimed at the book it was planned on. */
  lemma {:induction false} PlanAims(r: Read, instruments: seq<string>)
    requires Ready(r)
    ensures forall l :: l in PlanLegs(PlanPrefix(r, instruments)) ==> Aimed(Book(OpenOf(r.positions)), l)
    decreases |instruments|
  {
    hide PlanInstrument;
    if instruments != [] {
      var n := |instruments| - 1;
      var i := instruments[n];
      PlanAims(r, instruments[..n]);
      if i !in Blocked(r.positions) {
        AddLegs(PlanPrefix(r, instruments[..n]), i, Decision(r, i));
        DecisionLegs(r, i);
        UniqueIsDistinct(OpenOf(r.positions));
        LegsOfMembers(r.positions, i);
        forall l | l in OutcomeLegs(Decision(r, i))
          ensures Aimed(Book(OpenOf(r.positions)), l)
        {
          var q := AimNames(LegsOf(r.positions, i), l);
          AimedAt(OpenOf(r.positions), q, l);
        }
      }
    }
  }

  // ---- the whole plan ------------------------------------------------------------------------

  /** Where booking the whole plan takes one position: at most closed, never flipped, nothing else moved. */
  predicate ClosedTowardsFlat(before: Holding, after: Holding) {
    && after == before.(qty := after.qty)
    && (before.qty >= 0.0 ==> 0.0 <= after.qty <= before.qty)
    && (before.qty <= 0.0 ==> before.qty <= after.qty <= 0.0)
  }

  /** The plan's legs on one position of the book are those of its instrument's outcome. */
  lemma {:induction false} PlanMoves(r: Read, p: Position)
    requires Ready(r) && p in r.positions && IsOpen(p)
    ensures var moves := PlanLegs(PlanOf(r));
            var mine := OutcomeLegs(OutcomeAt(r, p.instrument));
            && SignedAt(moves, p.id) == SignedAt(mine, p.id)
            && SignedOn(moves, p.instrument) == SignedOn(mine, p.instrument)
            && (forall l :: l in moves && l.positionId == p.id ==> l in mine)
  {
    hide PlanInstrument, Decision, SignedAt, SignedOn, PlanLegs, LegsOf, Ready, Sort, OpenInstruments;
    var names := OpenInstruments(r.positions);
    var order := Sort(names, StrLe);
    OpenInstrumentsMembers(r.positions);
    SortMembers(names, StrLe);
    SortedNamesDistinct(names);
    PlanTotals(r, order, p);
    assert p.instrument in names;
  }

  /** The plan closes every position of the book within what it holds. */
  lemma {:induction false} PlanWithin(r: Read, p: Position)
    requires Ready(r) && p in r.positions && IsOpen(p)
    ensures Within(PlanLegs(PlanOf(r)), HoldingOf(p))
  {
    hide PlanInstrument, Decision, PlanLegs, Ready, PlanOf;
    PlanMoves(r, p);
    if Acts(OutcomeAt(r, p.instrument)) {
      ActedRepairs(r, p.instrument);
      LegsOfMembers(r.positions, p.instrument);
      assert p in LegsOf(r.positions, p.instrument);
    }
  }

  lemma {:induction false} SortedNamesDistinct(names: seq<string>)
    requires forall a, b :: 0 <= a < b < |names| ==> names[a] != names[b]
    ensures forall a, b :: 0 <= a < b < |Sort(names, StrLe)| ==> Sort(names, StrLe)[a] != Sort(names, StrLe)[b]
  {
    SortPermutes(names, StrLe);
    SingletonCounts(names);
    var s := Sort(names, StrLe);
    forall a, b | 0 <= a < b < |s|
      ensures s[a] != s[b]
    {
      CountTwice(s, a, b);
      assert s[a] in multiset(s);
    }
  }

  lemma {:induction false} CountTwice(s: seq<string>, a: nat, b: nat)
    requires a < b < |s|
    ensures s[a] == s[b] ==> multiset(s)[s[a]] >= 2
  {
    assert s == s[..b] + [s[b]] + s[b + 1..];
    assert s[..b][a] == s[a];
    assert s[a] in multiset(s[..b]);
  }

  lemma {:induction false} SingletonCounts(names: seq<string>)
    requires forall a, b :: 0 <= a < b < |names| ==> names[a] != names[b]
    ensures forall x :: x in names ==> multiset(names)[x] == 1
  {
    if names != [] {
      assert names == [names[0]] + names[1..];
      SingletonCounts(names[1..]);
    }
  }

  /** One tolerance per open leg, and one more. */
  function SlackOf(r: Read, instrument: string): real {
    Slack(|LegsOf(r.positions, instrument)| + 1, QTY_TOLERANCE)
  }

  function NetSlackOf(r: Read, instrument: string): real {
    NetSlack(OutcomeAt(r, instrument), LegsOf(r.positions, instrument))
  }

  function ShortSlackOf(r: Read, instrument: string): real {
    ShortSlack(OutcomeAt(r, instrument), LegsOf(r.positions, instrument))
  }

  /** An instrument acted on: the venue stated its quantity, and the book nets to it with no short left. */
  predicate InstrumentLands(r: Read, after: seq<Holding>, instrument: string) {
    && (instrument in r.broker || r.complete)
    && BrokerOrZero(r.broker, instrument).Known?
    && Abs(NetOn(after, instrument) - BrokerOrZero(r.broker, instrument).v) <= NetSlackOf(r, instrument)
    && (forall h :: h in after && h.instrument == instrument ==> h.qty >= -ShortSlackOf(r, instrument))
  }

  /** Every position of the book moves by its own instrument's legs, and only towards flat. */
  lemma {:induction false} PlanApplied(r: Read)
    requires Ready(r)
    ensures var book := Book(OpenOf(r.positions));
            var after := ApplyAll(book, PlanLegs(PlanOf(r)));
            && |after| == |book|
            && (forall i :: 0 <= i < |book| ==>
                  && ClosedTowardsFlat(book[i], after[i])
                  && after[i].qty == book[i].qty + SignedAt(OutcomeLegs(OutcomeAt(r, book[i].instrument)), book[i].id))
  {
    hide PlanInstrument;
    var open := OpenOf(r.positions);
    var book := Book(open);
    var moves := PlanLegs(PlanOf(r));
    PlanAims(r, Sort(OpenInstruments(r.positions), StrLe));
    UniqueIsDistinct(open);
    forall i | 0 <= i < |book|
      ensures Within(moves, book[i])
      ensures SignedAt(moves, book[i].id) == SignedAt(OutcomeLegs(OutcomeAt(r, book[i].instrument)), book[i].id)
    {
      assert open[i] in open;
      PlanMoves(r, open[i]);
      PlanWithin(r, open[i]);
    }
    ApplyAllCloses(book, moves);
    forall i | 0 <= i < |book|
      ensures ClosedTowardsFlat(book[i], ApplyAll(book, moves)[i])
    {
      WithinSigned(moves, book[i]);
    }
  }

  lemma {:induction false} ActedRepairs(r: Read, instrument: string)
    requires Ready(r) && Acts(OutcomeAt(r, instrument))
    ensures BrokerOrZero(r.broker, instrument).Known? && (instrument in r.broker || r.complete)
    ensures Repairs(instrument, LegsOf(r.positions, instrument), OutcomeLegs(OutcomeAt(r, instrument)),
                    BrokerOrZero(r.broker, instrument).v, NetSlackOf(r, instrument), ShortSlackOf(r, instrument))
  {
    hide PlanInstrument;
    UniqueIsDistinct(OpenOf(r.positions));
    LegsOfBook(r.positions, instrument);
    LegsOfMembers(r.positions, instrument);
    InstrumentRepairs(instrument, LegsOf(r.positions, instrument), r.broker, r.resting, r.complete);
  }

  lemma {:induction false} ActedTarget(r: Read, instrument: string)
    requires Ready(r) && Acts(OutcomeAt(r, instrument))
    ensures BrokerOrZero(r.broker, instrument).Known?
    ensures Abs(SumBy(LegsOf(r.positions, instrument), SignedOf)
                + SignedOn(OutcomeLegs(OutcomeAt(r, instrument)), instrument)
                - BrokerOrZero(r.broker, instrument).v) <= NetSlackOf(r, instrument)
  {
    hide PlanInstrument, OutcomeAt, OutcomeLegs, LegsOf, SumBy, SignedOn, SignedAt, Slack, Aimed, Within, BrokerOrZero;
    ActedRepairs(r, instrument);
  }

  lemma {:induction false} ActedNet(r: Read, p: Position)
    requires Ready(r) && p in r.positions && IsOpen(p) && Acts(OutcomeAt(r, p.instrument))
    ensures BrokerOrZero(r.broker, p.instrument).Known?
    ensures Abs(NetOn(ApplyAll(Book(OpenOf(r.positions)), PlanLegs(PlanOf(r))), p.instrument)
                - BrokerOrZero(r.broker, p.instrument).v) <= NetSlackOf(r, p.instrument)
  {
    hide *;
    NetOfPlan(r, p);
    ActedTarget(r, p.instrument);
  }

  /** Booking the plan moves an instrument's net by the legs of its own outcome. */
  lemma {:induction false} NetOfPlan(r: Read, p: Position)
    requires Ready(r) && p in r.positions && IsOpen(p)
    ensures NetOn(ApplyAll(Book(OpenOf(r.positions)), PlanLegs(PlanOf(r))), p.instrument)
         == SumBy(LegsOf(r.positions, p.instrument), SignedOf)
            + SignedOn(OutcomeLegs(OutcomeAt(r, p.instrument)), p.instrument)
  {
    UniqueIsDistinct(OpenOf(r.positions));
    PlanAims(r, Sort(OpenInstruments(r.positions), StrLe));
    BookReady(r);
    hide *;
    LegsOfBook(r.positions, p.instrument);
    PlanMoves(r, p);
    NetAfterAll(Book(OpenOf(r.positions)), PlanLegs(PlanOf(r)), p.instrument);
  }

  lemma {:induction false} BookReady(r: Read)
    requires Ready(r)
    ensures UniqueIds(Book(OpenOf(r.positions)))
    ensures PlanOf(r) == PlanPrefix(r, Sort(OpenInstruments(r.positions), StrLe))
  {
    hide PlanInstrument;
  }

  lemma {:induction false} ActedShortFree(r: Read, i: nat)
    requires Ready(r) && i < |OpenOf(r.positions)|
    requires Acts(OutcomeAt(r, OpenOf(r.positions)[i].instrument))
    ensures var p := OpenOf(r.positions)[i];
            p.Signed() + SignedAt(OutcomeLegs(OutcomeAt(r, p.instrument)), p.id) >= -ShortSlackOf(r, p.instrument)
  {
    hide PlanInstrument;
    var p := OpenOf(r.positions)[i];
    assert p in OpenOf(r.positions);
    ActedRepairs(r, p.instrument);
    LegsOfMembers(r.positions, p.instrument);
    assert p in LegsOf(r.positions, p.instrument);
  }

  lemma {:induction false} ActedLands(r: Read, p: Position)
    requires Ready(r) && p in r.positions && IsOpen(p) && Acts(OutcomeAt(r, p.instrument))
    ensures InstrumentLands(r, ApplyAll(Book(OpenOf(r.positions)), PlanLegs(PlanOf(r))), p.instrument)
  {
    hide PlanInstrument, Repairs, ApplyAll, PlanLegs, PlanOf, OutcomeLegs, OutcomeAt, SignedAt, NetOn, Slack, LegsOf, Ready;
    var open := OpenOf(r.positions);
    var after := ApplyAll(Book(open), PlanLegs(PlanOf(r)));
    ActedNet(r, p);
    ActedRepairs(r, p.instrument);
    PlanApplied(r);
    forall h | h in after && h.instrument == p.instrument
      ensures h.qty >= -ShortSlackOf(r, p.instrument)
    {
      var i :| 0 <= i < |after| && after[i] == h;
      ActedShortFree(r, i);
    }
  }

  /**
   Booking every leg of the plan at once, on the book it was planned on: no position appears, none flips,
   no basis moves, nothing is realized; each instrument acted on lands on the quantity the venue stated, to within the
   tolerance, a flatten within twice that; no short is left in any lane beyond the slack of its outcome; and every other
   instrument is left as it is.
   */
  lemma {:induction false} PlanLands(r: Read)
    requires Ready(r)
    ensures var book := Book(OpenOf(r.positions));
            var after := ApplyAll(book, PlanLegs(PlanOf(r)));
            && |after| == |book|
            && (forall i :: 0 <= i < |book| ==> ClosedTowardsFlat(book[i], after[i]))
            && (forall i :: 0 <= i < |book| && !Acts(OutcomeAt(r, book[i].instrument)) ==> after[i] == book[i])
            && (forall i :: 0 <= i < |book| && Acts(OutcomeAt(r, book[i].instrument)) ==>
                  InstrumentLands(r, after, book[i].instrument))
  {
    hide PlanInstrument;
    PlanApplied(r);
    var open := OpenOf(r.positions);
    var book := Book(open);
    forall i | 0 <= i < |book| && Acts(OutcomeAt(r, book[i].instrument))
      ensures InstrumentLands(r, ApplyAll(book, PlanLegs(PlanOf(r))), book[i].instrument)
    {
      assert open[i] in open;
      ActedLands(r, open[i]);
    }
  }

  /** Closing legs move a position towards flat, never past it. */
  lemma {:induction false} WithinSigned(legs: seq<Leg>, h: Holding)
    requires Within(legs, h)
    ensures h.qty >= 0.0 ==> 0.0 <= h.qty + SignedAt(legs, h.id) <= h.qty
    ensures h.qty <= 0.0 ==> h.qty <= h.qty + SignedAt(legs, h.id) <= 0.0
  {
    if h.qty > 0.0 {
      OneSided(legs, h.id, Sell);
    } else if h.qty < 0.0 {
      OneSided(legs, h.id, Buy);
    }
  }

  // ---- one outcome per instrument ------------------------------------------------------------

  /** What the four lists of a plan say about one instrument. */
  predicate Mentions(plan: ContraPlan, instrument: string, o: Outcome) {
    && ((exists x :: x in plan.pairs && x.instrument == instrument) <==> o.Paired? && o.pairs != [])
    && ((exists x :: x in plan.evictions && x.instrument == instrument) <==> o.Evicted?)
    && ((exists x :: x in plan.surplus && x.instrument == instrument) <==> o.SurplusEvicted?)
    && ((exists x :: x in plan.refused && x.instrument == instrument) <==> o.Refused?)
  }

  lemma {:induction false} OutcomeInstrument(r: Read, instrument: string)
    ensures var o := Decision(r, instrument);
            && (o.Paired? ==> forall x :: x in o.pairs ==> x.instrument == instrument)
            && (o.Evicted? ==> o.eviction.instrument == instrument)
            && (o.SurplusEvicted? ==> o.surplus.instrument == instrument)
  {
    ActingFacts(instrument, LegsOf(r.positions, instrument), r.broker, r.resting, r.complete);
  }

  lemma {:induction false} UnreadableMembers(positions: seq<Position>)
    ensures forall i :: (exists x :: x in Unreadable(positions) && x.instrument == i) <==> i in Blocked(positions)
  {
    if positions != [] {
      var n := |positions| - 1;
      var p := positions[n];
      assert positions == positions[..n] + [p];
      UnreadableMembers(positions[..n]);
      assert Blocked(positions) == Blocked(positions[..n]) + (if p.open.None? then {p.instrument} else {});
      var u := Unreadable(positions[..n]);
      forall i
        ensures (exists x :: x in Unreadable(positions) && x.instrument == i) <==> i in Blocked(positions)
      {
        if i in Blocked(positions[..n]) {
          var x :| x in u && x.instrument == i;
          assert x in Unreadable(positions);
        } else if p.open.None? && p.instrument == i {
          assert Refusal(i, CannotSayOpen) in Unreadable(positions);
        }
      }
    }
  }

  lemma {:induction false} AddMentions(plan: ContraPlan, i: string, o: Outcome, instrument: string, before: Outcome)
    requires Mentions(plan, instrument, before)
    requires o.Paired? ==> forall x :: x in o.pairs ==> x.instrument == i
    requires o.Evicted? ==> o.eviction.instrument == i
    requires o.SurplusEvicted? ==> o.surplus.instrument == i
    requires i == instrument ==> before == Silent
    ensures Mentions(Add(plan, i, o), instrument, if i == instrument then o else before)
  {
    match o {
      case Paired(pairs) =>
        assert forall x :: x in plan.pairs + pairs <==> x in plan.pairs || x in pairs;
        if pairs != [] {
          assert pairs[0] in pairs;
        }
      case Evicted(e) =>
        assert forall x :: x in plan.evictions + [e] <==> x in plan.evictions || x == e;
      case SurplusEvicted(s) =>
        assert forall x :: x in plan.surplus + [s] <==> x in plan.surplus || x == s;
      case Refused(reason) =>
        var f := Refusal(i, reason);
        assert forall x :: x in plan.refused + [f] <==> x in plan.refused || x == f;
      case Silent =>
    }
  }

  lemma {:induction false} PrefixMentions(r: Read, instruments: seq<string>, instrument: string)
    requires forall a, b :: 0 <= a < b < |instruments| ==> instruments[a] != instruments[b]
    ensures Mentions(PlanPrefix(r, instruments), instrument,
                     if instrument in Blocked(r.positions) then Refused(CannotSayOpen)
                     else if instrument in instruments then Decision(r, instrument) else Silent)
    decreases |instruments|
  {
    hide PlanInstrument;
    if instruments == [] {
      UnreadableMembers(r.positions);
    } else {
      var n := |instruments| - 1;
      var i := instruments[n];
      assert instruments == instruments[..n] + [i];
      PrefixMentions(r, instruments[..n], instrument);
      if i !in Blocked(r.positions) {
        OutcomeInstrument(r, i);
        assert i !in instruments[..n];
        AddMentions(PlanPrefix(r, instruments[..n]), i, Decision(r, i), instrument,
                    if instrument in Blocked(r.positions) then Refused(CannotSayOpen)
                    else if instrument in instruments[..n] then Decision(r, instrument) else Silent);
      }
    }
  }

  /** Each instrument has exactly one outcome, and the plan mentions it under that outcome's kind alone. */
  lemma {:induction false} OneOutcomeEach(r: Read, instrument: string)
    ensures Mentions(PlanOf(r), instrument, OutcomeAt(r, instrument))
  {
    var names := OpenInstruments(r.positions);
    OpenInstrumentsMembers(r.positions);
    SortMembers(names, StrLe);
    SortedNamesDistinct(names);
    PrefixMentions(r, Sort(names, StrLe), instrument);
  }
}
