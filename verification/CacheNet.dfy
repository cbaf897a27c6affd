/**
 The one hard anchor of a repair: a plan that refuses nothing and leaves nothing unexplained is to leave every touched instrument
 netting to the venue's quantity. When exactly it does, and what becomes of each position.
 */
module CacheNet {
  import opened Prelude
  import opened CacheReplay
  import opened CacheOrders
  import opened CachePlan

  /** What one rewrite does to the position lists. */
  function Put(positions: map<string, seq<Fill>>, rw: Rewrite): map<string, seq<Fill>> {
    if rw.same then positions
    else if rw.events != [] then positions[rw.pid := rw.events]
    else positions - {rw.pid}
  }

  function PutAll(positions: map<string, seq<Fill>>, rewrites: seq<Rewrite>): map<string, seq<Fill>>
    decreases |rewrites|
  {
    if rewrites == [] then positions
    else Put(PutAll(positions, rewrites[..|rewrites| - 1]), rewrites[|rewrites| - 1])
  }

  function OnInstrument(positions: map<string, seq<Fill>>, instrument: string): string -> real {
    (pid: string) => if pid in positions && Belongs(pid, instrument) then NetOf(Current(positions[pid])) else 0.0
  }

  /** The signed quantity of every current instance on the instrument; a closed one adds nothing. */
  ghost function InstrumentNet(positions: map<string, seq<Fill>>, instrument: string): real {
    SumSet(positions.Keys, OnInstrument(positions, instrument))
  }

  /** A rewrite marked the same names the list that is already there. */
  ghost predicate Honest(positions: map<string, seq<Fill>>, rw: Rewrite) {
    rw.same ==> rw.events != [] && rw.pid in positions && positions[rw.pid] == rw.events
  }

  /** The list of a position is this; none, when it is empty. */
  predicate Holds(positions: map<string, seq<Fill>>, pid: string, events: seq<Fill>) {
    if events != [] then pid in positions && positions[pid] == events else pid !in positions
  }

  predicate SameAt(a: map<string, seq<Fill>>, b: map<string, seq<Fill>>, pid: string) {
    (pid in a <==> pid in b) && (pid in a && pid in b ==> a[pid] == b[pid])
  }

  lemma {:induction false} PutAllConcat(positions: map<string, seq<Fill>>, a: seq<Rewrite>, b: seq<Rewrite>)
    ensures PutAll(positions, a + b) == PutAll(PutAll(positions, a), b)
    decreases |b|
  {
    hide Put;
    if b == [] {
      assert a + b == a;
    } else {
      assert (a + b)[..|a + b| - 1] == a + b[..|b| - 1];
      PutAllConcat(positions, a, b[..|b| - 1]);
    }
  }

  // ---- what the decisions on one instrument come to ----------------------------------------------

  /** What is left open of each position once its instrument is decided. */
  function LeftOn(image: Image, fired: map<Lane, int>, instrument: string): string -> real
    requires WellFormed(image)
  {
    (pid: string) =>
      if pid in image.positions && Belongs(pid, instrument) then NetLeft(Decide(image, fired, instrument, pid)) else 0.0
  }

  predicate Distinct(list: seq<string>) {
    forall i, j :: 0 <= i < j < |list| ==> list[i] != list[j]
  }

  lemma {:induction false} DecideNamesPid(image: Image, fired: map<Lane, int>, instrument: string, pid: string)
    requires WellFormed(image) && pid in image.positions && Belongs(pid, instrument)
    ensures var d := Decide(image, fired, instrument, pid);
            && (d.Rewritten? ==>
                  && d.rewrite.pid == pid && Honest(image.positions, d.rewrite)
                  && d.rewrite.isOpen == (d.rewrite.events != [])
                  && (d.rewrite.events != [] ==> IsOpen(d.rewrite.events)))
            && (d.LeftClosed? ==> NetOf(Current(image.positions[pid])) == 0.0)
  {
    var raw := image.positions[pid];
    var lane := Lane(instrument, StrategyOf(pid, instrument));
    if lane in fired {
      CurrentIsSuffix(LaneFillsAfter(image, lane, fired[lane]));
    }
    assert NetOf([]) == 0.0;
  }

  lemma {:induction false} DecideAllNet(image: Image, fired: map<Lane, int>, instrument: string, pids: seq<string>)
    requires WellFormed(image) && forall p :: p in pids ==> p in image.positions
    ensures DecideAll(image, fired, instrument, pids).2 == SumBy(pids, LeftOn(image, fired, instrument))
    decreases |pids|
  {
    hide Decide, WellFormed;
    if pids != [] {
      var n := |pids| - 1;
      var p := pids[n];
      assert p in pids && pids == pids[..n] + [p];
      DecideAllNet(image, fired, instrument, pids[..n]);
      var f := LeftOn(image, fired, instrument);
      SumByConcat(pids[..n], [p], f);
      assert SumBy([p], f) == f(p) + SumBy([p][1..], f);
    }
  }

  // ---- all the instruments -----------------------------------------------------------------------

  ghost predicate NetMatches(image: Image, fired: map<Lane, int>, venue: Venue, instrument: string)
    requires WellFormed(image)
  {
    SumBy(SortedStrings(image.positions.Keys), LeftOn(image, fired, instrument)) == VenueNet(venue, instrument)
  }

  lemma {:induction false} DecidedNet(image: Image, fired: map<Lane, int>, venue: Venue, i: string)
    requires WellFormed(image)
    ensures DecideAll(image, fired, i, SortedStrings(image.positions.Keys)).2 == VenueNet(venue, i)
       <==> NetMatches(image, fired, venue, i)
  {
    hide DecideAll, WellFormed, VenueNet;
    DecideAllNet(image, fired, i, SortedStrings(image.positions.Keys));
  }

  lemma {:induction false} NotEmptied(m: map<string, (real, real)>, k: string, v: (real, real))
    ensures m[k := v] != map[]
  {
    assert k in m[k := v];
  }

  /** Without a refusal, what each instrument's own decisions leave open adds up to the venue. */
  lemma {:induction false} UnrefusedMatches(image: Image, fired: map<Lane, int>, venue: Venue, instruments: seq<string>)
    requires WellFormed(image) && PlanInstruments(image, fired, venue, instruments).Ok?
    requires PlanInstruments(image, fired, venue, instruments).value.refusals == map[]
    ensures forall i :: i in instruments ==> NetMatches(image, fired, venue, i)
    decreases |instruments|
  {
    hide WellFormed, DecideAll, NetMatches, VenueNet, SymbolOf, SortedStrings;
    if instruments != [] {
      var n := |instruments| - 1;
      var i, before := instruments[n], instruments[..n];
      assert instruments == before + [i];
      var d := DecideAll(image, fired, i, SortedStrings(image.positions.Keys));
      NotEmptied(PlanInstruments(image, fired, venue, before).value.refusals, SymbolOf(i), (d.2, VenueNet(venue, i)));
      DecidedNet(image, fired, venue, i);
      UnrefusedMatches(image, fired, venue, before);
    }
  }

  lemma {:induction false} DecideAllExplained(image: Image, fired: map<Lane, int>, i: string, pids: seq<string>, p: string)
    requires WellFormed(image) && (forall q :: q in pids ==> q in image.positions) && p in pids && Belongs(p, i)
    requires DecideAll(image, fired, i, pids).1 == []
    ensures !Decide(image, fired, i, p).Unexplained?
    decreases |pids|
  {
    hide WellFormed, Decide, Belongs;
    var n := |pids| - 1;
    assert pids == pids[..n] + [pids[n]] && pids[n] in pids;
    if p in pids[..n] {
      DecideAllExplained(image, fired, i, pids[..n], p);
    }
  }

  /** With nothing unexplained, no touched instrument's rules leave a position of it unexplained. */
  lemma {:induction false} PlanExplained(image: Image, fired: map<Lane, int>, venue: Venue, instruments: seq<string>,
                                         i: string, p: string)
    requires WellFormed(image) && PlanInstruments(image, fired, venue, instruments).Ok?
    requires PlanInstruments(image, fired, venue, instruments).value.unexplained == []
    requires i in instruments && p in image.positions && Belongs(p, i)
    ensures !Decide(image, fired, i, p).Unexplained?
    decreases |instruments|
  {
    hide WellFormed, DecideAll, VenueNet, SymbolOf, Decide, Belongs;
    var n := |instruments| - 1;
    assert instruments == instruments[..n] + [instruments[n]];
    if i in instruments[..n] {
      PlanExplained(image, fired, venue, instruments[..n], i, p);
    } else {
      DecideAllExplained(image, fired, i, SortedStrings(image.positions.Keys), p);
    }
  }

  // ---- how each position ends --------------------------------------------------------------------

  /** What a plan does to one position: nothing, or gives it a list, which is none when it is empty. */
  datatype End = AsItWas | Becomes(mover: string, events: seq<Fill>)

  /** The rules of this instrument give the position another list. */
  predicate Moves(image: Image, fired: map<Lane, int>, instrument: string, p: string)
    requires WellFormed(image) && p in image.positions
  {
    && Belongs(p, instrument)
    && Decide(image, fired, instrument, p).Rewritten?
    && !Decide(image, fired, instrument, p).rewrite.same
  }

  /** The last of the instruments, in order, whose rules move the position decides how it ends. */
  function EndOf(image: Image, fired: map<Lane, int>, instruments: seq<string>, p: string): End
    requires WellFormed(image) && p in image.positions
    decreases |instruments|
  {
    if instruments == [] then AsItWas
    else
      var n := |instruments| - 1;
      if Moves(image, fired, instruments[n], p)
      then Becomes(instruments[n], Decide(image, fired, instruments[n], p).rewrite.events)
      else EndOf(image, fired, instruments[..n], p)
  }

  predicate EndsAs(before: map<string, seq<Fill>>, after: map<string, seq<Fill>>, p: string, e: End) {
    if e.AsItWas? then SameAt(before, after, p) else Holds(after, p, e.events)
  }

  /** What one instrument's rewrites do to one position. */
  lemma {:induction false} DecidedPut(image: Image, fired: map<Lane, int>, i: string, pids: seq<string>,
                                      positions: map<string, seq<Fill>>, p: string)
    requires WellFormed(image) && (forall q :: q in pids ==> q in image.positions) && p in image.positions
    ensures var after := PutAll(positions, DecideAll(image, fired, i, pids).0);
            if p in pids && Moves(image, fired, i, p) then Holds(after, p, Decide(image, fired, i, p).rewrite.events)
            else SameAt(positions, after, p)
    decreases |pids|
  {
    hide WellFormed, Decide, Belongs, DecideAll, Moves, PutAll;
    if pids == [] {
      NothingPut(image, fired, i, positions);
    } else {
      var n := |pids| - 1;
      assert pids == pids[..n] + [pids[n]] && pids[n] in pids;
      DecidedPut(image, fired, i, pids[..n], positions, p);
      DecidedPutStep(image, fired, i, pids, positions, p);
    }
  }

  lemma {:induction false} NothingPut(image: Image, fired: map<Lane, int>, i: string, positions: map<string, seq<Fill>>)
    requires WellFormed(image)
    ensures PutAll(positions, DecideAll(image, fired, i, []).0) == positions
  {
  }

  /** The rewrite of one more position, if it has one, is to it alone. */
  lemma {:induction false} DecidedPutStep(image: Image, fired: map<Lane, int>, i: string, pids: seq<string>,
                                          positions: map<string, seq<Fill>>, p: string)
    requires WellFormed(image) && (forall q :: q in pids ==> q in image.positions) && p in image.positions && pids != []
    ensures var q := pids[|pids| - 1];
            var init := PutAll(positions, DecideAll(image, fired, i, pids[..|pids| - 1]).0);
            var after := PutAll(positions, DecideAll(image, fired, i, pids).0);
            && q in image.positions
            && if p == q && Moves(image, fired, i, p) then Holds(after, p, Decide(image, fired, i, p).rewrite.events)
               else SameAt(init, after, p)
  {
    hide WellFormed, Decide, Belongs, DecideAll, PutAll, Put, SameAt, Holds;
    var q := pids[|pids| - 1];
    assert q in pids;
    var init, all := DecideAll(image, fired, i, pids[..|pids| - 1]).0, DecideAll(image, fired, i, pids).0;
    DecidedOneMore(image, fired, i, pids);
    if Belongs(q, i) && Decide(image, fired, i, q).Rewritten? {
      var rw := Decide(image, fired, i, q).rewrite;
      DecideNamesPid(image, fired, i, q);
      PutOneMore(positions, init, rw, p);
    } else {
      SameAsItself(PutAll(positions, init), p);
    }
  }

  lemma {:induction false} SameAsItself(positions: map<string, seq<Fill>>, p: string)
    ensures SameAt(positions, positions, p)
  {
  }

  lemma {:induction false} DecidedOneMore(image: Image, fired: map<Lane, int>, i: string, pids: seq<string>)
    requires WellFormed(image) && (forall q :: q in pids ==> q in image.positions) && pids != []
    ensures var q := pids[|pids| - 1];
            var init := DecideAll(image, fired, i, pids[..|pids| - 1]).0;
            && q in image.positions
            && DecideAll(image, fired, i, pids).0 ==
                 if Belongs(q, i) && Decide(image, fired, i, q).Rewritten? then init + [Decide(image, fired, i, q).rewrite]
                 else init
  {
    hide WellFormed, Decide, Belongs;
    assert pids[|pids| - 1] in pids;
  }

  lemma {:induction false} PutOneMore(positions: map<string, seq<Fill>>, init: seq<Rewrite>, rw: Rewrite, p: string)
    ensures var before, after := PutAll(positions, init), PutAll(positions, init + [rw]);
            if p == rw.pid && !rw.same then Holds(after, p, rw.events) else SameAt(before, after, p)
  {
    assert (init + [rw])[..|init|] == init;
  }

  /** Once the rewrites are in, every position has ended as the last instrument to move it says. */
  lemma {:induction false} PlanEnds(image: Image, fired: map<Lane, int>, venue: Venue, instruments: seq<string>, p: string)
    requires WellFormed(image) && PlanInstruments(image, fired, venue, instruments).Ok? && p in image.positions
    ensures EndsAs(image.positions, PutAll(image.positions, PlanInstruments(image, fired, venue, instruments).value.rewrites), p,
                   EndOf(image, fired, instruments, p))
    decreases |instruments|
  {
    hide WellFormed, Decide, Belongs, DecideAll, VenueNet, SymbolOf, Moves;
    if instruments != [] {
      var n := |instruments| - 1;
      var i, before := instruments[n], instruments[..n];
      var pids := SortedStrings(image.positions.Keys);
      PlanEnds(image, fired, venue, before, p);
      var earlier := PlanInstruments(image, fired, venue, before).value.rewrites;
      DecidedPut(image, fired, i, pids, PutAll(image.positions, earlier), p);
      hide PutAll;
      PutAllConcat(image.positions, earlier, DecideAll(image, fired, i, pids).0);
      assert p in pids;
    }
  }

  lemma {:induction false} DecideAllPids(image: Image, fired: map<Lane, int>, i: string, pids: seq<string>)
    requires WellFormed(image) && forall q :: q in pids ==> q in image.positions
    ensures forall rw :: rw in DecideAll(image, fired, i, pids).0 ==> rw.pid in image.positions
    decreases |pids|
  {
    hide WellFormed, Decide, Belongs;
    if pids != [] {
      var n := |pids| - 1;
      assert pids[n] in pids;
      DecideAllPids(image, fired, i, pids[..n]);
      if Belongs(pids[n], i) {
        DecideNamesPid(image, fired, i, pids[n]);
      }
    }
  }

  lemma {:induction false} PlanPids(image: Image, fired: map<Lane, int>, venue: Venue, instruments: seq<string>)
    requires WellFormed(image) && PlanInstruments(image, fired, venue, instruments).Ok?
    ensures forall rw :: rw in PlanInstruments(image, fired, venue, instruments).value.rewrites ==> rw.pid in image.positions
    decreases |instruments|
  {
    hide WellFormed, DecideAll, VenueNet, SymbolOf;
    if instruments != [] {
      var n := |instruments| - 1;
      PlanPids(image, fired, venue, instruments[..n]);
      DecideAllPids(image, fired, instruments[n], SortedStrings(image.positions.Keys));
    }
  }

  lemma {:induction false} PutAllKeys(positions: map<string, seq<Fill>>, rewrites: seq<Rewrite>)
    requires forall rw :: rw in rewrites ==> rw.pid in positions
    ensures PutAll(positions, rewrites).Keys <= positions.Keys
    decreases |rewrites|
  {
    if rewrites != [] {
      var n := |rewrites| - 1;
      assert rewrites == rewrites[..n] + [rewrites[n]];
      PutAllKeys(positions, rewrites[..n]);
    }
  }

  // ---- the theorem -------------------------------------------------------------------------------

  /** What is open of each position of the instrument once the whole plan is in. */
  function EndNet(image: Image, fired: map<Lane, int>, instruments: seq<string>): string -> real
    requires WellFormed(image)
  {
    (pid: string) =>
      if pid in image.positions then
        match EndOf(image, fired, instruments, pid)
        case AsItWas => NetOf(Current(image.positions[pid]))
        case Becomes(_, events) => NetOf(Current(events))
      else 0.0
  }

  /** The position reads as this instrument's and as another's of them. */
  predicate IsShared(instruments: seq<string>, instrument: string, p: string) {
    Belongs(p, instrument) && exists j :: j in instruments && j != instrument && Belongs(p, j)
  }

  function SharedBy(image: Image, instruments: seq<string>, instrument: string): seq<string> {
    Filter(SortedStrings(image.positions.Keys), (p: string) => IsShared(instruments, instrument, p))
  }

  /** Over the positions it shares with the others, what is open in the end is in sum what its own rules left open. */
  ghost predicate SharedEndAsOwn(image: Image, fired: map<Lane, int>, instruments: seq<string>, instrument: string)
    requires WellFormed(image)
  {
    SumBy(SharedBy(image, instruments, instrument), EndNet(image, fired, instruments))
    == SumBy(SharedBy(image, instruments, instrument), LeftOn(image, fired, instrument))
  }

  lemma {:induction false} EndIsOwn(image: Image, fired: map<Lane, int>, instruments: seq<string>, i: string, p: string)
    requires WellFormed(image) && p in image.positions && Belongs(p, i)
    requires forall j :: j in instruments && Belongs(p, j) ==> j == i
    ensures EndOf(image, fired, instruments, p) ==
              (if i in instruments && Moves(image, fired, i, p) then Becomes(i, Decide(image, fired, i, p).rewrite.events)
               else AsItWas)
    decreases |instruments|
  {
    hide WellFormed, Decide, Belongs;
    if instruments != [] {
      var n := |instruments| - 1;
      assert instruments == instruments[..n] + [instruments[n]] && instruments[n] in instruments;
      EndIsOwn(image, fired, instruments[..n], i, p);
    }
  }

  /** A position no other touched instrument reads ends with what this one's rules leave open of it. */
  lemma {:induction false} OwnEndsAsLeft(image: Image, fired: map<Lane, int>, instruments: seq<string>, i: string, p: string)
    requires WellFormed(image) && p in image.positions && Belongs(p, i) && i in instruments && !IsShared(instruments, i, p)
    requires !Decide(image, fired, i, p).Unexplained?
    ensures EndNet(image, fired, instruments)(p) == LeftOn(image, fired, i)(p)
  {
    hide WellFormed, Decide, Belongs;
    EndIsOwn(image, fired, instruments, i, p);
    DecideNamesPid(image, fired, i, p);
  }

  lemma {:induction false} EndedNet(image: Image, fired: map<Lane, int>, instruments: seq<string>,
                                    after: map<string, seq<Fill>>, i: string, p: string)
    requires WellFormed(image) && p in image.positions
    requires EndsAs(image.positions, after, p, EndOf(image, fired, instruments, p))
    ensures OnInstrument(after, i)(p) == if Belongs(p, i) then EndNet(image, fired, instruments)(p) else 0.0
  {
    hide WellFormed, Decide, Belongs, EndOf;
    assert NetOf(Current([])) == 0.0;
  }

  lemma {:induction false} AbsentAddsNothing(positions: map<string, seq<Fill>>, i: string, keys: set<string>)
    ensures forall p :: p in keys && p !in positions ==> OnInstrument(positions, i)(p) == 0.0
  {
  }

  /** Two sums over a list differ by what they differ on the elements kept. */
  lemma {:induction false} SumsDiffer(list: seq<string>, keep: string -> bool, f: string -> real, g: string -> real)
    requires forall x :: x in list && !keep(x) ==> f(x) == g(x)
    ensures SumBy(list, f) - SumBy(list, g) == SumBy(Filter(list, keep), f) - SumBy(Filter(list, keep), g)
  {
    if list != [] {
      assert list == [list[0]] + list[1..];
      SumsDiffer(list[1..], keep, f, g);
      var rest := Filter(list[1..], keep);
      if keep(list[0]) {
        assert ([list[0]] + rest)[1..] == rest;
      }
    }
  }

  /** The net of the written positions, summed over the cached ids. */
  lemma {:induction false} NetAsSum(image: Image, fired: map<Lane, int>, venue: Venue, instruments: seq<string>, i: string)
    requires WellFormed(image) && PlanInstruments(image, fired, venue, instruments).Ok?
    ensures var after := PutAll(image.positions, PlanInstruments(image, fired, venue, instruments).value.rewrites);
            InstrumentNet(after, i) == SumBy(SortedStrings(image.positions.Keys), OnInstrument(after, i))
  {
    hide WellFormed, PutAll, SumSet, OnInstrument, PlanInstruments;
    var rewrites := PlanInstruments(image, fired, venue, instruments).value.rewrites;
    var after := PutAll(image.positions, rewrites);
    PlanPids(image, fired, venue, instruments);
    PutAllKeys(image.positions, rewrites);
    AbsentAddsNothing(after, i, image.positions.Keys);
    SumSetSubset(after.Keys, image.positions.Keys, OnInstrument(after, i));
    SumSetOfList(SortedStrings(image.positions.Keys), image.positions.Keys, OnInstrument(after, i));
  }

  /**
   Over any touched instruments, for a plan with no refusals and nothing unexplained: an instrument nets to the venue exactly
   when, over the positions that read as its own and as another's of them, what the last instrument to move each leaves open
   adds up to what its own rules left open of them.
   */
  lemma {:induction false} NetsIff(image: Image, fired: map<Lane, int>, venue: Venue, instruments: seq<string>, i: string)
    requires WellFormed(image) && PlanInstruments(image, fired, venue, instruments).Ok? && i in instruments
    requires PlanInstruments(image, fired, venue, instruments).value.refusals == map[]
    requires PlanInstruments(image, fired, venue, instruments).value.unexplained == []
    ensures InstrumentNet(PutAll(image.positions, PlanInstruments(image, fired, venue, instruments).value.rewrites), i)
         == VenueNet(venue, i)
       <==> SharedEndAsOwn(image, fired, instruments, i)
  {
    hide WellFormed, PutAll, PlanInstruments, InstrumentNet, VenueNet, Decide, Belongs, EndOf, EndNet, LeftOn, OnInstrument, IsShared,
      EndsAs;
    var after := PutAll(image.positions, PlanInstruments(image, fired, venue, instruments).value.rewrites);
    var pids := SortedStrings(image.positions.Keys);
    var keep := (p: string) => IsShared(instruments, i, p);
    UnrefusedMatches(image, fired, venue, instruments);
    NetAsSum(image, fired, venue, instruments, i);
    forall p | p in pids
      ensures keep(p) ==> OnInstrument(after, i)(p) == EndNet(image, fired, instruments)(p)
      ensures !keep(p) ==> OnInstrument(after, i)(p) == LeftOn(image, fired, i)(p)
    {
      PlanEnds(image, fired, venue, instruments, p);
      EndedNet(image, fired, instruments, after, i, p);
      SharedBelongs(instruments, i, p);
      if Belongs(p, i) {
        PlanExplained(image, fired, venue, instruments, i, p);
        if !keep(p) {
          OwnEndsAsLeft(image, fired, instruments, i, p);
        }
      } else {
        OthersLeaveNothing(image, fired, i, p);
      }
    }
    SumsDiffer(pids, keep, OnInstrument(after, i), LeftOn(image, fired, i));
    SumBySame(Filter(pids, keep), OnInstrument(after, i), EndNet(image, fired, instruments));
    SharedIs(image, instruments, i, keep);
    assert NetMatches(image, fired, venue, i);
  }

  lemma {:induction false} SharedBelongs(instruments: seq<string>, i: string, p: string)
    ensures IsShared(instruments, i, p) ==> Belongs(p, i)
  {
  }

  lemma {:induction false} OthersLeaveNothing(image: Image, fired: map<Lane, int>, i: string, p: string)
    requires WellFormed(image) && !Belongs(p, i)
    ensures LeftOn(image, fired, i)(p) == 0.0
  {
    hide WellFormed, Decide;
  }

  lemma {:induction false} SharedIs(image: Image, instruments: seq<string>, i: string, keep: string -> bool)
    requires forall p :: keep(p) == IsShared(instruments, i, p)
    ensures SharedBy(image, instruments, i) == Filter(SortedStrings(image.positions.Keys), keep)
  {
    hide IsShared;
    FilterSame(SortedStrings(image.positions.Keys), (p: string) => IsShared(instruments, i, p), keep);
  }

  lemma {:induction false} FilterSame(list: seq<string>, f: string -> bool, g: string -> bool)
    requires forall x :: f(x) == g(x)
    ensures Filter(list, f) == Filter(list, g)
  {
    if list != [] {
      FilterSame(list[1..], f, g);
    }
  }

  /** The instruments on which some revived order fired, in order. */
  function Touched(revivals: seq<Revival>): seq<string> {
    SortedStrings(FiredInstruments(Fired(revivals)))
  }

  lemma {:induction false} PlanIsPlanned(image: Image, venue: Venue, plan: Plan)
    requires WellFormed(image) && PlanRepair(image, venue) == Ok(plan)
    ensures PlanInstruments(image, Fired(plan.revivals), venue, Touched(plan.revivals))
         == Ok(Planned(plan.rewrites, plan.refusals, plan.unexplained))
  {
    hide WellFormed, PlanInstruments, ReviveAll, Fired, Corpses;
  }

  /**
   A plan with no refusals and nothing unexplained leaves a touched instrument's open positions netting to the venue's signed
   quantity exactly when, over the positions it shares with other touched instruments, what the last of them to move each
   leaves open is in sum what its own rules left open of them.
   */
  lemma {:induction false} RepairedNetsIff(image: Image, venue: Venue, plan: Plan, instrument: string)
    requires WellFormed(image) && PlanRepair(image, venue) == Ok(plan) && !plan.IsRefused()
    requires instrument in Touched(plan.revivals)
    ensures var touched, fired := Touched(plan.revivals), Fired(plan.revivals);
            InstrumentNet(PutAll(image.positions, plan.rewrites), instrument) == VenueNet(venue, instrument)
            <==> SharedEndAsOwn(image, fired, touched, instrument)
  {
    hide WellFormed, PlanRepair, PutAll, Touched, Fired, VenueNet, InstrumentNet, PlanInstruments, SharedEndAsOwn;
    PlanIsPlanned(image, venue, plan);
    NetsIff(image, Fired(plan.revivals), venue, Touched(plan.revivals), instrument);
  }

  /** So on every touched instrument that shares no position with another. */
  lemma {:induction false} RepairedNets(image: Image, venue: Venue, plan: Plan, instrument: string)
    requires WellFormed(image) && PlanRepair(image, venue) == Ok(plan) && !plan.IsRefused()
    requires instrument in Touched(plan.revivals) && SharedBy(image, Touched(plan.revivals), instrument) == []
    ensures InstrumentNet(PutAll(image.positions, plan.rewrites), instrument) == VenueNet(venue, instrument)
  {
    hide WellFormed, PlanRepair, PutAll, Touched, Fired, VenueNet, InstrumentNet, EndNet, LeftOn, SharedBy;
    RepairedNetsIff(image, venue, plan, instrument);
  }

  // ---- the four rules, as they end ---------------------------------------------------------------

  /** A touched position that was open ends as its rule says, whatever else is rewritten. */
  ghost predicate EndsByRule(image: Image, fired: map<Lane, int>, instrument: string, p: string,
                             after: map<string, seq<Fill>>)
    requires WellFormed(image) && p in image.positions && Belongs(p, instrument)
  {
    var raw := image.positions[p];
    var lane := Lane(instrument, StrategyOf(p, instrument));
    if !IsOpen(raw) then SameAt(image.positions, after, p)
    else if lane in fired then
      var held := LaneFillsAfter(image, lane, fired[lane]);
      if NetOf(held) == 0.0 then p !in after else p in after && after[p] == Current(held) && NetOf(after[p]) == NetOf(held)
    else
      && NetOf(raw) > 0.0
      && if forall f :: f in Current(raw) ==> !PlacedByCockpit(f.coid) then p !in after
         else SameAt(image.positions, after, p)
  }

  /** A position that holds what an instrument's rules give it, or is as it was where they do not move it, ends by them. */
  lemma {:induction false} EndsByItsRule(image: Image, fired: map<Lane, int>, i: string, p: string,
                                         after: map<string, seq<Fill>>)
    requires WellFormed(image) && p in image.positions && Belongs(p, i) && !Decide(image, fired, i, p).Unexplained?
    requires if Moves(image, fired, i, p) then Holds(after, p, Decide(image, fired, i, p).rewrite.events)
             else SameAt(image.positions, after, p)
    ensures EndsByRule(image, fired, i, p, after)
  {
    hide WellFormed, Belongs, LaneFillsAfter, PlacedByCockpit, Current;
    DecideNamesPid(image, fired, i, p);
    CurrentIsSuffix(image.positions[p]);
    var lane := Lane(i, StrategyOf(p, i));
    if lane in fired {
      CurrentIsSuffix(LaneFillsAfter(image, lane, fired[lane]));
    }
  }

  lemma {:induction false} MoverIsOne(image: Image, fired: map<Lane, int>, instruments: seq<string>, p: string)
    requires WellFormed(image) && p in image.positions
    ensures var e := EndOf(image, fired, instruments, p);
            && (e.Becomes? ==> e.mover in instruments && Moves(image, fired, e.mover, p)
                               && e.events == Decide(image, fired, e.mover, p).rewrite.events)
            && (e.AsItWas? ==> forall i :: i in instruments ==> !Moves(image, fired, i, p))
    decreases |instruments|
  {
    hide WellFormed, Moves;
    if instruments != [] {
      var n := |instruments| - 1;
      assert instruments == instruments[..n] + [instruments[n]];
      MoverIsOne(image, fired, instruments[..n], p);
    }
  }

  /**
   The four rules on every position of every touched instrument: a lane whose stop fired holds exactly what its own fills
   after the stop come to; no other lane is short; a current instance with no fill of the cockpit's own is gone; and
   everything else, closed history included, is as it was. A position that reads as several touched instruments ends by the
   rules of the last of them to move it; one that none moves ends by the rules of each.
   */
  lemma {:induction false} RulesHold(image: Image, fired: map<Lane, int>, venue: Venue, instruments: seq<string>, p: string)
    requires WellFormed(image) && PlanInstruments(image, fired, venue, instruments).Ok? && p in image.positions
    requires PlanInstruments(image, fired, venue, instruments).value.unexplained == []
    ensures var after := PutAll(image.positions, PlanInstruments(image, fired, venue, instruments).value.rewrites);
            match EndOf(image, fired, instruments, p)
            case Becomes(mover, _) => mover in instruments && Belongs(p, mover) && EndsByRule(image, fired, mover, p, after)
            case AsItWas =>
              && SameAt(image.positions, after, p)
              && forall i :: i in instruments && Belongs(p, i) ==> EndsByRule(image, fired, i, p, after)
  {
    hide WellFormed, Belongs, PutAll, PlanInstruments, Decide, EndsByRule;
    var after := PutAll(image.positions, PlanInstruments(image, fired, venue, instruments).value.rewrites);
    PlanEnds(image, fired, venue, instruments, p);
    MoverIsOne(image, fired, instruments, p);
    match EndOf(image, fired, instruments, p)
    case Becomes(mover, _) =>
      PlanExplained(image, fired, venue, instruments, mover, p);
      EndsByItsRule(image, fired, mover, p, after);
    case AsItWas =>
      forall i | i in instruments && Belongs(p, i)
        ensures EndsByRule(image, fired, i, p, after)
      {
        PlanExplained(image, fired, venue, instruments, i, p);
        EndsByItsRule(image, fired, i, p, after);
      }
  }
}
