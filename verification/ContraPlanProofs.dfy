/**
 What the planner promises of a whole book: one outcome per instrument, and a plan whose legs, booked
 against the book it was planned on, land every instrument it acts on at the venue's quantity, realize
 nothing, flip nothing, and leave every other instrument alone.
 */
module ContraPlanProofs {
  import opened Prelude
  import opened Netting
  import opened ContraClose
  import opened ContraFlatten

  // ---- books and ids -------------------------------------------------------------------------

  function Book(legs: seq<Position>): (r: seq<Holding>)
    ensures |r| == |legs|
    ensures forall i :: 0 <= i < |legs| ==> r[i] == HoldingOf(legs[i])
  {
    seq(|legs|, i requires 0 <= i < |legs| => HoldingOf(legs[i]))
  }

  function PosIds(s: seq<Position>): set<string> {
    set p | p in s :: p.id
  }

  predicate Distinct(s: seq<Position>) {
    s == [] || (s[0].id !in PosIds(s[1..]) && Distinct(s[1..]))
  }

  lemma {:induction false} UniqueIsDistinct(s: seq<Position>)
    ensures UniqueIds(Book(s)) <==> Distinct(s)
  {
    if s != [] {
      UniqueIsDistinct(s[1..]);
      var b, b' := Book(s), Book(s[1..]);
      assert b[1..] == b';
      if UniqueIds(b) {
        forall i, j | 0 <= i < j < |b'|
          ensures b'[i].id != b'[j].id
        {
          assert b'[i] == b[i + 1] && b'[j] == b[j + 1];
        }
        forall p | p in s[1..]
          ensures p.id != s[0].id
        {
          var i :| 0 <= i < |s[1..]| && s[1..][i] == p;
          assert b[i + 1].id == p.id && b[0].id == s[0].id;
        }
      }
      if Distinct(s) {
        forall i, j | 0 <= i < j < |b|
          ensures b[i].id != b[j].id
        {
          if i == 0 {
            assert s[j] == s[1..][j - 1] && s[j] in s[1..];
          } else {
            assert b[i] == b'[i - 1] && b[j] == b'[j - 1];
          }
        }
      }
    }
  }

  lemma {:induction false} FilterDistinct(s: seq<Position>, keep: Position -> bool)
    requires Distinct(s)
    ensures Distinct(Filter(s, keep)) && PosIds(Filter(s, keep)) <= PosIds(s)
  {
    if s != [] {
      assert s == [s[0]] + s[1..];
      FilterDistinct(s[1..], keep);
      var r := Filter(s[1..], keep);
      assert ([s[0]] + r)[1..] == r;
    }
  }

  lemma {:induction false} InsertDistinct(x: Position, s: seq<Position>, le: (Position, Position) -> bool)
    requires Distinct(s) && x.id !in PosIds(s)
    ensures Distinct(Insert(x, s, le)) && PosIds(Insert(x, s, le)) == PosIds(s) + {x.id}
  {
    if s == [] {
      assert [x][1..] == [];
    } else if le(x, s[0]) {
      assert ([x] + s)[1..] == s;
    } else {
      assert s == [s[0]] + s[1..];
      InsertDistinct(x, s[1..], le);
      var r := Insert(x, s[1..], le);
      assert ([s[0]] + r)[1..] == r;
    }
  }

  lemma {:induction false} SortDistinct(s: seq<Position>, le: (Position, Position) -> bool)
    requires Distinct(s)
    ensures Distinct(Sort(s, le)) && PosIds(Sort(s, le)) == PosIds(s)
  {
    if s != [] {
      assert s == [s[0]] + s[1..];
      SortDistinct(s[1..], le);
      InsertDistinct(s[0], Sort(s[1..], le), le);
    }
  }

  lemma {:induction false} SlotsDistinct(s: seq<Position>)
    requires Distinct(s)
    ensures DistinctSlots(Slots(s)) && Ids(Slots(s)) == PosIds(s) && NonNegative(Slots(s))
  {
    if s != [] {
      SlotsDistinct(s[1..]);
      assert Slots(s)[1..] == Slots(s[1..]);
      assert s == [s[0]] + s[1..];
      assert Slots(s) == [Slots(s)[0]] + Slots(s[1..]);
    }
  }

  /** A leg naming a position of the book, in its lane, is aimed. */
  lemma {:induction false} AimedAt(legs: seq<Position>, p: Position, leg: Leg)
    requires Distinct(legs) && p in legs
    requires leg.positionId == p.id && leg.strategy == p.strategy && leg.instrument == p.instrument
    ensures Aimed(Book(legs), leg)
  {
    UniqueIsDistinct(legs);
    var i :| 0 <= i < |legs| && legs[i] == p;
    FindIs(Book(legs), i);
  }

  lemma {:induction false} SameId(legs: seq<Position>, p: Position, q: Position)
    requires Distinct(legs) && p in legs && q in legs && p.id == q.id
    ensures p == q
  {
    assert legs == [legs[0]] + legs[1..];
    if p in legs[1..] && q in legs[1..] {
      SameId(legs[1..], p, q);
    }
  }

  // ---- sums ----------------------------------------------------------------------------------

  lemma {:induction false} NetIsSum(legs: seq<Position>, instrument: string)
    requires forall p :: p in legs ==> p.instrument == instrument
    ensures NetOn(Book(legs), instrument) == SumBy(legs, SignedOf)
  {
    if legs != [] {
      assert legs == [legs[0]] + legs[1..];
      assert Book(legs)[1..] == Book(legs[1..]);
      NetIsSum(legs[1..], instrument);
    }
  }

  /** The net is what the longs hold less what the shorts hold. */
  lemma {:induction false} NetBySide(legs: seq<Position>)
    ensures SumBy(legs, SignedOf) == SumBy(Filter(legs, IsLong), SignedOf) + SumBy(Filter(legs, IsShort), SignedOf)
    ensures |Filter(legs, IsLong)| + |Filter(legs, IsShort)| <= |legs|
  {
    if legs != [] {
      NetBySide(legs[1..]);
      var l, s := Filter(legs[1..], IsLong), Filter(legs[1..], IsShort);
      assert ([legs[0]] + l)[1..] == l && ([legs[0]] + s)[1..] == s;
    }
  }

  lemma {:induction false} SlotSum(s: seq<Position>)
    ensures (forall p :: p in s ==> IsLong(p)) ==> SumBy(Slots(s), RemOf) == SumBy(s, SignedOf)
    ensures (forall p :: p in s ==> IsShort(p)) ==> SumBy(Slots(s), RemOf) == -SumBy(s, SignedOf)
  {
    if s != [] {
      assert s == [s[0]] + s[1..];
      assert s[0] in s && (forall p :: p in s[1..] ==> p in s);
      assert Slots(s)[1..] == Slots(s[1..]);
      SlotSum(s[1..]);
    }
  }

  // ---- legs of an outcome --------------------------------------------------------------------

  function PairLegs(pairs: seq<ContraPair>): seq<Leg> {
    if pairs == [] then [] else pairs[0].Legs() + PairLegs(pairs[1..])
  }

  function EvictionLegs(evictions: seq<Eviction>): seq<Leg> {
    if evictions == [] then [] else evictions[0].legs + EvictionLegs(evictions[1..])
  }

  function SurplusLegs(surplus: seq<SurplusEviction>): seq<Leg> {
    if surplus == [] then [] else [surplus[0].leg] + SurplusLegs(surplus[1..])
  }

  function OutcomeLegs(o: Outcome): seq<Leg> {
    match o
    case Paired(pairs) => PairLegs(pairs)
    case Evicted(e) => e.legs
    case SurplusEvicted(s) => [s.leg]
    case Silent => []
    case Refused(_) => []
  }

  predicate Acts(o: Outcome) {
    o.Paired? || o.Evicted? || o.SurplusEvicted?
  }

  /**
   `moves` repair one instrument: each is aimed at a leg of it, together they close no more of any leg than
   it holds, no leg is left short beyond `slack`, and the net lands on the venue within `slack`.
   */
  ghost predicate Repairs(instrument: string, legs: seq<Position>, moves: seq<Leg>, venue: real, near: real, slack: real) {
    && (forall l :: l in moves ==> l.instrument == instrument && Aimed(Book(legs), l))
    && (forall p :: p in legs ==> Within(moves, HoldingOf(p)) && p.Signed() + SignedAt(moves, p.id) >= -slack)
    && Abs(SumBy(legs, SignedOf) + SignedOn(moves, instrument) - venue) <= near
  }

  // ---- evictions -----------------------------------------------------------------------------

  lemma {:induction false} ClosingTotals(instrument: string, s: seq<Position>)
    requires Distinct(s)
    ensures forall p :: p in s ==> SignedAt(ClosingLegs(instrument, s), p.id) == -p.Signed()
    ensures SignedOn(ClosingLegs(instrument, s), instrument) == -SumBy(s, SignedOf)
  {
    var legs := ClosingLegs(instrument, s);
    if s != [] {
      assert s == [s[0]] + s[1..];
      assert legs[1..] == ClosingLegs(instrument, s[1..]);
      ClosingTotals(instrument, s[1..]);
      forall p | p in s
        ensures SignedAt(legs, p.id) == -p.Signed()
      {
        if p == s[0] {
          forall l | l in legs[1..]
            ensures l.positionId != p.id
          {
            var i :| 0 <= i < |legs[1..]| && legs[1..][i] == l;
            assert s[1..][i] in s[1..];
          }
          SignedAtAbsent(legs[1..], p.id);
        } else {
          assert p in s[1..] && p.id in PosIds(s[1..]);
        }
      }
    }
  }

  /** A closing leg of a reordering of the book is the closing leg of one of its positions. */
  lemma {:induction false} ClosingLegOf(instrument: string, legs: seq<Position>, s: seq<Position>, l: Leg)
    requires Distinct(legs) && (forall p :: p in legs ==> p.instrument == instrument)
    requires forall p :: p in s ==> p in legs
    requires l in ClosingLegs(instrument, s)
    ensures l.instrument == instrument && Aimed(Book(legs), l)
    ensures forall p :: p in legs && p.id == l.positionId ==> ClosesAtBasis(l, HoldingOf(p))
  {
    var moves := ClosingLegs(instrument, s);
    var i :| 0 <= i < |moves| && moves[i] == l;
    assert s[i] in s;
    AimedAt(legs, s[i], l);
    forall p | p in legs && p.id == l.positionId
      ensures ClosesAtBasis(l, HoldingOf(p))
    {
      SameId(legs, s[i], p);
    }
  }

  /** The closing legs of a reordering of the book close each position whole. */
  lemma {:induction false} ClosingWithin(instrument: string, legs: seq<Position>, s: seq<Position>, p: Position)
    requires Distinct(legs) && (forall x :: x in legs ==> x.instrument == instrument)
    requires (forall x :: x in s ==> x in legs) && p in legs
    requires SignedAt(ClosingLegs(instrument, s), p.id) == -p.Signed()
    ensures Within(ClosingLegs(instrument, s), HoldingOf(p))
  {
    hide Distinct, Aimed, SignedAt, ClosesAtBasis;
    forall l | l in ClosingLegs(instrument, s) && l.positionId == p.id
      ensures ClosesAtBasis(l, HoldingOf(p))
    {
      ClosingLegOf(instrument, legs, s, l);
    }
  }

  /** Evicting every leg leaves every leg flat. */
  lemma {:induction false} EvictionRepairs(instrument: string, legs: seq<Position>, venue: real)
    requires Distinct(legs) && (forall p :: p in legs ==> p.instrument == instrument)
    requires Abs(venue) <= QTY_TOLERANCE
    ensures Repairs(instrument, legs, EvictAll(instrument, legs, venue).legs, venue, QTY_TOLERANCE, 0.0)
    ensures forall p :: p in legs ==> p.Signed() + SignedAt(EvictAll(instrument, legs, venue).legs, p.id) == 0.0
  {
    hide Sort, Distinct, Aimed, SumBy, SignedOn, SignedAt, Within;
    var s := Sort(legs, ByLane);
    var moves := ClosingLegs(instrument, s);
    SortMembers(legs, ByLane);
    SortPermutes(legs, ByLane);
    SumByPermutes(s, legs, SignedOf);
    SortDistinct(legs, ByLane);
    ClosingTotals(instrument, s);
    forall l | l in moves
      ensures l.instrument == instrument && Aimed(Book(legs), l)
    {
      ClosingLegOf(instrument, legs, s, l);
    }
    forall p | p in legs
      ensures Within(moves, HoldingOf(p)) && p.Signed() + SignedAt(moves, p.id) == 0.0
    {
      assert p in s;
      ClosingWithin(instrument, legs, s, p);
    }
    assert EvictAll(instrument, legs, venue).legs == moves;
  }

  // ---- pairs ---------------------------------------------------------------------------------

  /** One pair over two different legs of the book: the net stays, each leg gives back `quantity`. */
  lemma {:induction false} PairTotals(pair: ContraPair, id: string)
    requires pair.longId != pair.shortId
    ensures SignedAt(pair.Legs(), id)
         == (if id == pair.shortId then pair.quantity else 0.0) - (if id == pair.longId then pair.quantity else 0.0)
    ensures SignedOn(pair.Legs(), pair.instrument) == 0.0
  {
    var legs := pair.Legs();
    assert legs[1..] == [legs[1]] && legs[1..][1..] == [];
    assert SignedAt(legs[1..][1..], id) == 0.0;
    assert SignedOn(legs[1..][1..], pair.instrument) == 0.0;
  }

  /** A pair closing `quantity` of one long and one short of the book is within both. */
  lemma {:induction false} PairRepairs(instrument: string, legs: seq<Position>, long: Position, short: Position, quantity: real,
                    venue: real)
    requires Distinct(legs) && (forall p :: p in legs ==> p.instrument == instrument)
    requires long in legs && short in legs && IsLong(long) && IsShort(short)
    requires 0.0 <= quantity <= Min(Abs(long.Signed()), Abs(short.Signed()))
    ensures var moves := PairOf(instrument, long, short, quantity, venue).Legs();
            && (forall l :: l in moves ==> l.instrument == instrument && Aimed(Book(legs), l))
            && (forall p :: p in legs ==> Within(moves, HoldingOf(p)))
            && SignedAt(moves, long.id) == -quantity && SignedAt(moves, short.id) == quantity
            && (forall p :: p in legs && p != long && p != short ==> SignedAt(moves, p.id) == 0.0)
            && SignedOn(moves, instrument) == 0.0
  {
    var pair := PairOf(instrument, long, short, quantity, venue);
    var moves := pair.Legs();
    if long.id == short.id {
      SameId(legs, long, short);
    }
    AimedAt(legs, long, moves[1]);
    AimedAt(legs, short, moves[0]);
    PairTotals(pair, long.id);
    PairTotals(pair, short.id);
    forall p | p in legs
      ensures Within(moves, HoldingOf(p))
      ensures p != long && p != short ==> SignedAt(moves, p.id) == 0.0
    {
      PairTotals(pair, p.id);
      if p.id == long.id {
        SameId(legs, p, long);
      }
      if p.id == short.id {
        SameId(legs, p, short);
      }
    }
  }

  /** A book of at most two legs with both sides in it is one long and one short. */
  lemma {:induction false} TwoSides(legs: seq<Position>)
    requires |legs| <= 2 && Filter(legs, IsLong) != [] && Filter(legs, IsShort) != []
    ensures var long, short := Filter(legs, IsLong)[0], Filter(legs, IsShort)[0];
            && long in legs && short in legs && IsLong(long) && IsShort(short)
            && (forall p :: p in legs ==> p == long || p == short)
            && SumBy(legs, SignedOf) == long.Signed() + short.Signed()
  {
    var longs, shorts := Filter(legs, IsLong), Filter(legs, IsShort);
    assert longs[0] in longs && shorts[0] in shorts;
    NetBySide(legs);
    assert longs == [longs[0]] && shorts == [shorts[0]];
    assert longs[1..] == [] && shorts[1..] == [];
    assert |legs| == 2 && legs == [legs[0], legs[1]];
  }

  /** Booking one pair that closes the smaller of two legs on a venue the book nets to. */
  lemma {:induction false} TwoLegNumbers(long: real, short: real, venue: real, tol: real)
    requires long > 0.0 && short < 0.0 && venue >= 0.0 && tol >= 0.0 && Abs(long + short - venue) <= tol
    ensures var quantity := Min(Abs(long), Abs(short));
            long - quantity >= 0.0 && short + quantity >= -tol && (long + short == venue ==> quantity == -short)
  {
  }

  /** The two-leg book: net = venue >= 0 makes the smaller leg the short, up to the tolerance. */
  lemma {:induction false} TwoLegRepairs(instrument: string, legs: seq<Position>, venue: real)
    requires Distinct(legs) && (forall p :: p in legs ==> p.instrument == instrument) && |legs| <= 2
    requires Filter(legs, IsLong) != [] && Filter(legs, IsShort) != []
    requires venue >= 0.0
    requires Abs(Filter(legs, IsLong)[0].Signed() + Filter(legs, IsShort)[0].Signed() - venue) <= QTY_TOLERANCE
    ensures var long, short := Filter(legs, IsLong)[0], Filter(legs, IsShort)[0];
            var quantity := Min(Abs(long.Signed()), Abs(short.Signed()));
            var pair := PairOf(instrument, long, short, quantity, venue);
            && Repairs(instrument, legs, PairLegs([pair]), venue, QTY_TOLERANCE, QTY_TOLERANCE)
            && (SumBy(legs, SignedOf) == venue ==> quantity == -short.Signed())
  {
    var long, short := Filter(legs, IsLong)[0], Filter(legs, IsShort)[0];
    TwoSides(legs);
    TwoLegLands(instrument, legs, long, short, venue);
  }

  lemma {:induction false} TwoLegLands(instrument: string, legs: seq<Position>, long: Position, short: Position,
                                       venue: real)
    requires Distinct(legs) && (forall p :: p in legs ==> p.instrument == instrument)
    requires long in legs && short in legs && IsLong(long) && IsShort(short)
    requires forall p :: p in legs ==> p == long || p == short
    requires SumBy(legs, SignedOf) == long.Signed() + short.Signed()
    requires venue >= 0.0 && Abs(long.Signed() + short.Signed() - venue) <= QTY_TOLERANCE
    ensures var quantity := Min(Abs(long.Signed()), Abs(short.Signed()));
            var pair := PairOf(instrument, long, short, quantity, venue);
            && Repairs(instrument, legs, PairLegs([pair]), venue, QTY_TOLERANCE, QTY_TOLERANCE)
            && (SumBy(legs, SignedOf) == venue ==> quantity == -short.Signed())
  {
    TwoLegNumbers(long.Signed(), short.Signed(), venue, QTY_TOLERANCE);
    var quantity := Min(Abs(long.Signed()), Abs(short.Signed()));
    var pair := PairOf(instrument, long, short, quantity, venue);
    PairRepairs(instrument, legs, long, short, quantity, venue);
    assert PairLegs([pair]) == pair.Legs() by {
      assert PairLegs([pair][1..]) == [];
    }
  }

  // ---- flatten -------------------------------------------------------------------------------

  lemma {:induction false} TakesTotals(instrument: string, takes: seq<Take>, venue: real, id: string)
    requires forall t :: t in takes ==> t.long.id != t.short.id
    ensures SignedAt(PairLegs(PairsOf(instrument, takes, venue)), id) == ShortTaken(takes, id) - LongTaken(takes, id)
    ensures SignedOn(PairLegs(PairsOf(instrument, takes, venue)), instrument) == 0.0
  {
    var pairs := PairsOf(instrument, takes, venue);
    if takes != [] {
      assert takes == [takes[0]] + takes[1..];
      assert pairs[1..] == PairsOf(instrument, takes[1..], venue);
      TakesTotals(instrument, takes[1..], venue, id);
      PairTotals(pairs[0], id);
      SignedAtConcat(pairs[0].Legs(), PairLegs(pairs[1..]), id);
      SignedOnConcat(pairs[0].Legs(), PairLegs(pairs[1..]), instrument);
    }
  }

  /** A leg of a list of pairs is the short or the long of one of its takes. */
  lemma {:induction false} TakesLegs(instrument: string, takes: seq<Take>, venue: real, l: Leg)
    requires l in PairLegs(PairsOf(instrument, takes, venue))
    ensures exists t :: t in takes &&
              (l == Leg(instrument, t.short.strategy, t.short.id, Buy, t.quantity, t.short.avgPx)
               || l == Leg(instrument, t.long.strategy, t.long.id, Sell, t.quantity, t.long.avgPx))
  {
    var pairs := PairsOf(instrument, takes, venue);
    assert takes == [takes[0]] + takes[1..];
    assert pairs[1..] == PairsOf(instrument, takes[1..], venue);
    if l !in pairs[0].Legs() {
      TakesLegs(instrument, takes[1..], venue, l);
    } else {
      assert takes[0] in takes;
    }
  }

  ghost predicate SideOf(slots: seq<Slot>, legs: seq<Position>, long: bool) {
    && DistinctSlots(slots) && NonNegative(slots)
    && (forall s :: s in slots ==> s.pos in legs && s.rem == Abs(s.pos.Signed())
                                   && (if long then IsLong(s.pos) else IsShort(s.pos)))
    && (forall p :: p in legs && (if long then IsLong(p) else IsShort(p)) ==> Slot(p, Abs(p.Signed())) in slots)
  }

  function SideLegs(legs: seq<Position>, long: bool): seq<Position> {
    if long then Filter(legs, IsLong) else Filter(legs, IsShort)
  }

  function SideSlots(legs: seq<Position>, long: bool): seq<Slot> {
    Slots(Sort(SideLegs(legs, long), ById))
  }

  lemma {:induction false} SortedSide(legs: seq<Position>, long: bool)
    requires Distinct(legs)
    ensures SideOf(SideSlots(legs, long), legs, long)
    ensures |SideSlots(legs, long)| == |SideLegs(legs, long)|
    ensures SumBy(SideSlots(legs, long), RemOf)
         == (if long then SumBy(SideLegs(legs, long), SignedOf) else -SumBy(SideLegs(legs, long), SignedOf))
  {
    var side := SideLegs(legs, long);
    var sorted := Sort(side, ById);
    FilterDistinct(legs, IsLong);
    FilterDistinct(legs, IsShort);
    SortDistinct(side, ById);
    SortMembers(side, ById);
    SortPermutes(side, ById);
    SumByPermutes(sorted, side, SignedOf);
    SlotsDistinct(sorted);
    SlotSum(sorted);
    var slots := Slots(sorted);
    forall s | s in slots
      ensures s.pos in legs && s.rem == Abs(s.pos.Signed()) && (if long then IsLong(s.pos) else IsShort(s.pos))
    {
      var i :| 0 <= i < |slots| && slots[i] == s;
      assert sorted[i] in sorted;
    }
    forall p | p in legs && (if long then IsLong(p) else IsShort(p))
      ensures Slot(p, Abs(p.Signed())) in slots
    {
      assert p in sorted;
      var i :| 0 <= i < |sorted| && sorted[i] == p;
      assert slots[i] == Slot(p, Abs(p.Signed()));
    }
  }

  /** The two sides differ by the book's net. */
  lemma {:induction false} SidesDiffer(legs: seq<Position>)
    requires Distinct(legs)
    ensures SumBy(SideSlots(legs, true), RemOf) - SumBy(SideSlots(legs, false), RemOf) == SumBy(legs, SignedOf)
    ensures |SideSlots(legs, true)| + |SideSlots(legs, false)| <= |legs|
  {
    SortedSide(legs, true);
    SortedSide(legs, false);
    NetBySide(legs);
  }

  /** The two sides of an instrument's book, and takes between them. */
  ghost predicate TakesOfBook(instrument: string, legs: seq<Position>, longs: seq<Slot>, shorts: seq<Slot>,
                              takes: seq<Take>) {
    && Distinct(legs) && (forall p :: p in legs ==> p.instrument == instrument)
    && SideOf(longs, legs, true) && SideOf(shorts, legs, false) && TakesOf(takes, longs, shorts)
    && (forall t :: t in takes ==> t.quantity >= 0.0)
  }

  /** The takes leave no leg over-taken and every leg within `slack` of flat. */
  ghost predicate Exhausts(longs: seq<Slot>, shorts: seq<Slot>, takes: seq<Take>, slack: real) {
    && slack >= 0.0
    && (forall s :: s in longs ==> 0.0 <= s.rem - LongTaken(takes, s.pos.id) <= slack)
    && (forall s :: s in shorts ==> 0.0 <= s.rem - ShortTaken(takes, s.pos.id) <= slack)
  }

  /** Where a list of takes over the two sides leaves one leg. */
  lemma {:induction false} LegAfterTakes(instrument: string, legs: seq<Position>, longs: seq<Slot>, shorts: seq<Slot>,
                                         takes: seq<Take>, p: Position)
    requires TakesOfBook(instrument, legs, longs, shorts, takes) && p in legs
    ensures IsLong(p) ==> ShortTaken(takes, p.id) == 0.0
    ensures IsShort(p) ==> LongTaken(takes, p.id) == 0.0
    ensures p.Signed() == 0.0 ==> ShortTaken(takes, p.id) == 0.0 && LongTaken(takes, p.id) == 0.0
  {
    if !IsShort(p) {
      forall t | t in takes
        ensures t.short.id != p.id
      {
        var s :| s in shorts && s.pos == t.short;
        if t.short.id == p.id {
          SameId(legs, t.short, p);
        }
      }
    }
    if !IsLong(p) {
      forall t | t in takes
        ensures t.long.id != p.id
      {
        var s :| s in longs && s.pos == t.long;
        if t.long.id == p.id {
          SameId(legs, t.long, p);
        }
      }
    }
    NothingTakenElsewhere(takes, p.id);
  }

  /** Legs made of takes are aimed at the book and close against its signs at its bases. */
  lemma {:induction false} TakesAim(instrument: string, legs: seq<Position>, longs: seq<Slot>, shorts: seq<Slot>,
                                    takes: seq<Take>, venue: real, l: Leg)
    requires TakesOfBook(instrument, legs, longs, shorts, takes)
    requires l in PairLegs(PairsOf(instrument, takes, venue))
    ensures l.instrument == instrument && Aimed(Book(legs), l)
    ensures forall p :: p in legs && p.id == l.positionId ==> ClosesAtBasis(l, HoldingOf(p))
  {
    TakesLegs(instrument, takes, venue, l);
    var t :| t in takes &&
             (l == Leg(instrument, t.short.strategy, t.short.id, Buy, t.quantity, t.short.avgPx)
              || l == Leg(instrument, t.long.strategy, t.long.id, Sell, t.quantity, t.long.avgPx));
    var a :| a in longs && a.pos == t.long;
    var b :| b in shorts && b.pos == t.short;
    var target := if l.side.Buy? then t.short else t.long;
    AimedAt(legs, target, l);
    forall p | p in legs && p.id == l.positionId
      ensures ClosesAtBasis(l, HoldingOf(p))
    {
      SameId(legs, p, target);
    }
  }

  lemma {:induction false} AllTakesAim(instrument: string, legs: seq<Position>, longs: seq<Slot>, shorts: seq<Slot>,
                                       takes: seq<Take>, venue: real)
    requires TakesOfBook(instrument, legs, longs, shorts, takes)
    ensures forall l :: l in PairLegs(PairsOf(instrument, takes, venue)) ==>
              l.instrument == instrument && Aimed(Book(legs), l)
  {
    forall l | l in PairLegs(PairsOf(instrument, takes, venue))
      ensures l.instrument == instrument && Aimed(Book(legs), l)
    {
      TakesAim(instrument, legs, longs, shorts, takes, venue, l);
    }
  }

  lemma {:induction false} TakenIsPositive(takes: seq<Take>, id: string)
    requires forall t :: t in takes ==> t.quantity >= 0.0
    ensures LongTaken(takes, id) >= 0.0 && ShortTaken(takes, id) >= 0.0
  {
    if takes != [] {
      assert takes == [takes[0]] + takes[1..];
      TakenIsPositive(takes[1..], id);
    }
  }

  lemma {:induction false} TakesJoinTwoLegs(instrument: string, legs: seq<Position>, longs: seq<Slot>,
                                            shorts: seq<Slot>, takes: seq<Take>)
    requires TakesOfBook(instrument, legs, longs, shorts, takes)
    ensures forall t :: t in takes ==> t.long.id != t.short.id
  {
    forall t | t in takes
      ensures t.long.id != t.short.id
    {
      var a :| a in longs && a.pos == t.long;
      var b :| b in shorts && b.pos == t.short;
      if t.long.id == t.short.id {
        SameId(legs, t.long, t.short);
      }
    }
  }

  /** What booking `takes` leaves in one leg of the book: within it, and within `slack` of flat. */
  ghost predicate Flattened(instrument: string, takes: seq<Take>, venue: real, slack: real, p: Position) {
    var moves := PairLegs(PairsOf(instrument, takes, venue));
    Within(moves, HoldingOf(p)) && Abs(p.Signed() + SignedAt(moves, p.id)) <= slack
  }

  lemma {:induction false} FlattenedLeg(instrument: string, legs: seq<Position>, longs: seq<Slot>, shorts: seq<Slot>,
                                        takes: seq<Take>, venue: real, slack: real, p: Position)
    requires TakesOfBook(instrument, legs, longs, shorts, takes) && Exhausts(longs, shorts, takes, slack)
    requires p in legs
    ensures Flattened(instrument, takes, venue, slack, p)
  {
    hide ClosesAtBasis, PairLegs, PairsOf, SignedAt;
    var moves := PairLegs(PairsOf(instrument, takes, venue));
    TakesJoinTwoLegs(instrument, legs, longs, shorts, takes);
    TakesTotals(instrument, takes, venue, p.id);
    LegAfterTakes(instrument, legs, longs, shorts, takes, p);
    TakenIsPositive(takes, p.id);
    assert IsLong(p) ==> Slot(p, Abs(p.Signed())) in longs;
    assert IsShort(p) ==> Slot(p, Abs(p.Signed())) in shorts;
    forall l | l in moves && l.positionId == p.id
      ensures ClosesAtBasis(l, HoldingOf(p))
    {
      TakesAim(instrument, legs, longs, shorts, takes, venue, l);
    }
  }

  lemma {:induction false} AllFlattened(instrument: string, legs: seq<Position>, longs: seq<Slot>, shorts: seq<Slot>,
                                        takes: seq<Take>, venue: real, slack: real)
    requires TakesOfBook(instrument, legs, longs, shorts, takes) && Exhausts(longs, shorts, takes, slack)
    ensures forall p :: p in legs ==> Flattened(instrument, takes, venue, slack, p)
  {
    forall p | p in legs
      ensures Flattened(instrument, takes, venue, slack, p)
    {
      FlattenedLeg(instrument, legs, longs, shorts, takes, venue, slack, p);
    }
  }

  /** Takes that leave every leg within `slack` of flat repair the book at a flat venue. */
  lemma {:induction false} TakesRepair(instrument: string, legs: seq<Position>, longs: seq<Slot>, shorts: seq<Slot>,
                                       takes: seq<Take>, venue: real, near: real, slack: real)
    requires TakesOfBook(instrument, legs, longs, shorts, takes) && Exhausts(longs, shorts, takes, slack)
    requires Abs(SumBy(legs, SignedOf) - venue) <= near
    ensures Repairs(instrument, legs, PairLegs(PairsOf(instrument, takes, venue)), venue, near, slack)
    ensures forall p :: p in legs ==> Flattened(instrument, takes, venue, slack, p)
  {
    TakesJoinTwoLegs(instrument, legs, longs, shorts, takes);
    TakesTotals(instrument, takes, venue, "");
    AllTakesAim(instrument, legs, longs, shorts, takes, venue);
    AllFlattened(instrument, legs, longs, shorts, takes, venue, slack);
  }

  /** The planner's own takes on a book that nets flat are over its two sides. */
  lemma {:induction false} FlattenTakesOfBook(instrument: string, legs: seq<Position>)
    requires Distinct(legs) && (forall p :: p in legs ==> p.instrument == instrument)
    ensures TakesOfBook(instrument, legs, SideSlots(legs, true), SideSlots(legs, false), FlattenTakes(legs))
  {
    SortedSide(legs, true);
    SortedSide(legs, false);
    TakesAreFromSlots(SideSlots(legs, true), SideSlots(legs, false), QTY_TOLERANCE);
  }

  /** And they exhaust both sides, to within a tolerance per leg. */
  lemma {:induction false} FlattenTakesExhaust(instrument: string, legs: seq<Position>)
    requires Distinct(legs) && |legs| > 2
    requires Abs(SumBy(legs, SignedOf)) <= QTY_TOLERANCE
    ensures Exhausts(SideSlots(legs, true), SideSlots(legs, false), FlattenTakes(legs), Slack(|legs| + 1, QTY_TOLERANCE))
  {
    var longs, shorts := SideSlots(legs, true), SideSlots(legs, false);
    var k, bound := |longs| + |shorts|, Slack(|legs| + 1, QTY_TOLERANCE);
    assert bound >= Abs(SumBy(longs, RemOf) - SumBy(shorts, RemOf)) + Slack(k, QTY_TOLERANCE) by {
      SidesDiffer(legs);
      FlattenSlack(k, |legs|);
    }
    assert bound >= 0.0 by {
      FlattenSlack(0, |legs|);
    }
    assert DistinctSlots(longs) && NonNegative(longs) && DistinctSlots(shorts) && NonNegative(shorts) by {
      SortedSide(legs, true);
      SortedSide(legs, false);
    }
    LegsExhausted(longs, shorts, QTY_TOLERANCE, bound);
  }

  /** Flattening a book that nets flat at a flat venue: each leg ends within a tolerance per leg of flat. */
  lemma {:induction false} FlattenRepairs(instrument: string, legs: seq<Position>, venue: real)
    requires Distinct(legs) && (forall p :: p in legs ==> p.instrument == instrument) && |legs| > 2
    requires Abs(venue) <= QTY_TOLERANCE && Abs(SumBy(legs, SignedOf)) <= QTY_TOLERANCE
    ensures Repairs(instrument, legs, PairLegs(PairsOf(instrument, FlattenTakes(legs), venue)), venue,
                    QTY_TOLERANCE + QTY_TOLERANCE, Slack(|legs| + 1, QTY_TOLERANCE))
    ensures forall p :: p in legs ==>
              Flattened(instrument, FlattenTakes(legs), venue, Slack(|legs| + 1, QTY_TOLERANCE), p)
  {
    FlattenTakesOfBook(instrument, legs);
    FlattenTakesExhaust(instrument, legs);
    FlattenSlack(0, |legs|);
    TakesRepair(instrument, legs, SideSlots(legs, true), SideSlots(legs, false), FlattenTakes(legs), venue,
                QTY_TOLERANCE + QTY_TOLERANCE, Slack(|legs| + 1, QTY_TOLERANCE));
  }

  lemma {:induction false} FlattenSlack(k: nat, n: nat)
    requires k <= n && n > 2
    ensures Slack(n + 1, QTY_TOLERANCE) >= QTY_TOLERANCE + Slack(k, QTY_TOLERANCE)
    ensures Slack(n + 1, QTY_TOLERANCE) >= 2.0 * QTY_TOLERANCE
  {
    SlackStep(n + 1, k, QTY_TOLERANCE);
    SlackStep(n + 1, 0, QTY_TOLERANCE);
  }

  // ---- surplus -------------------------------------------------------------------------------

  /** What the surplus rule found: the only EXTERNAL leg, on top of real lanes that sum to the venue. */
  lemma {:induction false} SurplusFacts(legs: seq<Position>, venue: Qty)
    requires SurplusShape(legs, venue).SurplusLeg?
    ensures var x := SurplusShape(legs, venue).leg;
            && venue.Known?
            && x in legs && IsLong(x) && IsExternal(x)
            && (forall p :: p in legs ==> !IsShort(p))
            && SurplusShape(legs, venue).realSum == SumBy(legs, SignedOf) - x.Signed()
            && Abs(SurplusShape(legs, venue).realSum - venue.v) <= QTY_TOLERANCE
  {
    var longs := Filter(legs, IsLong);
    var external := Filter(longs, IsExternal);
    var x := external[0];
    assert x in external;
    NetBySide(legs);
    ExternalAndReal(longs);
    assert external == [x] && external[1..] == [];
    FilterNone(legs, IsShort);
  }

  /** Closing the one leg `x` whole: every other position stays, and it goes to zero. */
  lemma {:induction false} OneClosed(instrument: string, legs: seq<Position>, x: Position, p: Position)
    requires Distinct(legs) && (forall q :: q in legs ==> q.instrument == instrument)
    requires x in legs && IsLong(x) && p in legs && !IsShort(p)
    ensures var leg := Leg(instrument, x.strategy, x.id, Sell, Abs(x.Signed()), x.avgPx);
            Within([leg], HoldingOf(p)) && p.Signed() + SignedAt([leg], p.id) >= 0.0
  {
    hide Distinct;
    var leg := Leg(instrument, x.strategy, x.id, Sell, Abs(x.Signed()), x.avgPx);
    assert [leg][1..] == [];
    assert SignedAt([leg][1..], p.id) == 0.0;
    if p.id == x.id {
      SameId(legs, p, x);
    }
  }

  lemma {:induction false} SignedOnOne(leg: Leg)
    ensures SignedOn([leg], leg.instrument) == leg.Signed()
  {
    assert [leg][1..] == [];
    assert SignedOn([leg][1..], leg.instrument) == 0.0;
  }

  /** Evicting the one EXTERNAL leg of a surplus book lands the real lanes on the venue. */
  lemma {:induction false} SurplusRepairs(instrument: string, legs: seq<Position>, venue: Qty)
    requires Distinct(legs) && (forall p :: p in legs ==> p.instrument == instrument)
    requires SurplusShape(legs, venue).SurplusLeg?
    ensures var x := SurplusShape(legs, venue).leg;
            var leg := Leg(instrument, x.strategy, x.id, Sell, Abs(x.Signed()), x.avgPx);
            && venue.Known?
            && Repairs(instrument, legs, [leg], venue.v, QTY_TOLERANCE, 0.0)
            && (forall p :: p in legs ==> p.Signed() + SignedAt([leg], p.id) >= 0.0)
  {
    hide SurplusShape, Distinct, SumBy, SignedOn, SignedAt, Within, Aimed;
    SurplusFacts(legs, venue);
    var x := SurplusShape(legs, venue).leg;
    var leg := Leg(instrument, x.strategy, x.id, Sell, Abs(x.Signed()), x.avgPx);
    AimedAt(legs, x, leg);
    SignedOnOne(leg);
    forall p | p in legs
      ensures Within([leg], HoldingOf(p)) && p.Signed() + SignedAt([leg], p.id) >= 0.0
    {
      OneClosed(instrument, legs, x, p);
    }
  }

  lemma {:induction false} ExternalAndReal(longs: seq<Position>)
    ensures SumBy(longs, SignedOf) == SumBy(Filter(longs, IsExternal), SignedOf) + SumBy(Filter(longs, IsReal), SignedOf)
  {
    if longs != [] {
      ExternalAndReal(longs[1..]);
      var e, r := Filter(longs[1..], IsExternal), Filter(longs[1..], IsReal);
      assert ([longs[0]] + e)[1..] == e && ([longs[0]] + r)[1..] == r;
    }
  }

  // ---- one instrument ------------------------------------------------------------------------

  /** What planning an eviction, a surplus eviction or pairs rests on. */
  lemma {:induction false} ActingFacts(instrument: string, legs: seq<Position>, broker: map<string, Qty>,
                                       resting: set<string>, complete: bool)
    ensures var o := PlanInstrument(instrument, legs, broker, resting, complete);
            var venue := BrokerOrZero(broker, instrument);
            && (Acts(o) ==> && (instrument in broker || complete) && venue.Known? && SymbolPart(instrument) !in resting
                            && (forall p :: p in legs ==> p.qty.Known? && p.stamp.Some?))
            && (o.Evicted? ==> NearZero(venue) && o.eviction == EvictAll(instrument, legs, venue.v)
                               && Abs(SumBy(legs, SignedOf)) > QTY_TOLERANCE && complete)
            && (o.SurplusEvicted? ==>
                  && complete && instrument in broker && SurplusShape(legs, venue).SurplusLeg?
                  && var x := SurplusShape(legs, venue).leg;
                     o.surplus == SurplusEviction(instrument,
                       Leg(instrument, x.strategy, x.id, Sell, Abs(x.Signed()), x.avgPx), x.Stamp(), venue.v,
                       SurplusShape(legs, venue).realSum))
            && (o.Paired? && |legs| > 2 ==>
                  && NearZero(venue) && Abs(SumBy(legs, SignedOf)) <= QTY_TOLERANCE
                  && o.pairs == PairsOf(instrument, FlattenTakes(legs), venue.v))
            && (o.Paired? && |legs| <= 2 ==>
                  && Filter(legs, IsLong) != [] && Filter(legs, IsShort) != [] && venue.v >= 0.0
                  && var long, short := Filter(legs, IsLong)[0], Filter(legs, IsShort)[0];
                     && Abs(long.Signed() + short.Signed() - venue.v) <= QTY_TOLERANCE
                     && o.pairs == [PairOf(instrument, long, short,
                                           Min(Abs(long.Signed()), Abs(short.Signed())), venue.v)])
  {
  }

  predicate IsFlatten(o: Outcome, legs: seq<Position>) {
    o.Paired? && |legs| > 2
  }

  /** How near its net comes to the venue's quantity: within the tolerance, of a flatten within twice that. */
  function NetSlack(o: Outcome, legs: seq<Position>): real {
    if IsFlatten(o, legs) then QTY_TOLERANCE + QTY_TOLERANCE else QTY_TOLERANCE
  }

  /** How short a leg may be left: of a flatten by one tolerance per leg and one more, of a pair by one, otherwise by nothing. */
  function ShortSlack(o: Outcome, legs: seq<Position>): real {
    if IsFlatten(o, legs) then Slack(|legs| + 1, QTY_TOLERANCE) else if o.Paired? then QTY_TOLERANCE else 0.0
  }

  /** Acting on an instrument repairs it against a quantity the venue stated. */
  lemma {:induction false} InstrumentRepairs(instrument: string, legs: seq<Position>, broker: map<string, Qty>,
                                             resting: set<string>, complete: bool)
    requires Distinct(legs) && (forall p :: p in legs ==> p.instrument == instrument)
    requires Acts(PlanInstrument(instrument, legs, broker, resting, complete))
    ensures BrokerOrZero(broker, instrument).Known? && (instrument in broker || complete)
    ensures var o := PlanInstrument(instrument, legs, broker, resting, complete);
            Repairs(instrument, legs, OutcomeLegs(o), BrokerOrZero(broker, instrument).v, NetSlack(o, legs), ShortSlack(o, legs))
  {
    hide PlanInstrument, Repairs, Distinct, FlattenTakes, SurplusShape, EvictAll, SumBy, PairsOf;
    var o := PlanInstrument(instrument, legs, broker, resting, complete);
    ActingFacts(instrument, legs, broker, resting, complete);
    var venue := BrokerOrZero(broker, instrument).v;
    match o
    case Evicted(e) =>
      EvictionRepairs(instrument, legs, venue);
    case SurplusEvicted(s) =>
      SurplusRepairs(instrument, legs, broker[instrument]);
    case Paired(pairs) =>
      if |legs| > 2 {
        FlattenRepairs(instrument, legs, venue);
      } else {
        TwoLegRepairs(instrument, legs, venue);
      }
  }
}
