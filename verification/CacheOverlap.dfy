/**
 One position, two instruments: a whole repair that is planned without a refusal and written, and leaves an instrument off the
 venue, because the id of the other begins with its own and a dash and the position they share was decided under both.
 */
module CacheOverlap {
  import opened Prelude
  import opened CacheReplay
  import opened CacheOrders
  import opened CachePlan
  import opened CacheNet
  import opened CacheApply
  import opened CacheRepaired

  const SHORTER := "X.V"
  const LONGER := "X.V-Y"
  const OWN := "X.V-T"
  const SHARED := "X.V-Y-S"

  function Bought(coid: string, instrument: string, strategy: string, pid: string, qty: real, ts: int): Fill {
    Fill(coid, instrument, strategy, pid, "t", "v", Buy, qty, 10.0, ts, ts, false)
  }

  /** One share in each of two lanes, one on each instrument; the second lane bought two more after its stop had fired. */
  function Held(): map<string, seq<Fill>> {
    map[OWN := [Bought("kumo-1", SHORTER, "T", OWN, 1.0, 1)], SHARED := [Bought("kumo-2", LONGER, "S", SHARED, 1.0, 2)]]
  }

  function Later(): Fill {
    Bought("kumo-3", LONGER, "S", SHARED, 2.0, 7)
  }

  /** A stop the venue filled and the cache holds rejected. */
  function Rejection(instrument: string, strategy: string, venueOrderId: string): seq<OrderEvent> {
    [Initialized(instrument, strategy, Side.Sell, 1.0), Accepted(venueOrderId, 2), Rejected("ORDER_NOT_FOUND_AT_VENUE", 3)]
  }

  function Stopped(venueOrderId: string): VenueOrder {
    VenueOrder("filled", 1.0, Some(9.0), Some(5), venueOrderId)
  }

  function Orders(): map<string, seq<OrderEvent>> {
    map["PROT-1" := Rejection(SHORTER, "Z", "v-1"), "PROT-2" := Rejection(LONGER, "S", "v-2"),
        "kumo-3" := [Initialized(LONGER, "S", Side.Buy, 2.0), Filled(Later())]]
  }

  function Cached(): Image {
    Image(Orders(), ["PROT-1", "PROT-2", "kumo-3"], Held(), [OWN, SHARED], {SHORTER, LONGER}, {OWN, SHARED}, map[])
  }

  function Before(): Cache {
    Cache(Orders(), Held(), {"PROT-1", "PROT-2", "kumo-3"}, {}, {"PROT-1", "PROT-2", "kumo-3"},
          {OWN, SHARED}, {OWN, SHARED}, {}, {}, map[])
  }

  /** The broker holds two, all under the one symbol, and has filled both stops. */
  function Broker(): Venue {
    Venue(map["PROT-1" := Stopped("v-1"), "PROT-2" := Stopped("v-2")], map["X" := 2.0])
  }

  /** A stop as it is revived: accepted, and filled at the venue's price and time. */
  function Revived(coid: string, instrument: string, strategy: string, venueOrderId: string): Revival {
    var events := Rejection(instrument, strategy, venueOrderId);
    Revival(coid, instrument, strategy, IsRejected, IsFilled,
            [events[0], events[1], Filled(Remainder(coid, events[0], Stopped(venueOrderId), 1.0))], 0.0, 1.0)
  }

  /** The first fired in a lane that holds nothing, the second in the lane of the shared position. */
  function Stops(): seq<Revival> {
    [Revived("PROT-1", SHORTER, "Z", "v-1"), Revived("PROT-2", LONGER, "S", "v-2")]
  }

  function FiredLanes(): map<Lane, int> {
    map[Lane(SHORTER, "Z") := 5, Lane(LONGER, "S") := 5]
  }

  // ---- the names -----------------------------------------------------------------------------------

  lemma {:induction false} Reading()
    ensures Belongs(OWN, SHORTER) && Belongs(SHARED, SHORTER) && !Belongs(OWN, LONGER) && Belongs(SHARED, LONGER)
    ensures StrategyOf(OWN, SHORTER) == "T" && StrategyOf(SHARED, SHORTER) == "Y-S" && StrategyOf(SHARED, LONGER) == "S"
    ensures OWN != SHARED && SHORTER != LONGER
    ensures SymbolOf(SHORTER) == "X" && SymbolOf(LONGER) == "X"
  {
    assert OWN[4] == 'T' && SHARED[4] == 'Y';
    assert |SHORTER| == 3 && |LONGER| == 5;
    assert SHORTER[0] == 'X' && SHORTER[1] == '.' && LONGER[0] == 'X' && LONGER[1] == '.';
    assert SymbolOf(SHORTER[1..]) == [] && SymbolOf(LONGER[1..]) == [];
  }

  lemma {:induction false} SortedPair(a: string, b: string)
    requires a != b && !StrLe(b, a)
    ensures SortedStrings({a, b}) == [a, b]
  {
    assert FirstString({a, b}) == a;
    assert {a, b} - {a} == {b} && {b} - {b} == {};
    assert FirstString({b}) == b;
    assert SortedStrings({}) == [];
    assert SortedStrings({b}) == [b];
  }

  lemma {:induction false} StrLePrefix(p: string, a: string, b: string)
    ensures StrLe(p + a, p + b) == StrLe(a, b)
  {
    if p == "" {
      assert p + a == a && p + b == b;
    } else {
      assert (p + a)[1..] == p[1..] + a && (p + b)[1..] == p[1..] + b;
      StrLePrefix(p[1..], a, b);
    }
  }

  lemma {:induction false} InOrder()
    ensures SortedStrings({SHORTER, LONGER}) == [SHORTER, LONGER] && SortedStrings({OWN, SHARED}) == [OWN, SHARED]
    ensures SortedStrings({"PROT-1", "PROT-2"}) == ["PROT-1", "PROT-2"]
  {
    Reading();
    StrLePrefix("X.V", "-Y", "");
    assert LONGER == "X.V" + "-Y" && SHORTER == "X.V" + "";
    StrLePrefix("X.V-", "Y-S", "T");
    assert SHARED == "X.V-" + "Y-S" && OWN == "X.V-" + "T";
    StrLePrefix("PROT-", "2", "1");
    assert "PROT-2" == "PROT-" + "2" && "PROT-1" == "PROT-" + "1";
    assert "PROT-2"[5] == '2' && "PROT-1"[5] == '1';
    SortedPair(SHORTER, LONGER);
    SortedPair(OWN, SHARED);
    SortedPair("PROT-1", "PROT-2");
  }

  lemma {:induction false} Apart()
    ensures "PROT-1" != "PROT-2" && "PROT-1" != "kumo-3" && "PROT-2" != "kumo-3"
    ensures Orders()["PROT-1"] == Rejection(SHORTER, "Z", "v-1") && Orders()["PROT-2"] == Rejection(LONGER, "S", "v-2")
    ensures Broker().orders["PROT-1"] == Stopped("v-1") && Broker().orders["PROT-2"] == Stopped("v-2")
    ensures Held()[OWN] == [Bought("kumo-1", SHORTER, "T", OWN, 1.0, 1)]
  {
    Reading();
    assert "PROT-1"[5] == '1' && "PROT-2"[5] == '2' && "PROT-1"[0] == 'P' && "PROT-2"[0] == 'P' && "kumo-3"[0] == 'k';
  }

  lemma {:induction false} CachedReads()
    ensures WellFormed(Cached()) && Reads(Cached(), Before())
  {
    Apart();
  }

  // ---- both stops are revived ----------------------------------------------------------------------

  lemma {:induction false} BothCorpses()
    ensures WellFormed(Cached()) && Corpses(Cached(), Broker()) == {"PROT-1", "PROT-2"}
  {
    CachedReads();
    Apart();
    assert CORPSE_REASONS[0] in CORPSE_REASONS;
    assert IsCorpse(Cached(), Broker(), "PROT-1") && IsCorpse(Cached(), Broker(), "PROT-2");
    assert !IsCorpse(Cached(), Broker(), "kumo-3");
  }

  lemma {:induction false} RejectionIsThird(instrument: string, strategy: string, v: string)
    ensures var events := Rejection(instrument, strategy, v);
            && FirstRejected(events) == 2 && events[..2] == [events[0], events[1]]
            && FirstAccepted(events[..2]) == Some(events[1])
  {
    var events := Rejection(instrument, strategy, v);
    assert events[1..] == [events[1], events[2]] && events[1..][1..] == [events[2]];
    assert FirstRejected([events[2]]) == 0;
    assert FirstRejected(events[1..]) == 1;
    assert events[..2] == [events[0], events[1]];
    assert events[..2][0] == events[0] && events[..2][1..] == [events[1]];
    assert FirstAccepted([events[1]]) == Some(events[1]);
  }

  lemma {:induction false} NoLiveFills(coid: string)
    requires coid != "kumo-1" && coid != "kumo-2"
    ensures WellFormed(Cached()) && LiveFills(Cached(), coid) == []
  {
    CachedReads();
    Apart();
    var image := Cached();
    var own, shared := image.positions[OWN], image.positions[SHARED];
    assert own[1..] == [] && shared[1..] == [];
    assert FillsIn([], coid) == [] && FillsIn(own, coid) == [] && FillsIn(shared, coid) == [];
    assert image.positionKeys[1..] == [SHARED] && [SHARED][1..] == [];
    assert FillsOf(image.positions, [], coid) == [] && FillsOf(image.positions, [SHARED], coid) == [];
    assert FillsOf(image.positions, image.positionKeys, coid) == [];
  }

  lemma {:induction false} HasFills(instrument: string)
    requires instrument in {SHORTER, LONGER}
    ensures HasTemplate(Cached().positions, instrument)
  {
    Reading();
    assert Held()[OWN][0] in Cached().positions[OWN] && Held()[SHARED][0] in Cached().positions[SHARED];
  }

  lemma {:induction false} StopRefilled(coid: string, instrument: string, strategy: string, v: string)
    requires coid in Orders() && Orders()[coid] == Rejection(instrument, strategy, v)
    requires coid != "kumo-1" && coid != "kumo-2" && instrument in {SHORTER, LONGER}
    ensures WellFormed(Cached())
    ensures Refilled(Cached(), coid, Stopped(v)) == Ok((Revived(coid, instrument, strategy, v).events, 0.0, 1.0))
  {
    hide FirstRejected, LiveFills, PositionKey, SyntheticTradeId, HasTemplate, Held, Orders;
    CachedReads();
    var events := Rejection(instrument, strategy, v);
    RejectionIsThird(instrument, strategy, v);
    NoLiveFills(coid);
    HasFills(instrument);
    assert SumBy(Fitting([], 0.0, 1.0), QtyOf) == 0.0;
    assert events[..2] + AsEvents([]) + [Filled(Remainder(coid, events[0], Stopped(v), 1.0))]
        == Revived(coid, instrument, strategy, v).events;
  }

  lemma {:induction false} FilledWhole(coid: string, instrument: string, strategy: string, v: string)
    ensures FilledQty(Revived(coid, instrument, strategy, v).events) == 1.0
    ensures StatusOf(Revived(coid, instrument, strategy, v).events) == IsFilled
  {
    var e := Revived(coid, instrument, strategy, v).events;
    assert e[1..] == [e[1], e[2]] && e[1..][1..] == [e[2]] && [e[2]][1..] == [];
    assert SumBy([e[2]], FillQty) == 1.0;
    assert SumBy(e[1..], FillQty) == FillQty(e[1]) + SumBy([e[2]], FillQty);
  }

  lemma {:induction false} StopRevives(coid: string, instrument: string, strategy: string, v: string)
    requires coid in Orders() && Orders()[coid] == Rejection(instrument, strategy, v)
    requires coid != "kumo-1" && coid != "kumo-2" && instrument in {SHORTER, LONGER}
    ensures WellFormed(Cached()) && StatusOf(Cached().orders[coid]).IsRejected?
    ensures Revive(Cached(), coid, Stopped(v)) == Ok(Revived(coid, instrument, strategy, v))
  {
    hide FirstRejected, FirstAccepted, Refilled, FilledQty, PositionKey, SyntheticTradeId;
    StopRefilled(coid, instrument, strategy, v);
    RejectionIsThird(instrument, strategy, v);
    FilledWhole(coid, instrument, strategy, v);
  }

  lemma {:induction false} BothRevived()
    ensures WellFormed(Cached())
    ensures ReviveAll(Cached(), Broker(), SortedStrings(Corpses(Cached(), Broker()))) == Ok((Stops(), []))
  {
    hide Revive, Corpses, SortedStrings, StatusOf, FilledQty, PositionKey, SyntheticTradeId;
    Apart();
    BothCorpses();
    InOrder();
    assert "PROT-1"[0] == 'P' && "PROT-2"[0] == 'P' && "kumo-1"[0] == 'k' && "kumo-2"[0] == 'k';
    StopRevives("PROT-1", SHORTER, "Z", "v-1");
    StopRevives("PROT-2", LONGER, "S", "v-2");
    assert ["PROT-1", "PROT-2"][..1] == ["PROT-1"] && ["PROT-1"][..0] == [];
    assert ReviveAll(Cached(), Broker(), []) == Ok(([], []));
    assert [] + [Stops()[0]] == Stops()[..1];
    assert ReviveAll(Cached(), Broker(), ["PROT-1"]) == Ok((Stops()[..1], []));
    assert Stops()[..1] + [Stops()[1]] == Stops();
  }

  lemma {:induction false} LastIsFive(coid: string, instrument: string, strategy: string, v: string)
    ensures LastFillTs(Revived(coid, instrument, strategy, v).events) == 5
  {
    var e := Revived(coid, instrument, strategy, v).events;
    assert e[..2] == [e[0], e[1]] && e[..2][..1] == [e[0]] && [e[0]][..0] == [];
    assert LastFillTs([e[0]]) == 0;
    assert LastFillTs(e[..2]) == 0;
  }

  lemma {:induction false} BothFired()
    ensures Fired(Stops()) == FiredLanes() && FiredInstruments(FiredLanes()) == {SHORTER, LONGER}
  {
    hide LastFillTs;
    Reading();
    var a, b := Stops()[0], Stops()[1];
    assert Stops()[..1] == [a] && [a][..0] == [];
    LastIsFive("PROT-1", SHORTER, "Z", "v-1");
    LastIsFive("PROT-2", LONGER, "S", "v-2");
    assert Fired([a]) == map[Lane(SHORTER, "Z") := 5];
    assert Lane(SHORTER, "Z") in FiredLanes() && Lane(LONGER, "S") in FiredLanes();
  }

  // ---- the decisions -------------------------------------------------------------------------------

  lemma {:induction false} OneFill(f: Fill)
    ensures Current([f]) == [f] && NetOf([f]) == Signed(f)
  {
    assert [f][..0] == [] && [f][1..] == [];
    assert Instances([]) == [];
    assert Instances([f]) == [[f]];
    assert SumBy([f], Signed) == Signed(f) + SumBy([f][1..], Signed);
  }

  lemma {:induction false} LaterFills()
    ensures WellFormed(Cached()) && LaneFillsAfter(Cached(), Lane(LONGER, "S"), 5) == [Later()]
  {
    CachedReads();
    Apart();
    var events := Orders()["kumo-3"];
    var lane := Lane(LONGER, "S");
    var keys := Cached().orderKeys;
    assert events[1..] == [events[1]] && [events[1]][1..] == [];
    assert LaneFillsIn([events[1]], lane, 5) == [Later()];
    assert LaneFillsIn(events, lane, 5) == [Later()];
    assert StartsWith("kumo-3", "kumo-");
    assert "PROT-1"[0] == 'P' && "PROT-2"[0] == 'P' && "kumo-"[0] == 'k';
    assert keys[1..] == ["PROT-2", "kumo-3"] && keys[1..][1..] == ["kumo-3"] && ["kumo-3"][1..] == [];
    assert LaneFillsOf(Cached().orders, [], lane, 5) == [];
    assert LaneFillsOf(Cached().orders, ["kumo-3"], lane, 5) == [Later()];
    assert LaneFillsOf(Cached().orders, keys[1..], lane, 5) == [Later()];
    assert [Later()][1..] == [];
  }

  lemma {:induction false} OwnStays()
    ensures WellFormed(Cached()) && Belongs(OWN, SHORTER)
    ensures Decide(Cached(), FiredLanes(), SHORTER, OWN) == Rewritten(Rewrite(OWN, Held()[OWN], true, true))
  {
    hide StrategyOf, Belongs;
    Reading();
    var f := Held()[OWN][0];
    OneFill(f);
    assert f in Current(Held()[OWN]) && COCKPIT_PREFIXES[0] == "kumo-" && StartsWith(f.coid, "kumo-");
  }

  /** Read as the shorter instrument's, in a lane that did not fire, the shared position stays as it is. */
  lemma {:induction false} SharedStays()
    ensures WellFormed(Cached()) && Belongs(SHARED, SHORTER)
    ensures Decide(Cached(), FiredLanes(), SHORTER, SHARED) == Rewritten(Rewrite(SHARED, Held()[SHARED], true, true))
  {
    hide StrategyOf, Belongs;
    Reading();
    var f := Held()[SHARED][0];
    OneFill(f);
    assert Lane(SHORTER, "Y-S") !in FiredLanes() by {
      assert "Y-S"[0] == 'Y' && "Z"[0] == 'Z';
    }
    assert f in Current(Held()[SHARED]) && COCKPIT_PREFIXES[0] == "kumo-" && StartsWith(f.coid, "kumo-");
  }

  /** Read as the longer's, in the lane that fired, it becomes what the lane bought afterwards. */
  lemma {:induction false} SharedMoves()
    ensures WellFormed(Cached()) && Belongs(SHARED, LONGER)
    ensures Decide(Cached(), FiredLanes(), LONGER, SHARED) == Rewritten(Rewrite(SHARED, [Later()], true, false))
  {
    hide StrategyOf, Belongs, LaneFillsAfter;
    Reading();
    LaterFills();
    OneFill(Held()[SHARED][0]);
    OneFill(Later());
    assert Held()[SHARED][0].qty != Later().qty;
  }

  function Rewrites(): seq<Rewrite> {
    [Rewrite(OWN, Held()[OWN], true, true), Rewrite(SHARED, Held()[SHARED], true, true), Rewrite(SHARED, [Later()], true, false)]
  }

  lemma {:induction false} ShorterDecided()
    ensures WellFormed(Cached())
    ensures DecideAll(Cached(), FiredLanes(), SHORTER, [OWN, SHARED]) == (Rewrites()[..2], [], 2.0)
  {
    hide Decide, Belongs, StrategyOf, NetOf, Current;
    OwnStays();
    SharedStays();
    OneFill(Held()[OWN][0]);
    OneFill(Held()[SHARED][0]);
    assert [OWN, SHARED][..1] == [OWN] && [OWN][..0] == [];
    assert DecideAll(Cached(), FiredLanes(), SHORTER, []) == ([], [], 0.0);
    assert DecideAll(Cached(), FiredLanes(), SHORTER, [OWN]) == (Rewrites()[..1], [], 1.0) by {
      assert [] + [Rewrites()[0]] == Rewrites()[..1];
    }
    assert Rewrites()[..1] + [Rewrites()[1]] == Rewrites()[..2];
  }

  lemma {:induction false} LongerDecided()
    ensures WellFormed(Cached())
    ensures DecideAll(Cached(), FiredLanes(), LONGER, [OWN, SHARED]) == ([Rewrites()[2]], [], 2.0)
  {
    hide Decide, Belongs, StrategyOf, NetOf, Current;
    Reading();
    SharedMoves();
    OneFill(Later());
    assert [OWN, SHARED][..1] == [OWN] && [OWN][..0] == [];
    assert DecideAll(Cached(), FiredLanes(), LONGER, []) == ([], [], 0.0);
    assert DecideAll(Cached(), FiredLanes(), LONGER, [OWN]) == ([], [], 0.0);
    assert [] + [Rewrites()[2]] == [Rewrites()[2]];
  }

  lemma {:induction false} PlannedIs()
    ensures WellFormed(Cached())
    ensures PlanInstruments(Cached(), FiredLanes(), Broker(), [SHORTER, LONGER]) == Ok(Planned(Rewrites(), map[], []))
  {
    hide DecideAll, SortedStrings, SymbolOf, WellFormed;
    ShorterDecided();
    LongerDecided();
    InOrder();
    Reading();
    assert Cached().positions.Keys == {OWN, SHARED};
    assert [SHORTER, LONGER][..1] == [SHORTER] && [SHORTER][..0] == [];
    var two := Rewrites()[..2];
    assert [] + two == two && two + [Rewrites()[2]] == Rewrites();
    var none: seq<string> := [];
    assert none + none == none;
    assert PlanInstruments(Cached(), FiredLanes(), Broker(), []) == Ok(Planned([], map[], []));
    assert PlanInstruments(Cached(), FiredLanes(), Broker(), [SHORTER]) == Ok(Planned(two, map[], []));
  }

  // ---- where it ends -------------------------------------------------------------------------------

  lemma {:induction false} AfterPut()
    ensures PutAll(Held(), Rewrites()) == Held()[SHARED := [Later()]]
  {
    var rs := Rewrites();
    assert rs[..2][..1][..0] == [] && rs[..2][..1] == [rs[0]] && rs[..2] == [rs[0], rs[1]];
    assert PutAll(Held(), rs[..2][..1]) == Held();
    assert PutAll(Held(), rs[..2]) == Held();
  }

  lemma {:induction false} NetIsThree()
    ensures InstrumentNet(Held()[SHARED := [Later()]], SHORTER) == 3.0
  {
    hide Belongs, Current, NetOf;
    var after := Held()[SHARED := [Later()]];
    var f := OnInstrument(after, SHORTER);
    Reading();
    OneFill(Held()[OWN][0]);
    OneFill(Later());
    SumSetWithout(after.Keys, OWN, f);
    assert after.Keys - {OWN} == {SHARED};
    SumSetWithout({SHARED}, SHARED, f);
    assert {SHARED} - {SHARED} == {};
    assert SumSet({}, f) == 0.0;
  }

  function Done(): Plan {
    Plan(Stops(), Rewrites(), map[], [], [], [])
  }

  lemma {:induction false} PlanIs()
    ensures WellFormed(Cached()) && PlanRepair(Cached(), Broker()) == Ok(Done())
    ensures Touched(Stops()) == [SHORTER, LONGER]
  {
    hide ReviveAll, Corpses, SortedStrings, WellFormed, PlanInstruments, Fired, FiredInstruments;
    BothRevived();
    BothFired();
    InOrder();
    PlannedIs();
  }

  /**
   Two stops have filled at the venue, on two instruments, the id of one the beginning of the other's. The repair is planned
   without a refusal, its net over each of the two being the two shares the venue holds, and written it leaves the first
   of them three: the position both read was counted for the first as it was before the second rewrote it.
   */
  lemma {:induction false} OverlapMissesTheVenue()
    ensures WellFormed(Cached()) && Reads(Cached(), Before())
    ensures PlanRepair(Cached(), Broker()) == Ok(Done()) && !Done().IsRefused()
    ensures SHORTER in Touched(Done().revivals)
    ensures InstrumentNet(Apply(Before(), Done()).positions, SHORTER) == 3.0 && VenueNet(Broker(), SHORTER) == 2.0
  {
    hide PlanRepair, Touched, WellFormed, Reads, Apply, PutAll, InstrumentNet, SymbolOf;
    CachedReads();
    PlanIs();
    WrittenPositions(Before(), Done());
    AfterPut();
    NetIsThree();
    Reading();
    assert SHORTER in [SHORTER, LONGER];
  }
}
