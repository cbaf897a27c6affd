/** A whole repair, small enough to read, that is accepted and leaves an order mapped to a deleted position. */
module CacheDangling {
  import opened Prelude
  import opened CacheReplay
  import opened CacheOrders
  import opened CachePlan
  import opened CacheNet
  import opened CacheApply
  import opened CacheRepaired

  const STOP := "PROT-1"
  const INSTRUMENT := "X.V"
  const PID := "X.V-S"

  /** A lane bought one; its stop was marked rejected, and fired at the venue all the same. */
  function Entry(): Fill {
    Fill("kumo-1", INSTRUMENT, "S", PID, "t-0", "v-0", Buy, 1.0, 10.0, 1, 1, false)
  }

  function Events(): seq<OrderEvent> {
    [Initialized(INSTRUMENT, "S", Sell, 1.0), Accepted("v-1", 2), Rejected("ORDER_NOT_FOUND_AT_VENUE", 3)]
  }

  function Before(): Cache {
    Cache(map[STOP := Events()], map[PID := [Entry()]], {STOP}, {}, {STOP}, {PID}, {PID}, {}, {}, map[])
  }

  function Read(): Image {
    Image(map[STOP := Events()], [STOP], map[PID := [Entry()]], [PID], {INSTRUMENT}, {PID}, map[])
  }

  function Broker(): Venue {
    Venue(map[STOP := VenueOrder("filled", 1.0, Some(9.0), Some(5), "v-1")], map[])
  }

  function Fired1(): Fill {
    Fill(STOP, INSTRUMENT, "S", PID, "v-1-807", "v-1", Sell, 1.0, 9.0, 5, 5, true)
  }

  function Rv(): Revival {
    Revival(STOP, INSTRUMENT, "S", IsRejected, IsFilled,
            [Events()[0], Events()[1], Filled(Fired1())], 0.0, 1.0)
  }

  lemma {:induction false} SingletonSorted(s: string)
    ensures SortedStrings({s}) == [s]
  {
    assert FirstString({s}) == s;
    assert {s} - {s} == {};
  }

  lemma {:induction false} ReadIsWellFormed()
    ensures WellFormed(Read()) && Reads(Read(), Before())
  {
  }

  lemma {:induction false} StopIsCorpse()
    ensures WellFormed(Read()) && Corpses(Read(), Broker()) == {STOP}
  {
    ReadIsWellFormed();
    assert CORPSE_REASONS[0] in CORPSE_REASONS;
    assert IsCorpse(Read(), Broker(), STOP);
  }

  lemma {:induction false} RejectionIsThird()
    ensures FirstRejected(Events()) == 2
    ensures Events()[..2] == [Events()[0], Events()[1]]
    ensures FirstAccepted(Events()[..2]) == Some(Events()[1])
  {
    var events := Events();
    assert events[..2] == [events[0], events[1]];
    assert events[..2][0] == events[0] && events[..2][1..] == [events[1]];
    assert FirstAccepted([events[1]]) == Some(events[1]);
  }

  lemma {:induction false} StopRefilled()
    ensures WellFormed(Read())
    ensures Refilled(Read(), STOP, Broker().orders[STOP]) == Ok((Rv().events, 0.0, 1.0))
  {
    hide FirstRejected, LiveFills;
    ReadIsWellFormed();
    var events, vo := Events(), Broker().orders[STOP];
    RejectionIsThird();
    NoLiveFills();
    assert Entry() in Read().positions[PID];
    assert HasTemplate(Read().positions, INSTRUMENT);
    assert SumBy(Fitting([], 0.0, 1.0), QtyOf) == 0.0;
    assert SyntheticTradeId("v-1") == "v-1-807" && PositionKey(INSTRUMENT, "S") == PID;
    assert Remainder(STOP, events[0], vo, 1.0) == Fired1();
    assert events[..2] + AsEvents([]) + [Filled(Fired1())] == Rv().events;
  }

  lemma {:induction false} StopRevives()
    ensures WellFormed(Read()) && Revive(Read(), STOP, Broker().orders[STOP]) == Ok(Rv())
  {
    hide FirstRejected, FirstAccepted, Refilled, FilledQty;
    StopRefilled();
    RejectionIsThird();
    FilledOfThree();
    assert StatusOf(Rv().events) == IsFilled;
  }

  lemma {:induction false} NoLiveFills()
    ensures WellFormed(Read()) && LiveFills(Read(), STOP) == []
  {
    ReadIsWellFormed();
    var image := Read();
    assert image.positionKeys[1..] == [];
    assert [Entry()][1..] == [];
    assert FillsIn([Entry()], STOP) == [];
    assert FillsOf(image.positions, image.positionKeys, STOP) == [];
  }

  lemma {:induction false} FilledOfThree()
    ensures FilledQty(Rv().events) == 1.0
  {
    var e := Rv().events;
    assert e[1..] == [e[1], e[2]] && e[1..][1..] == [e[2]] && [e[2]][1..] == [];
    assert SumBy([e[2]], FillQty) == 1.0;
    assert SumBy(e[1..], FillQty) == FillQty(e[1]) + SumBy([e[2]], FillQty);
  }

  function Done(): Plan {
    Plan([Rv()], [Rewrite(PID, [], false, false)], map[], [], [], [])
  }

  lemma {:induction false} OneRevival()
    ensures WellFormed(Read()) && ReviveAll(Read(), Broker(), SortedStrings(Corpses(Read(), Broker()))) == Ok(([Rv()], []))
  {
    hide Revive;
    StopIsCorpse();
    StopRevives();
    SingletonSorted(STOP);
    assert [STOP][..0] == [];
    assert [] + [Rv()] == [Rv()];
  }

  lemma {:induction false} LaneFired()
    ensures Fired([Rv()]) == map[Lane(INSTRUMENT, "S") := 5]
  {
    var e := Rv().events;
    assert [Rv()][..0] == [];
    assert e[..2] == [e[0], e[1]] && e[..2][..1] == [e[0]] && [e[0]][..0] == [];
    assert LastFillTs([e[0]]) == 0;
    assert LastFillTs(e[..2]) == 0;
    assert LastFillTs(e) == 5;
  }

  lemma {:induction false} PositionGoes()
    ensures WellFormed(Read()) && PID in Read().positions && Belongs(PID, INSTRUMENT)
    ensures Decide(Read(), map[Lane(INSTRUMENT, "S") := 5], INSTRUMENT, PID) == Rewritten(Rewrite(PID, [], false, false))
  {
    ReadIsWellFormed();
    var raw := Read().positions[PID];
    assert PID[|INSTRUMENT| + 1..] == "S";
    assert raw[..0] == [] && Instances([]) == [];
    assert Instances(raw) == [[Entry()]];
    assert Current(raw) == [Entry()] && [Entry()][1..] == [];
    assert NetOf([Entry()]) == 1.0;
    assert Read().orderKeys[0] == STOP && Read().orderKeys[1..] == [];
    assert LaneFillsOf(Read().orders, Read().orderKeys, Lane(INSTRUMENT, "S"), 5) == [];
    assert LaneFillsAfter(Read(), Lane(INSTRUMENT, "S"), 5) == [];
    assert Current([]) == [];
  }

  lemma {:induction false} PlanIs()
    ensures WellFormed(Read()) && PlanRepair(Read(), Broker()) == Ok(Done())
  {
    hide ReviveAll, Revive, Fired, Decide, Corpses, SortedStrings, WellFormed, Belongs;
    OneRevival();
    LaneFired();
    PositionGoes();
    var fired := map[Lane(INSTRUMENT, "S") := 5];
    assert FiredInstruments(fired) == {INSTRUMENT};
    SingletonSorted(INSTRUMENT);
    SingletonSorted(PID);
    assert Read().positions.Keys == {PID};
    assert [PID][..0] == [] && [INSTRUMENT][..0] == [];
    var rw := Rewrite(PID, [], false, false);
    assert Current([]) == [] && NetOf([]) == 0.0;
    assert [] + [rw] == [rw];
    var none: seq<string> := [];
    assert none + none == none;
    assert DecideAll(Read(), fired, INSTRUMENT, [PID]) == ([rw], [], 0.0);
    assert VenueNet(Broker(), INSTRUMENT) == 0.0;
    assert PlanInstruments(Read(), fired, Broker(), [INSTRUMENT]) == Ok(Planned([rw], map[], []));
  }

  /** The accepted repair deletes the position the revived stop's fill books to, and maps the stop to it. */
  lemma {:induction false} AcceptedRepairMayDangle()
    ensures WellFormed(Read()) && Reads(Read(), Before())
    ensures PlanRepair(Read(), Broker()) == Ok(Done()) && !Done().IsRefused()
    ensures Dangles(Before(), Done(), STOP)
  {
    hide PlanRepair, WellFormed, Apply;
    ReadIsWellFormed();
    PlanIs();
    DanglesIff(Before(), Done(), STOP);
    assert Done().rewrites[0] in Done().rewrites;
    assert PID in Deleted(Done().rewrites);
    assert Done().revivals[0] in Done().revivals;
    assert LastPid(Rv().events) == Some(PID);
  }
}
