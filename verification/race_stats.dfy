// The race view's derived data: the style of an event row by severity, the
// per-driver statistics table computed from the simulated laps, and the
// table's sort order with the header click that changes it.

module RaceStats {
  import opened Wrappers
  import opened Strings
  import opened Seqs
  import opened Sorting
  import opened Types
  import opened DriverNames

  /** The CSS classes of an event row (the class string is these words
      joined by spaces). Minor and unrated events get no colour. */
  function SeverityClasses(severity: Option<Severity>): seq<string>
  {
    match severity
    case Some(Moderate) => ["border-l-4", "border-yellow-500", "bg-yellow-900/20"]
    case Some(Major) => ["border-l-4", "border-red-500", "bg-red-900/20", "animate-pulse-border"]
    case _ => ["border-l-4", "border-transparent"]
  }

  /** Every row has the left border; only a major event pulses, and only
      the uncoloured rows have a transparent border. */
  lemma SeverityClassesFacts(severity: Option<Severity>)
    ensures var c := SeverityClasses(severity);
      && |c| >= 2 && c[0] == "border-l-4"
      && ("animate-pulse-border" in c <==> severity == Some(Major))
      && ("border-transparent" in c <==> severity !in {Some(Moderate), Some(Major)})
      && ("border-yellow-500" in c <==> severity == Some(Moderate))
      && ("border-red-500" in c <==> severity == Some(Major))
  {
    var c := SeverityClasses(severity);
    assert "animate-pulse-border"[0] == 'a' && "border-transparent"[7] == 't';
    if severity == Some(Major) {
      assert c[3] == "animate-pulse-border";
    } else if severity != Some(Moderate) {
      assert c[1] == "border-transparent";
    }
  }

  /** `simulation.flatMap(l => l.events)`: the events of every lap in lap order. */
  function AllEvents(simulation: seq<LapSimulation>): (r: seq<RaceEvent>)
  {
    if simulation == [] then []
    else AllEvents(simulation[..|simulation| - 1]) + simulation[|simulation| - 1].events
  }

  /** An event is among all events exactly when some lap has it. */
  lemma {:induction false} AllEventsMembers(simulation: seq<LapSimulation>, e: RaceEvent)
    ensures e in AllEvents(simulation) <==> exists l :: 0 <= l < |simulation| && e in simulation[l].events
  {
    if simulation != [] {
      var init := simulation[..|simulation| - 1];
      AllEventsMembers(init, e);
      if e in AllEvents(init) {
        var l :| 0 <= l < |init| && e in init[l].events;
        assert simulation[l] == init[l];
      }
      if exists l :: 0 <= l < |simulation| && e in simulation[l].events {
        var l :| 0 <= l < |simulation| && e in simulation[l].events;
        if l < |init| {
          assert init[l] == simulation[l];
        }
      }
    }
  }

  /** The first event of the given kind, as `find` returns it. */
  function FirstOfKind(events: seq<RaceEvent>, kind: EventType): (r: Option<RaceEvent>)
    ensures r.None? <==> forall i :: 0 <= i < |events| ==> events[i].kind != kind
    ensures r.Some? ==> exists i :: 0 <= i < |events| && events[i] == r.value && r.value.kind == kind &&
                                   (forall j :: 0 <= j < i ==> events[j].kind != kind)
  {
    if events == [] then None
    else if events[0].kind == kind then Some(events[0])
    else
      var r := FirstOfKind(events[1..], kind);
      assert forall j :: 1 <= j < |events| ==> events[j] == events[1..][j - 1];
      r
  }

  /** The driver credited with the fastest lap: the first name in the
      description of the first fastest-lap event, if there is one. */
  function FastestLapDriver(simulation: seq<LapSimulation>): Option<string>
  {
    match FirstOfKind(AllEvents(simulation), FastestLap)
    case None => None
    case Some(e) => FirstName(e.description)
  }

  /** An event that counts for `driver` under `kind`: of that kind, and
      its description contains the driver's name. */
  predicate Counts(e: RaceEvent, driver: string, kind: EventType)
  {
    e.kind == kind && Contains(e.description, driver)
  }

  /** How many of the events count for `driver` under `kind`. */
  function CountOf(events: seq<RaceEvent>, driver: string, kind: EventType): nat
  {
    if events == [] then 0
    else CountOf(events[..|events| - 1], driver, kind) + (if Counts(events[|events| - 1], driver, kind) then 1 else 0)
  }

  lemma CountOfSnoc(events: seq<RaceEvent>, e: RaceEvent, driver: string, kind: EventType)
    ensures CountOf(events + [e], driver, kind) == CountOf(events, driver, kind) + (if Counts(e, driver, kind) then 1 else 0)
  {
    assert (events + [e])[..|events|] == events;
  }

  /** The inner loop of the tally: the counters, holding the counts over
      `done`, step through the events of one more lap. */
  method TallyLap(done: seq<RaceEvent>, events: seq<RaceEvent>, driver: string, pit0: nat, overtake0: nat, drs0: nat)
    returns (pitStops: nat, overtakes: nat, drsUses: nat)
    requires pit0 == CountOf(done, driver, Pit)
    requires overtake0 == CountOf(done, driver, Overtake)
    requires drs0 == CountOf(done, driver, Drs)
    ensures pitStops == CountOf(done + events, driver, Pit)
    ensures overtakes == CountOf(done + events, driver, Overtake)
    ensures drsUses == CountOf(done + events, driver, Drs)
  {
    pitStops, overtakes, drsUses := pit0, overtake0, drs0;
    var k := 0;
    assert done + events[..k] == done;
    while k < |events|
      invariant 0 <= k <= |events|
      invariant pitStops == CountOf(done + events[..k], driver, Pit)
      invariant overtakes == CountOf(done + events[..k], driver, Overtake)
      invariant drsUses == CountOf(done + events[..k], driver, Drs)
    {
      var seen, event := done + events[..k], events[k];
      assert done + events[..k + 1] == seen + [event];
      CountOfSnoc(seen, event, driver, Pit);
      CountOfSnoc(seen, event, driver, Overtake);
      CountOfSnoc(seen, event, driver, Drs);
      if Contains(event.description, driver) {
        if event.kind == Pit { pitStops := pitStops + 1; }
        if event.kind == Overtake { overtakes := overtakes + 1; }
        if event.kind == Drs { drsUses := drsUses + 1; }
      }
      k := k + 1;
    }
    assert events[..k] == events;
  }

  /** The tally loop of the statistics: every event of every lap whose
      description names the driver adds one to the counter of its kind. */
  method TallyEvents(simulation: seq<LapSimulation>, driver: string) returns (pitStops: nat, overtakes: nat, drsUses: nat)
    ensures pitStops == CountOf(AllEvents(simulation), driver, Pit)
    ensures overtakes == CountOf(AllEvents(simulation), driver, Overtake)
    ensures drsUses == CountOf(AllEvents(simulation), driver, Drs)
  {
    pitStops, overtakes, drsUses := 0, 0, 0;
    var l := 0;
    while l < |simulation|
      invariant 0 <= l <= |simulation|
      invariant pitStops == CountOf(AllEvents(simulation[..l]), driver, Pit)
      invariant overtakes == CountOf(AllEvents(simulation[..l]), driver, Overtake)
      invariant drsUses == CountOf(AllEvents(simulation[..l]), driver, Drs)
    {
      var done := AllEvents(simulation[..l]);
      pitStops, overtakes, drsUses := TallyLap(done, simulation[l].events, driver, pitStops, overtakes, drsUses);
      assert simulation[..l + 1][..l] == simulation[..l];
      assert AllEvents(simulation[..l + 1]) == done + simulation[l].events;
      l := l + 1;
    }
    assert simulation[..l] == simulation;
  }

  /** `positions.find(p => p.driver === driver)?.position || 0`: the
      position of the driver's first entry, 0 when there is none (a
      position of 0 also yields 0, so `|| 0` changes nothing else). */
  function FinalPosition(positions: seq<GridEntry>, driver: string): (r: int)
    ensures (forall i :: 0 <= i < |positions| ==> positions[i].driver != driver) ==> r == 0
    ensures (exists i :: 0 <= i < |positions| && positions[i].driver == driver) ==>
      exists i :: 0 <= i < |positions| && positions[i].driver == driver && r == positions[i].position &&
                  (forall j :: 0 <= j < i ==> positions[j].driver != driver)
  {
    if positions == [] then 0
    else if positions[0].driver == driver then positions[0].position
    else
      var r := FinalPosition(positions[1..], driver);
      assert forall j :: 1 <= j < |positions| ==> positions[j] == positions[1..][j - 1];
      assert (exists i :: 0 <= i < |positions| && positions[i].driver == driver) ==>
             (exists i :: 0 <= i < |positions[1..]| && positions[1..][i].driver == driver) by {
        if exists i :: 0 <= i < |positions| && positions[i].driver == driver {
          var i :| 0 <= i < |positions| && positions[i].driver == driver;
          assert positions[1..][i - 1].driver == driver;
        }
      }
      r
  }

  /** The statistics row of one driver. */
  function StatsFor(simulation: seq<LapSimulation>, finalPositions: seq<GridEntry>, fastest: Option<string>, driver: string): DriverStats
  {
    var events := AllEvents(simulation);
    DriverStats(
      driver,
      FinalPosition(finalPositions, driver),
      CountOf(events, driver, Pit),
      CountOf(events, driver, Overtake),
      CountOf(events, driver, Drs),
      fastest == Some(driver))
  }

  /** One row per entry of the final lap's running order, in that order;
      nothing for an empty simulation. */
  function UnsortedStats(simulation: seq<LapSimulation>): (r: seq<DriverStats>)
    ensures simulation == [] ==> r == []
    ensures simulation != [] ==>
      var positions := simulation[|simulation| - 1].positions;
      && |r| == |positions|
      && forall i :: 0 <= i < |r| ==> r[i] == StatsFor(simulation, positions, FastestLapDriver(simulation), positions[i].driver)
  {
    if simulation == [] then []
    else
      var positions := simulation[|simulation| - 1].positions;
      var fastest := FastestLapDriver(simulation);
      Map((p: GridEntry) => StatsFor(simulation, positions, fastest, p.driver), positions)
  }

  /** The columns the table can be sorted on (`keyof DriverStats`). */
  datatype StatKey = DriverColumn | FinalPositionColumn | PitStopsColumn | OvertakesColumn | DrsUsesColumn | FastestLapColumn

  datatype Direction = Asc | Desc

  datatype SortConfig = SortConfig(key: StatKey, direction: Direction)

  /** The table starts sorted by final position, ascending. */
  const InitialSort: Option<SortConfig> := Some(SortConfig(FinalPositionColumn, Asc))

  /** The value compared by `<` and `>` in the comparator; booleans
      compare as numbers, `false` below `true`. */
  function ColumnValue(key: StatKey, s: DriverStats): Key
  {
    match key
    case DriverColumn => Text(s.driver)
    case FinalPositionColumn => Num(s.finalPosition)
    case PitStopsColumn => Num(s.pitStops)
    case OvertakesColumn => Num(s.overtakes)
    case DrsUsesColumn => Num(s.drsUses)
    case FastestLapColumn => Num(if s.hasFastestLap then 1 else 0)
  }

  /** The statistics as shown: sorted by the chosen column in the chosen
      direction, or in running order when no sort is set. */
  function DriverStatsTable(simulation: seq<LapSimulation>, config: Option<SortConfig>): (r: seq<DriverStats>)
    ensures config.None? ==> r == UnsortedStats(simulation)
    ensures |r| == |UnsortedStats(simulation)|
    ensures multiset(r) == multiset(UnsortedStats(simulation))
    ensures config.Some? ==> Sorted(r, s => ColumnValue(config.value.key, s), config.value.direction == Desc)
  {
    var stats := UnsortedStats(simulation);
    match config
    case None => stats
    case Some(c) => SortBy(stats, s => ColumnValue(c.key, s), c.direction == Desc)
  }

  /** The rows follow the final lap's running order, one per entry. */
  lemma StatsDrivers(simulation: seq<LapSimulation>)
    requires simulation != []
    ensures var positions := simulation[|simulation| - 1].positions;
      var stats := UnsortedStats(simulation);
      |stats| == |positions| && forall i :: 0 <= i < |stats| ==> stats[i].driver == positions[i].driver
  {
  }

  /** Rows in any order, one per entry of a running order: some row is a
      driver's exactly when some entry is. */
  lemma RowsOfEntries(table: seq<DriverStats>, stats: seq<DriverStats>, positions: seq<GridEntry>, driver: string)
    requires multiset(table) == multiset(stats)
    requires |stats| == |positions| && forall i :: 0 <= i < |stats| ==> stats[i].driver == positions[i].driver
    ensures (exists s :: s in table && s.driver == driver) <==>
            (exists i :: 0 <= i < |positions| && positions[i].driver == driver)
  {
    PermutationMembers(stats, table);
    if exists i :: 0 <= i < |positions| && positions[i].driver == driver {
      var i :| 0 <= i < |positions| && positions[i].driver == driver;
      assert stats[i] in table;
    }
    if exists s :: s in table && s.driver == driver {
      var s :| s in table && s.driver == driver;
      var i :| 0 <= i < |stats| && stats[i] == s;
      assert positions[i].driver == driver;
    }
  }

  /** Whatever the order, the table has a row for a driver exactly when the
      driver is in the final lap's running order. */
  lemma TableDrivers(simulation: seq<LapSimulation>, config: Option<SortConfig>, driver: string)
    requires simulation != []
    ensures var positions := simulation[|simulation| - 1].positions;
      (exists s :: s in DriverStatsTable(simulation, config) && s.driver == driver) <==>
      (exists i :: 0 <= i < |positions| && positions[i].driver == driver)
  {
    StatsDrivers(simulation);
    RowsOfEntries(DriverStatsTable(simulation, config), UnsortedStats(simulation), simulation[|simulation| - 1].positions, driver);
  }

  /** The positions of the events that count for `driver` under `kind`. */
  function CountingIndices(events: seq<RaceEvent>, driver: string, kind: EventType): set<int>
  {
    IndicesWhere(events, (e: RaceEvent) => e.kind == kind && Contains(e.description, driver))
  }

  /** The running count is the number of counting events. */
  lemma {:induction false} CountOfIndices(events: seq<RaceEvent>, driver: string, kind: EventType)
    ensures CountOf(events, driver, kind) == |CountingIndices(events, driver, kind)|
  {
    if events != [] {
      var init, last := events[..|events| - 1], events[|events| - 1];
      CountOfIndices(init, driver, kind);
      assert events == init + [last];
      IndicesWhereSnoc(init, last, (e: RaceEvent) => e.kind == kind && Contains(e.description, driver));
    }
  }

  /** Each row's pit stops, overtakes and DRS uses are the numbers of
      events of that kind, over all laps, whose description names the
      row's driver. */
  lemma RowCountsCountEvents(simulation: seq<LapSimulation>, i: nat)
    requires simulation != [] && i < |UnsortedStats(simulation)|
    ensures var s := UnsortedStats(simulation)[i];
      && s.pitStops == |CountingIndices(AllEvents(simulation), s.driver, Pit)|
      && s.overtakes == |CountingIndices(AllEvents(simulation), s.driver, Overtake)|
      && s.drsUses == |CountingIndices(AllEvents(simulation), s.driver, Drs)|
  {
    var s := UnsortedStats(simulation)[i];
    var events := AllEvents(simulation);
    CountOfIndices(events, s.driver, Pit);
    CountOfIndices(events, s.driver, Overtake);
    CountOfIndices(events, s.driver, Drs);
  }

  /** Nobody holds the fastest lap when no fastest-lap event names a
      driver, and with distinct drivers in the running order at most one
      row holds it. */
  lemma FastestLapHolders(simulation: seq<LapSimulation>)
    ensures FastestLapDriver(simulation).None? ==>
      forall s :: s in UnsortedStats(simulation) ==> !s.hasFastestLap
    ensures simulation != [] && NoDup(Map((p: GridEntry) => p.driver, simulation[|simulation| - 1].positions)) ==>
      var r := UnsortedStats(simulation);
      forall i, j :: 0 <= i < |r| && 0 <= j < |r| && r[i].hasFastestLap && r[j].hasFastestLap ==> i == j
  {
  }

  /** A header click: the same column sorted ascending flips to
      descending; anything else sorts the clicked column ascending. */
  function RequestSort(current: Option<SortConfig>, key: StatKey): (r: SortConfig)
    ensures r.key == key
    ensures r.direction == Desc <==> current == Some(SortConfig(key, Asc))
  {
    var direction := if current.Some? && current.value.key == key && current.value.direction == Asc then Desc else Asc;
    SortConfig(key, direction)
  }

  /** Clicking the same header again always reverses the direction, and
      a third click restores the second click's order. */
  lemma RequestSortAlternates(current: Option<SortConfig>, key: StatKey)
    ensures var once := RequestSort(current, key);
      var twice := RequestSort(Some(once), key);
      && twice.key == key && twice.direction != once.direction
      && RequestSort(Some(twice), key) == once
  {
  }
}
