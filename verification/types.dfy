/** The records the application passes between its parts (types.ts). Tire
    compounds stay strings, because the auditor and the timeline compare
    them as text after lower-casing, and one check compares them exactly. */
module Types {
  import opened Wrappers
  import opened Strings

  /** `StartingGridEntry`: a grid slot, also used for race positions. */
  datatype GridEntry = GridEntry(position: int, driver: string)

  datatype RaceScenario = RaceScenario(
    track: string,
    weather: string,
    availableTires: seq<string>,
    startingGrid: seq<GridEntry>,
    raceLaps: int)

  /** `SavedScenario`: a scenario with the id and display name it was stored under. */
  datatype SavedScenario = SavedScenario(id: string, name: string, scenario: RaceScenario)

  /** `TelemetryData`: one driver's readings on one lap. */
  datatype TelemetrySample = TelemetrySample(
    lap: int,
    driver: string,
    lapTime: real,
    tireWear: real,
    fuelLoad: real,
    ersDeployment: real,
    tyreTemperature: real,
    brakeTemperature: real,
    downforceLevel: real,
    tireCompound: string)

  /** `StrategyStint`: laps `startLap` to `endLap`, both included, on one compound. */
  datatype Stint = Stint(startLap: int, endLap: int, tireCompound: string)

  datatype StrategyPlan = StrategyPlan(name: string, stints: seq<Stint>)

  /** `StrategyAnalysis`; either plan may be missing in the model's reply. */
  datatype StrategyAnalysis = StrategyAnalysis(
    analysisText: string,
    planA: Option<StrategyPlan>,
    planB: Option<StrategyPlan>)

  datatype EventType = Pit | Overtake | FastestLap | Info | Drs | Vsc | MechanicalIssue

  datatype Severity = Minor | Moderate | Major

  datatype RaceEvent = RaceEvent(kind: EventType, description: string, severity: Option<Severity>)

  /** `LapSimulation`: the running order and the events of one lap. */
  datatype LapSimulation = LapSimulation(lap: int, positions: seq<GridEntry>, events: seq<RaceEvent>)

  datatype DriverStats = DriverStats(
    driver: string,
    finalPosition: int,
    pitStops: nat,
    overtakes: nat,
    drsUses: nat,
    hasFastestLap: bool)

  /** The `TireCompound` names as the application spells them. */
  const SoftTire: string := "Soft"
  const MediumTire: string := "Medium"
  const HardTire: string := "Hard"
  const IntermediateTire: string := "Intermediate"
  const WetTire: string := "Wet"

  /** The weather test shared by the strategy auditor and the scenario form:
      the lower-cased weather text contains "rain". */
  predicate IsRainy(weather: string)
  {
    Contains(ToLower(weather), "rain")
  }

  /** Weather text without an `r` in either case is never rainy. */
  lemma NotRainyWithoutR(weather: string)
    requires forall i :: 0 <= i < |weather| ==> weather[i] != 'r' && weather[i] != 'R'
    ensures !IsRainy(weather)
  {
    NotContainsWithoutFirst(ToLower(weather), "rain");
  }

  /** The four letters of `weather` from offset `k` spell "rain" in some
      letter case. */
  predicate RainAt(weather: string, k: int)
  {
    0 <= k && k + 4 <= |weather| && ToLower(weather[k..k + 4]) == "rain"
  }

  /** Weather text holding "rain" in any letter case at offset `k`, as
      "Light Rain", "Heavy Rain" and "Scattered Rain" do, is rainy. */
  lemma RainyAt(weather: string, k: nat)
    requires RainAt(weather, k)
    ensures IsRainy(weather)
  {
    var lower := ToLower(weather);
    assert lower[k..k + 4] == ToLower(weather[k..k + 4]);
    ContainsAt(lower, "rain", k);
  }

  /** Weather is rainy exactly when "rain" occurs in it in some letter case. */
  lemma RainyIff(weather: string)
    ensures IsRainy(weather) <==> exists k :: RainAt(weather, k)
  {
    var lower := ToLower(weather);
    ContainsIff(lower, "rain");
    if IsRainy(weather) {
      var k :| OccursAt(lower, "rain", k);
      assert lower[k..k + 4] == ToLower(weather[k..k + 4]);
      assert RainAt(weather, k);
    } else if exists k :: RainAt(weather, k) {
      var k :| RainAt(weather, k);
      RainyAt(weather, k);
    }
  }

  /** A lower-cased compound name that denotes a rain tire. */
  predicate IsRainTireName(lower: string)
  {
    lower == "intermediate" || lower == "wet"
  }

  /** Laps in a stint, counting both ends. */
  function StintLength(s: Stint): int
  {
    s.endLap - s.startLap + 1
  }

  function Max(a: int, b: int): int
  {
    if a >= b then a else b
  }

  /** The plans an analysis actually holds, plan A first. */
  function Plans(strategy: StrategyAnalysis): (ps: seq<StrategyPlan>)
    ensures |ps| <= 2
    ensures strategy.planA.Some? ==> strategy.planA.value in ps
    ensures strategy.planB.Some? ==> strategy.planB.value in ps
    ensures forall p :: p in ps ==> Some(p) == strategy.planA || Some(p) == strategy.planB
  {
    (if strategy.planA.Some? then [strategy.planA.value] else [])
      + (if strategy.planB.Some? then [strategy.planB.value] else [])
  }
}
