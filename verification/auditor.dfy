/** The post-hoc strategy auditor (`analyzeStrategyForWarnings`, App.tsx).
    Each present plan is checked stint by stint for tire/weather mismatch
    and over-long Soft and Medium stints; then the lead driver's telemetry
    is extrapolated over each plan's first stint. The pushed warnings are
    de-duplicated in first-occurrence order, as `[...new Set(...)]` does. */
module Auditor {
  import opened Wrappers
  import opened Strings
  import opened Seqs
  import opened Sorting
  import opened Types

  /** A warning before it is rendered as text; each carries the plan name. */
  datatype Warning =
    | RainSlick(plan: string, compound: string)
    | DryWet(plan: string, compound: string)
    | LongSoft(plan: string, laps: int)
    | LongMedium(plan: string, laps: int)
    | TelemetryWear(plan: string, projected: real)

  /** The TypeErrors the source throws: reading `.driver` of the missing
      first grid entry, or `.tireCompound` of a plan's missing first stint. */
  datatype AuditError = NoLeadDriver | PlanWithoutStints(plan: string)

  // ---------------------------------------------------------------------
  // Stint checks (checkPlan)
  // ---------------------------------------------------------------------

  /** Soft stints longer than this many laps are flagged: 35% of the race,
      rounded down, but never fewer than 15. */
  function SoftThreshold(raceLaps: int): (t: int)
    ensures t >= 15
    ensures t * 100 <= Max(1500, raceLaps * 35) < (t + 1) * 100
  {
    Max(15, raceLaps * 35 / 100)
  }

  /** Medium stints longer than this many laps are flagged: 60% of the race,
      rounded down, but never fewer than 25. */
  function MediumThreshold(raceLaps: int): (t: int)
    ensures t >= 25
    ensures t * 100 <= Max(2500, raceLaps * 60) < (t + 1) * 100
  {
    Max(25, raceLaps * 60 / 100)
  }

  /** The tire/weather check of one stint: at most one warning, raised
      exactly when the tire's kind (rain or slick) disagrees with the weather. */
  function WeatherWarning(planName: string, stint: Stint, rainy: bool): (r: Option<Warning>)
    ensures r.Some? <==> (rainy != IsRainTireName(ToLower(stint.tireCompound)))
    ensures r.Some? ==> (r.value.RainSlick? || r.value.DryWet?) && (r.value.RainSlick? <==> rainy)
    ensures r.Some? ==> r.value.plan == planName && r.value.compound == stint.tireCompound
  {
    var lower := ToLower(stint.tireCompound);
    if rainy && !IsRainTireName(lower) then Some(RainSlick(planName, stint.tireCompound))
    else if !rainy && IsRainTireName(lower) then Some(DryWet(planName, stint.tireCompound))
    else None
  }

  function OptionToSeq<T>(o: Option<T>): seq<T>
  {
    if o.Some? then [o.value] else []
  }

  /** Warnings of one stint, in the order the source pushes them. */
  function StintWarnings(planName: string, stint: Stint, rainy: bool, raceLaps: int): seq<Warning>
  {
    var lower := ToLower(stint.tireCompound);
    var length := StintLength(stint);
    OptionToSeq(WeatherWarning(planName, stint, rainy))
      + (if lower == "soft" && length > SoftThreshold(raceLaps) then [LongSoft(planName, length)] else [])
      + (if lower == "medium" && length > MediumThreshold(raceLaps) then [LongMedium(planName, length)] else [])
  }

  /** `checkPlan` over a run of stints. */
  function StintsWarnings(planName: string, stints: seq<Stint>, rainy: bool, raceLaps: int): (ws: seq<Warning>)
    ensures forall w :: w in ws ==> w.plan == planName
  {
    if stints == [] then []
    else StintWarnings(planName, stints[0], rainy, raceLaps) + StintsWarnings(planName, stints[1..], rainy, raceLaps)
  }

  /** Warnings of the plans that are present, plan A's first. */
  function PlannedWarnings(strategy: StrategyAnalysis, scenario: RaceScenario): seq<Warning>
  {
    var rainy := IsRainy(scenario.weather);
    (if strategy.planA.Some? then StintsWarnings(strategy.planA.value.name, strategy.planA.value.stints, rainy, scenario.raceLaps) else [])
      + (if strategy.planB.Some? then StintsWarnings(strategy.planB.value.name, strategy.planB.value.stints, rainy, scenario.raceLaps) else [])
  }

  // ---------------------------------------------------------------------
  // Telemetry projection
  // ---------------------------------------------------------------------

  /** The lead driver's samples on a positive lap, in input order. */
  function LeadSamples(telemetry: seq<TelemetrySample>, lead: string): seq<TelemetrySample>
  {
    if telemetry == [] then []
    else
      (if telemetry[0].driver == lead && telemetry[0].lap > 0 then [telemetry[0]] else [])
        + LeadSamples(telemetry[1..], lead)
  }

  /** The lead samples are exactly the lead driver's positive-lap samples. */
  lemma {:induction false} LeadSamplesMembers(telemetry: seq<TelemetrySample>, lead: string, t: TelemetrySample)
    ensures t in LeadSamples(telemetry, lead) <==> t in telemetry && t.driver == lead && t.lap > 0
  {
    if telemetry != [] {
      LeadSamplesMembers(telemetry[1..], lead, t);
      assert telemetry == [telemetry[0]] + telemetry[1..];
    }
  }

  function LapKey(t: TelemetrySample): Key
  {
    Num(t.lap)
  }

  /** The lead samples after the stable ascending sort by lap. */
  function SortedLeadSamples(telemetry: seq<TelemetrySample>, lead: string): seq<TelemetrySample>
  {
    SortBy(LeadSamples(telemetry, lead), LapKey, false)
  }

  /** What the projection needs from the lead driver's samples: the last
      sample's lap and wear, the wear per lap, and the starting compound. */
  datatype WearTrend = WearTrend(lastLap: int, lastWear: real, wearPerLap: real, startingCompound: string)

  /** The lead driver's wear trend, or `None` when the source skips the
      projection; fails when there is telemetry but no starting grid. */
  function WearTrendOf(telemetry: seq<TelemetrySample>, grid: seq<GridEntry>): Result<Option<WearTrend>, AuditError>
  {
    if |telemetry| == 0 then Success(None)
    else if grid == [] then Failure(NoLeadDriver)
    else
      var samples := SortedLeadSamples(telemetry, grid[0].driver);
      if |samples| <= 1 then Success(None)
      else
        var first := samples[0];
        var last := samples[|samples| - 1];
        var lapsDriven := last.lap - first.lap + 1;
        var wearInPeriod := last.tireWear - first.tireWear;
        if lapsDriven > 0 && wearInPeriod > 0.0 then
          Success(Some(WearTrend(last.lap, last.tireWear, wearInPeriod / (lapsDriven as real), first.tireCompound)))
        else Success(None)
  }

  /** Wear at the end of `stint` if the trend continues from the last sample. */
  function ProjectedWear(trend: WearTrend, stint: Stint): real
  {
    trend.lastWear + trend.wearPerLap * ((StintLength(stint) - trend.lastLap) as real)
  }

  /** `checkPlanStint`: the projection for one plan's first stint, made only
      when that stint's compound is exactly the starting compound. */
  function FirstStintWarning(plan: StrategyPlan, trend: WearTrend): (r: Result<seq<Warning>, AuditError>)
    ensures r.Failure? <==> plan.stints == []
    ensures r.Success? ==> |r.value| <= 1
    ensures r.Success? && |r.value| == 1 ==>
      r.value[0].TelemetryWear? && r.value[0].plan == plan.name && r.value[0].projected > 90.0
    ensures r.Success? ==>
      (r.value != [] <==> plan.stints[0].tireCompound == trend.startingCompound && ProjectedWear(trend, plan.stints[0]) > 90.0)
    ensures r.Success? && r.value != [] ==> r.value[0].projected == ProjectedWear(trend, plan.stints[0])
  {
    if plan.stints == [] then Failure(PlanWithoutStints(plan.name))
    else
      var first := plan.stints[0];
      if first.tireCompound == trend.startingCompound then
        var projected := ProjectedWear(trend, first);
        Success(if projected > 90.0 then [TelemetryWear(plan.name, projected)] else [])
      else Success([])
  }

  function OptFirstStintWarning(plan: Option<StrategyPlan>, trend: WearTrend): Result<seq<Warning>, AuditError>
  {
    if plan.Some? then FirstStintWarning(plan.value, trend) else Success([])
  }

  /** Telemetry warnings for plan A then plan B; the first failure wins. */
  function TelemetryWarnings(strategy: StrategyAnalysis, trend: WearTrend): Result<seq<Warning>, AuditError>
  {
    match OptFirstStintWarning(strategy.planA, trend)
    case Failure(e) => Failure(e)
    case Success(a) =>
      match OptFirstStintWarning(strategy.planB, trend)
      case Failure(e) => Failure(e)
      case Success(b) => Success(a + b)
  }

  /** Every warning the source pushes, in push order. */
  function PushedWarnings(strategy: StrategyAnalysis, scenario: RaceScenario, telemetry: seq<TelemetrySample>)
    : Result<seq<Warning>, AuditError>
  {
    var planned := PlannedWarnings(strategy, scenario);
    match WearTrendOf(telemetry, scenario.startingGrid)
    case Failure(e) => Failure(e)
    case Success(None) => Success(planned)
    case Success(Some(trend)) =>
      match TelemetryWarnings(strategy, trend)
      case Failure(e) => Failure(e)
      case Success(t) => Success(planned + t)
  }

  // ---------------------------------------------------------------------
  // Messages and the auditor itself
  // ---------------------------------------------------------------------

  /** The warning text: the plan name, a colon, and the finding.
      `toFixed0` stands for `Number.prototype.toFixed(0)`. */
  function Render(w: Warning, toFixed0: real -> string): string
  {
    w.plan + ": " + Finding(w, toFixed0)
  }

  function Finding(w: Warning, toFixed0: real -> string): string
  {
    match w
    case RainSlick(_, c) =>
      "Uses a slick tire (" + c + ") in rainy conditions, which is extremely dangerous and ineffective."
    case DryWet(_, c) =>
      "Uses a wet-weather tire (" + c + ") in dry conditions, which will result in rapid overheating and poor performance."
    case LongSoft(_, n) =>
      "The planned Soft tire stint of " + IntToString(n) + SoftTail
    case LongMedium(_, n) =>
      "The planned Medium tire stint of " + IntToString(n) + MediumTail
    case TelemetryWear(_, x) =>
      "Telemetry data projects tire wear for the first stint to reach over 90% ("
        + toFixed0(x) + "%). This is a high-risk strategy."
  }

  const SoftTail: string := " laps is very long and risks a severe performance drop-off (\"cliff\")."
  const MediumTail: string := " laps is ambitious and may lead to high degradation towards the end."

  function RenderAll(ws: seq<Warning>, toFixed0: real -> string): (ms: seq<string>)
    ensures |ms| == |ws|
    ensures forall i :: 0 <= i < |ws| ==> ms[i] == Render(ws[i], toFixed0)
  {
    Map(w => Render(w, toFixed0), ws)
  }

  lemma RenderAllMembers(ws: seq<Warning>, toFixed0: real -> string)
    ensures forall w :: w in ws ==> Render(w, toFixed0) in RenderAll(ws, toFixed0)
    ensures forall m :: m in RenderAll(ws, toFixed0) ==> exists w :: w in ws && m == Render(w, toFixed0)
  {
    MapMembers(w => Render(w, toFixed0), ws);
  }

  /** `analyzeStrategyForWarnings`: the distinct messages of the pushed
      warnings, each once, in the order they were first pushed. */
  function AnalyzeStrategyForWarnings(
    strategy: StrategyAnalysis, scenario: RaceScenario, telemetry: seq<TelemetrySample>, toFixed0: real -> string)
    : (r: Result<seq<string>, AuditError>)
    ensures r.Success? <==> PushedWarnings(strategy, scenario, telemetry).Success?
    ensures r.Success? ==> NoDup(r.value)
    ensures r.Success? ==> forall w :: w in PushedWarnings(strategy, scenario, telemetry).value ==>
      Render(w, toFixed0) in r.value
    ensures r.Success? ==> forall m :: m in r.value ==>
      exists w :: w in PushedWarnings(strategy, scenario, telemetry).value && m == Render(w, toFixed0)
    ensures r.Success? ==>
      var ms := RenderAll(PushedWarnings(strategy, scenario, telemetry).value, toFixed0);
      (forall m :: m in r.value ==> m in ms)
      && forall i, j :: 0 <= i < j < |r.value| ==> FirstIndex(ms, r.value[i]) < FirstIndex(ms, r.value[j])
  {
    match PushedWarnings(strategy, scenario, telemetry)
    case Failure(e) => Failure(e)
    case Success(ws) =>
      var ms := RenderAll(ws, toFixed0);
      RenderAllMembers(ws, toFixed0);
      Success(Dedup(ms))
  }

  // ---------------------------------------------------------------------
  // Which warnings are raised
  // ---------------------------------------------------------------------

  /** What it takes for one stint to raise `w`, kind by kind. */
  predicate StintRaises(name: string, s: Stint, rainy: bool, raceLaps: int, w: Warning)
  {
    w.plan == name &&
    match w
    case RainSlick(_, c) => c == s.tireCompound && rainy && !IsRainTireName(ToLower(c))
    case DryWet(_, c) => c == s.tireCompound && !rainy && IsRainTireName(ToLower(c))
    case LongSoft(_, n) => ToLower(s.tireCompound) == "soft" && n == StintLength(s) && n > SoftThreshold(raceLaps)
    case LongMedium(_, n) => ToLower(s.tireCompound) == "medium" && n == StintLength(s) && n > MediumThreshold(raceLaps)
    case TelemetryWear(_, _) => false
  }

  /** The stint checks raise exactly the warnings `StintRaises` describes. */
  lemma StintWarningsKinds(name: string, s: Stint, rainy: bool, raceLaps: int, w: Warning)
    ensures w in StintWarnings(name, s, rainy, raceLaps) <==> StintRaises(name, s, rainy, raceLaps, w)
  {
  }

  /** `checkPlan` raises exactly the warnings its stints raise. */
  lemma {:induction false} StintsWarningsMembers(name: string, stints: seq<Stint>, rainy: bool, raceLaps: int, w: Warning)
    ensures w in StintsWarnings(name, stints, rainy, raceLaps) <==>
      exists i :: 0 <= i < |stints| && w in StintWarnings(name, stints[i], rainy, raceLaps)
  {
    if stints != [] {
      StintsWarningsMembers(name, stints[1..], rainy, raceLaps, w);
      if exists i :: 0 <= i < |stints| && w in StintWarnings(name, stints[i], rainy, raceLaps) {
        var i :| 0 <= i < |stints| && w in StintWarnings(name, stints[i], rainy, raceLaps);
        if i > 0 {
          assert stints[1..][i - 1] == stints[i];
        }
      }
      if w in StintsWarnings(name, stints[1..], rainy, raceLaps) {
        var i :| 0 <= i < |stints[1..]| && w in StintWarnings(name, stints[1..][i], rainy, raceLaps);
        assert stints[i + 1] == stints[1..][i];
      }
    }
  }

  /** Some stint of some present plan raises `w`. */
  ghost predicate RaisedByAStint(strategy: StrategyAnalysis, scenario: RaceScenario, w: Warning)
  {
    exists p :: p in Plans(strategy) && PlanRaises(p, scenario, w)
  }

  /** Some stint of plan `p` raises `w`. */
  ghost predicate PlanRaises(p: StrategyPlan, scenario: RaceScenario, w: Warning)
  {
    exists i :: 0 <= i < |p.stints| &&
      w in StintWarnings(p.name, p.stints[i], IsRainy(scenario.weather), scenario.raceLaps)
  }

  /** The stint checks of both plans raise exactly what their stints raise;
      an absent plan raises nothing. */
  lemma PlannedMembers(strategy: StrategyAnalysis, scenario: RaceScenario, w: Warning)
    ensures w in PlannedWarnings(strategy, scenario) <==> RaisedByAStint(strategy, scenario, w)
  {
    var rainy := IsRainy(scenario.weather);
    var a := if strategy.planA.Some? then StintsWarnings(strategy.planA.value.name, strategy.planA.value.stints, rainy, scenario.raceLaps) else [];
    var b := if strategy.planB.Some? then StintsWarnings(strategy.planB.value.name, strategy.planB.value.stints, rainy, scenario.raceLaps) else [];
    assert PlannedWarnings(strategy, scenario) == a + b;
    if strategy.planA.Some? {
      var p := strategy.planA.value;
      StintsWarningsMembers(p.name, p.stints, rainy, scenario.raceLaps, w);
      assert w in a <==> PlanRaises(p, scenario, w);
    }
    if strategy.planB.Some? {
      var p := strategy.planB.value;
      StintsWarningsMembers(p.name, p.stints, rainy, scenario.raceLaps, w);
      assert w in b <==> PlanRaises(p, scenario, w);
    }
  }

  /** The projection is made for plan `p` and exceeds 90%. */
  ghost predicate ProjectionWarns(p: StrategyPlan, trend: WearTrend, projected: real)
  {
    p.stints != [] && p.stints[0].tireCompound == trend.startingCompound &&
    projected == ProjectedWear(trend, p.stints[0]) && projected > 90.0
  }

  lemma TelemetryWarningsMembers(strategy: StrategyAnalysis, trend: WearTrend, w: Warning)
    requires TelemetryWarnings(strategy, trend).Success?
    ensures w in TelemetryWarnings(strategy, trend).value <==>
      w.TelemetryWear? && exists p :: p in Plans(strategy) && p.name == w.plan && ProjectionWarns(p, trend, w.projected)
  {
    if w.TelemetryWear? && exists p :: p in Plans(strategy) && p.name == w.plan && ProjectionWarns(p, trend, w.projected) {
      var p :| p in Plans(strategy) && p.name == w.plan && ProjectionWarns(p, trend, w.projected);
      assert Some(p) == strategy.planA || Some(p) == strategy.planB;
    }
  }

  /** The source throws exactly when there is telemetry and either no
      starting grid, or a wear trend and a present plan without stints. */
  lemma PushedFailureIff(strategy: StrategyAnalysis, scenario: RaceScenario, telemetry: seq<TelemetrySample>)
    ensures PushedWarnings(strategy, scenario, telemetry).Failure? <==>
      |telemetry| > 0 &&
      (scenario.startingGrid == [] ||
       (WearTrendOf(telemetry, scenario.startingGrid).value.Some? &&
        exists p :: p in Plans(strategy) && p.stints == []))
  {
  }

  /** A slick-tire warning is raised for plan `n` and compound `c` iff it
      rains and some stint of that plan uses `c`, which is not a rain tire. */
  lemma SlickInRainIff(strategy: StrategyAnalysis, scenario: RaceScenario, telemetry: seq<TelemetrySample>, n: string, c: string)
    requires PushedWarnings(strategy, scenario, telemetry).Success?
    ensures RainSlick(n, c) in PushedWarnings(strategy, scenario, telemetry).value <==>
      IsRainy(scenario.weather) && !IsRainTireName(ToLower(c)) &&
      exists p, i :: p in Plans(strategy) && 0 <= i < |p.stints| && p.name == n && p.stints[i].tireCompound == c
  {
    KindFromPlanned(strategy, scenario, telemetry, RainSlick(n, c));
  }

  /** A wet-tire warning is raised for plan `n` and compound `c` iff it is
      dry and some stint of that plan uses `c`, which is a rain tire. */
  lemma WetInDryIff(strategy: StrategyAnalysis, scenario: RaceScenario, telemetry: seq<TelemetrySample>, n: string, c: string)
    requires PushedWarnings(strategy, scenario, telemetry).Success?
    ensures DryWet(n, c) in PushedWarnings(strategy, scenario, telemetry).value <==>
      !IsRainy(scenario.weather) && IsRainTireName(ToLower(c)) &&
      exists p, i :: p in Plans(strategy) && 0 <= i < |p.stints| && p.name == n && p.stints[i].tireCompound == c
  {
    KindFromPlanned(strategy, scenario, telemetry, DryWet(n, c));
  }

  /** A long-Soft warning of `len` laps is raised for plan `n` iff one of its
      stints is a Soft stint (any letter case) of `len` laps above the threshold. */
  lemma LongSoftIff(strategy: StrategyAnalysis, scenario: RaceScenario, telemetry: seq<TelemetrySample>, n: string, len: int)
    requires PushedWarnings(strategy, scenario, telemetry).Success?
    ensures LongSoft(n, len) in PushedWarnings(strategy, scenario, telemetry).value <==>
      len > SoftThreshold(scenario.raceLaps) &&
      exists p, i :: p in Plans(strategy) && 0 <= i < |p.stints| && p.name == n &&
        ToLower(p.stints[i].tireCompound) == "soft" && StintLength(p.stints[i]) == len
  {
    KindFromPlanned(strategy, scenario, telemetry, LongSoft(n, len));
  }

  /** A long-Medium warning of `len` laps is raised for plan `n` iff one of
      its stints is a Medium stint of `len` laps above the threshold. */
  lemma LongMediumIff(strategy: StrategyAnalysis, scenario: RaceScenario, telemetry: seq<TelemetrySample>, n: string, len: int)
    requires PushedWarnings(strategy, scenario, telemetry).Success?
    ensures LongMedium(n, len) in PushedWarnings(strategy, scenario, telemetry).value <==>
      len > MediumThreshold(scenario.raceLaps) &&
      exists p, i :: p in Plans(strategy) && 0 <= i < |p.stints| && p.name == n &&
        ToLower(p.stints[i].tireCompound) == "medium" && StintLength(p.stints[i]) == len
  {
    KindFromPlanned(strategy, scenario, telemetry, LongMedium(n, len));
  }

  /** A stint-level warning is in the pushed list iff some stint raises it. */
  lemma KindFromPlanned(strategy: StrategyAnalysis, scenario: RaceScenario, telemetry: seq<TelemetrySample>, w: Warning)
    requires PushedWarnings(strategy, scenario, telemetry).Success?
    requires !w.TelemetryWear?
    ensures w in PushedWarnings(strategy, scenario, telemetry).value <==>
      exists p, i :: p in Plans(strategy) && 0 <= i < |p.stints| &&
        StintRaises(p.name, p.stints[i], IsRainy(scenario.weather), scenario.raceLaps, w)
  {
    PlannedMembers(strategy, scenario, w);
    var trend := WearTrendOf(telemetry, scenario.startingGrid);
    if trend.value.Some? {
      TelemetryWarningsMembers(strategy, trend.value.value, w);
    }
    forall p, i | p in Plans(strategy) && 0 <= i < |p.stints|
      ensures w in StintWarnings(p.name, p.stints[i], IsRainy(scenario.weather), scenario.raceLaps) <==>
        StintRaises(p.name, p.stints[i], IsRainy(scenario.weather), scenario.raceLaps, w)
    {
      StintWarningsKinds(p.name, p.stints[i], IsRainy(scenario.weather), scenario.raceLaps, w);
    }
  }

  // ---------------------------------------------------------------------
  // The telemetry projection
  // ---------------------------------------------------------------------

  /** A projection warning for plan `n` with value `x` is pushed iff there is
      a wear trend, and `n` is a present plan whose first stint is on the
      starting compound (compared exactly) and projects `x` > 90%. */
  lemma TelemetryWearIff(strategy: StrategyAnalysis, scenario: RaceScenario, telemetry: seq<TelemetrySample>, n: string, x: real)
    requires PushedWarnings(strategy, scenario, telemetry).Success?
    ensures TelemetryWear(n, x) in PushedWarnings(strategy, scenario, telemetry).value <==>
      var trend := WearTrendOf(telemetry, scenario.startingGrid).value;
      trend.Some? && exists p :: p in Plans(strategy) && p.name == n && ProjectionWarns(p, trend.value, x)
  {
    var w := TelemetryWear(n, x);
    PlannedMembers(strategy, scenario, w);
    var trend := WearTrendOf(telemetry, scenario.startingGrid).value;
    if trend.Some? {
      TelemetryWarningsMembers(strategy, trend.value, w);
    }
  }

  /** The sorted lead samples start with the earliest sample on the lowest
      lap and end with the latest sample on the highest lap, so the lap span
      between them is never below one. */
  lemma SortedLeadEnds(telemetry: seq<TelemetrySample>, lead: string)
    ensures |SortedLeadSamples(telemetry, lead)| == |LeadSamples(telemetry, lead)|
    ensures var l := LeadSamples(telemetry, lead);
      var s := SortedLeadSamples(telemetry, lead);
      |l| > 0 ==>
        && s[0] == l[FirstLeastIndex(l, LapKey, false)]
        && s[|s| - 1] == l[LastGreatestIndex(l, LapKey, false)]
        && s[|s| - 1].lap - s[0].lap + 1 >= 1
  {
    var l := LeadSamples(telemetry, lead);
    var s := SortBy(l, LapKey, false);
    if |l| > 0 {
      SortByHead(l, LapKey, false);
      SortByLast(l, LapKey, false);
      assert Sorted(s, LapKey, false);
      if |s| > 1 {
        assert !Before(LapKey(s[|s| - 1]), LapKey(s[0]), false);
      }
    } else {
      assert |s| == |multiset(s)| == |multiset(l)| == |l|;
    }
  }

  /** With telemetry and a grid, the projection is skipped exactly when the
      lead driver has fewer than two positive-lap samples or the wear did not
      grow from the first to the last of them; the `lapsDriven > 0` test of
      the source never decides anything. */
  lemma WearTrendSkippedIff(telemetry: seq<TelemetrySample>, grid: seq<GridEntry>)
    requires |telemetry| > 0 && grid != []
    ensures WearTrendOf(telemetry, grid).Success?
    ensures var l := LeadSamples(telemetry, grid[0].driver);
      WearTrendOf(telemetry, grid).value.None? <==>
        (|l| < 2 ||
         l[LastGreatestIndex(l, LapKey, false)].tireWear <= l[FirstLeastIndex(l, LapKey, false)].tireWear)
  {
    WearTrendNoneSorted(telemetry, grid);
    SortedLeadEnds(telemetry, grid[0].driver);
  }

  /** The same, read off the sorted samples. */
  lemma WearTrendNoneSorted(telemetry: seq<TelemetrySample>, grid: seq<GridEntry>)
    requires |telemetry| > 0 && grid != []
    ensures WearTrendOf(telemetry, grid).Success?
    ensures var s := SortedLeadSamples(telemetry, grid[0].driver);
      WearTrendOf(telemetry, grid).value.None? <==>
        (|s| < 2 || s[|s| - 1].tireWear <= s[0].tireWear)
  {
    var s := SortedLeadSamples(telemetry, grid[0].driver);
    if |s| >= 2 {
      assert !Before(LapKey(s[|s| - 1]), LapKey(s[0]), false);
    }
  }

  lemma QuotientPositive(x: real, d: real)
    requires x > 0.0 && d > 0.0
    ensures x / d > 0.0
  {
  }

  /** Wear trend from the first and last sorted samples. */
  function TrendFromEnds(first: TelemetrySample, last: TelemetrySample): WearTrend
    requires last.lap - first.lap + 1 >= 1
  {
    WearTrend(last.lap, last.tireWear,
      (last.tireWear - first.tireWear) / ((last.lap - first.lap + 1) as real), first.tireCompound)
  }

  /** When there is a trend, it is read off the first and last of the lead
      driver's samples in lap order (by `SortedLeadEnds`, the earliest
      lowest-lap and the latest highest-lap sample): there are at least two,
      the laps between them are counted from one, and the wear grew. */
  lemma WearTrendValues(telemetry: seq<TelemetrySample>, grid: seq<GridEntry>)
    requires |telemetry| > 0 && grid != []
    requires WearTrendOf(telemetry, grid).Success? && WearTrendOf(telemetry, grid).value.Some?
    ensures var s := SortedLeadSamples(telemetry, grid[0].driver);
      |s| >= 2 && s[|s| - 1].lap - s[0].lap + 1 >= 1 &&
      s[|s| - 1].tireWear > s[0].tireWear &&
      WearTrendOf(telemetry, grid).value.value == TrendFromEnds(s[0], s[|s| - 1])
  {
    var s := SortedLeadSamples(telemetry, grid[0].driver);
    assert |s| > 1;
  }

  /** The fields of a trend built from two samples with growing wear. */
  lemma TrendFromEndsValues(first: TelemetrySample, last: TelemetrySample)
    requires last.lap - first.lap + 1 >= 1 && last.tireWear > first.tireWear
    ensures var t := TrendFromEnds(first, last);
      && t.startingCompound == first.tireCompound
      && t.lastLap == last.lap
      && t.lastWear == last.tireWear
      && t.wearPerLap * ((last.lap - first.lap + 1) as real) == last.tireWear - first.tireWear
      && t.wearPerLap > 0.0
  {
    QuotientPositive(last.tireWear - first.tireWear, (last.lap - first.lap + 1) as real);
  }

  // ---------------------------------------------------------------------
  // Worked examples
  // ---------------------------------------------------------------------

  function OnePlan(name: string, stints: seq<Stint>): StrategyAnalysis
  {
    StrategyAnalysis("", Some(StrategyPlan(name, stints)), None)
  }

  /** In a dry 50-lap race the Soft threshold is 17 laps: an 18-lap Soft
      stint is flagged and a 17-lap one is not. */
  lemma SoftStintExample(n: string, c: string)
    requires ToLower(c) == "soft"
    ensures SoftThreshold(50) == 17
    ensures StintWarnings(n, Stint(1, 18, c), false, 50) == [LongSoft(n, 18)]
    ensures StintWarnings(n, Stint(1, 17, c), false, 50) == []
  {
    assert !IsRainTireName(ToLower(c));
  }

  /** In a dry 50-lap race the Medium threshold is 30 laps: a 31-lap Medium
      stint is flagged and a 30-lap one is not. */
  lemma MediumStintExample(n: string, c: string)
    requires ToLower(c) == "medium"
    ensures MediumThreshold(50) == 30
    ensures StintWarnings(n, Stint(1, 31, c), false, 50) == [LongMedium(n, 31)]
    ensures StintWarnings(n, Stint(1, 30, c), false, 50) == []
  {
    assert !IsRainTireName(ToLower(c));
  }

  function Sample(lap: int, driver: string, wear: real, compound: string): TelemetrySample
  {
    TelemetrySample(lap, driver, 90.0, wear, 100.0, 0.0, 100.0, 500.0, 1.0, compound)
  }

  /** Two samples of the lead driver recorded out of lap order are sorted
      into lap order. */
  lemma TwoSamplesSorted(a: TelemetrySample, b: TelemetrySample, lead: string)
    requires a.driver == lead && b.driver == lead && 0 < b.lap < a.lap
    ensures SortedLeadSamples([a, b], lead) == [b, a]
  {
    assert [a, b][1..] == [b];
    assert [b][1..] == [];
    assert LeadSamples([b], lead) == [b];
    assert LeadSamples([a, b], lead) == [a, b];
    assert SortBy([b], LapKey, false) == [b];
    assert Insert(a, [b], LapKey, false) == [b, a];
  }

  /** When the lead driver has exactly two samples, in lap order `x`, `y`,
      with the wear growing, the trend is read off those two. */
  lemma TrendOfTwo(telemetry: seq<TelemetrySample>, grid: seq<GridEntry>, x: TelemetrySample, y: TelemetrySample)
    requires |telemetry| > 0 && grid != []
    requires SortedLeadSamples(telemetry, grid[0].driver) == [x, y]
    requires y.lap - x.lap + 1 >= 1 && y.tireWear > x.tireWear
    ensures WearTrendOf(telemetry, grid) == Success(Some(TrendFromEnds(x, y)))
  {
  }

  /** Lead-driver samples (lap 10, 41%) and (lap 1, 5%) on Mediums, in that
      order, give 3.6% per lap: 36 points of wear over the 10 laps from lap
      1 to lap 10, both counted. */
  lemma ExampleTrend(a: TelemetrySample, b: TelemetrySample)
    requires a == Sample(10, "L. Norris", 41.0, "Medium") && b == Sample(1, "L. Norris", 5.0, "Medium")
    ensures WearTrendOf([a, b], [GridEntry(1, a.driver)]) == Success(Some(WearTrend(10, 41.0, 3.6, "Medium")))
  {
    TwoSamplesSorted(a, b, a.driver);
    TrendOfTwo([a, b], [GridEntry(1, a.driver)], b, a);
    assert TrendFromEnds(b, a) == WearTrend(10, 41.0, 3.6, "Medium") by {
      assert 36.0 / (10 as real) == 3.6;
    }
  }

  /** With that trend, a Medium first stint over laps 1-25 projects
      41 + 3.6 * (25 - 10) = 95% and is flagged; a Hard one is not compared. */
  lemma ExampleProjection()
    ensures FirstStintWarning(StrategyPlan("A", [Stint(1, 25, "Medium")]), WearTrend(10, 41.0, 3.6, "Medium"))
      == Success([TelemetryWear("A", 95.0)])
    ensures FirstStintWarning(StrategyPlan("A", [Stint(1, 25, "Hard")]), WearTrend(10, 41.0, 3.6, "Medium"))
      == Success([])
  {
    assert ProjectedWear(WearTrend(10, 41.0, 3.6, "Medium"), Stint(1, 25, "Medium")) == 95.0;
  }

  /** With neither plan present, nothing is flagged (unless the grid is
      missing while telemetry exists, where the source throws). */
  lemma NoPlansNoWarnings(analysisText: string, scenario: RaceScenario, telemetry: seq<TelemetrySample>, toFixed0: real -> string)
    requires telemetry == [] || scenario.startingGrid != []
    ensures AnalyzeStrategyForWarnings(StrategyAnalysis(analysisText, None, None), scenario, telemetry, toFixed0) == Success([])
  {
    var strategy := StrategyAnalysis(analysisText, None, None);
    assert PlannedWarnings(strategy, scenario) == [];
    var trend := WearTrendOf(telemetry, scenario.startingGrid);
    if |telemetry| > 0 {
      WearTrendSkippedIff(telemetry, scenario.startingGrid);
    }
    assert trend.Success?;
    if trend.value.Some? {
      assert TelemetryWarnings(strategy, trend.value.value) == Success([]);
    }
    assert PushedWarnings(strategy, scenario, telemetry) == Success([]);
    assert RenderAll([], toFixed0) == [];
  }

  // ---------------------------------------------------------------------
  // Messages
  // ---------------------------------------------------------------------

  lemma SameSuffix(a: string, b: string, s: string)
    requires a + s == b + s
    ensures a == b
  {
    assert |a| == |b|;
    assert a == (a + s)[..|a|];
    assert b == (b + s)[..|b|];
  }

  lemma SamePrefix(p: string, a: string, b: string)
    requires p + a == p + b
    ensures a == b
  {
    assert a == (p + a)[|p|..];
    assert b == (p + b)[|p|..];
  }

  /** Messages of the same plan differ when their findings differ. */
  lemma RenderSamePlan(w: Warning, v: Warning, toFixed0: real -> string)
    requires w.plan == v.plan && Render(w, toFixed0) == Render(v, toFixed0)
    ensures Finding(w, toFixed0) == Finding(v, toFixed0)
  {
    SamePrefix(w.plan + ": ", Finding(w, toFixed0), Finding(v, toFixed0));
  }

  /** Long-stint messages of one plan tell different stint lengths apart. */
  lemma RenderLongStintInjective(p: string, m: int, n: int, toFixed0: real -> string)
    ensures Render(LongSoft(p, m), toFixed0) == Render(LongSoft(p, n), toFixed0) ==> m == n
    ensures Render(LongMedium(p, m), toFixed0) == Render(LongMedium(p, n), toFixed0) ==> m == n
  {
    if Render(LongSoft(p, m), toFixed0) == Render(LongSoft(p, n), toFixed0) {
      RenderSamePlan(LongSoft(p, m), LongSoft(p, n), toFixed0);
      var head := "The planned Soft tire stint of ";
      SameSuffix(head + IntToString(m), head + IntToString(n), SoftTail);
      SamePrefix(head, IntToString(m), IntToString(n));
      IntToStringInjective(m, n);
    }
    if Render(LongMedium(p, m), toFixed0) == Render(LongMedium(p, n), toFixed0) {
      RenderSamePlan(LongMedium(p, m), LongMedium(p, n), toFixed0);
      var head := "The planned Medium tire stint of ";
      SameSuffix(head + IntToString(m), head + IntToString(n), MediumTail);
      SamePrefix(head, IntToString(m), IntToString(n));
      IntToStringInjective(m, n);
    }
  }
}
