// The telemetry chart's data preparation: one row per lap holding every
// driver's readings under "<driverKey>_<metric>" fields, the lines drawn
// for the visible metrics with their palette colours, and the two set
// toggles behind the metric check-boxes and the legend clicks.

module TelemetryChart {
  import opened Wrappers
  import opened Seqs
  import opened Sorting
  import opened Types

  /** The seven charted readings, in the order the chart configuration lists them. */
  datatype Metric = LapTime | TireWear | FuelLoad | ErsDeployment | TyreTemperature | BrakeTemperature | DownforceLevel

  function Metrics(): seq<Metric>
  {
    [LapTime, TireWear, FuelLoad, ErsDeployment, TyreTemperature, BrakeTemperature, DownforceLevel]
  }

  /** The configuration lists each metric once. */
  lemma MetricsListed(m: Metric)
    ensures |Metrics()| == 7 && NoDup(Metrics()) && m in Metrics()
  {
  }

  /** The reading's field name in a telemetry record. */
  function MetricName(m: Metric): string
  {
    match m
    case LapTime => "lapTime"
    case TireWear => "tireWear"
    case FuelLoad => "fuelLoad"
    case ErsDeployment => "ersDeployment"
    case TyreTemperature => "tyreTemperature"
    case BrakeTemperature => "brakeTemperature"
    case DownforceLevel => "downforceLevel"
  }

  function MetricValue(m: Metric, e: TelemetrySample): real
  {
    match m
    case LapTime => e.lapTime
    case TireWear => e.tireWear
    case FuelLoad => e.fuelLoad
    case ErsDeployment => e.ersDeployment
    case TyreTemperature => e.tyreTemperature
    case BrakeTemperature => e.brakeTemperature
    case DownforceLevel => e.downforceLevel
  }

  datatype Axis = LeftAxis | RightAxis

  /** Lap time has the left axis to itself; everything else shares the right. */
  function MetricAxis(m: Metric): (a: Axis)
    ensures a == LeftAxis <==> m == LapTime
  {
    if m == LapTime then LeftAxis else RightAxis
  }

  /** The field names hold no underscore and differ from one another. */
  lemma MetricNameFacts(m: Metric, n: Metric)
    ensures '_' !in MetricName(m)
    ensures MetricName(m) == MetricName(n) ==> m == n
  {
    var a, b := MetricName(m), MetricName(n);
    assert a == b ==> |a| == |b| && a[0] == b[0];
  }

  /** The text after the last space (all of it when there is no space):
      the last element of `split(' ')`. */
  function LastToken(s: string): string
  {
    if s == [] || s[|s| - 1] == ' ' then [] else LastToken(s[..|s| - 1]) + [s[|s| - 1]]
  }

  /** The last token ends the text, holds no space, and is preceded by a
      space unless it is the whole text. */
  lemma {:induction false} LastTokenFacts(s: string)
    ensures var r := LastToken(s);
      && |r| <= |s| && s[|s| - |r|..] == r
      && ' ' !in r
      && (|r| < |s| ==> s[|s| - |r| - 1] == ' ')
  {
    if s != [] && s[|s| - 1] != ' ' {
      var init, c := s[..|s| - 1], s[|s| - 1];
      var t := LastToken(init);
      LastTokenFacts(init);
      var r := t + [c];
      assert LastToken(s) == r;
      assert s[|s| - |r|..] == init[|init| - |t|..] + [c];
      assert forall x :: x in r <==> x in t || x == c;
      if |r| < |s| {
        assert s[|s| - |r| - 1] == init[|init| - |t| - 1];
      }
    }
  }

  /** The text after the last space is all that follows that space. */
  lemma {:induction false} LastTokenAfterSpace(a: string, b: string)
    requires ' ' !in b
    ensures LastToken(a + " " + b) == b
  {
    var s := a + " " + b;
    var r := LastToken(s);
    LastTokenFacts(s);
    assert forall j :: |s| - |b| <= j < |s| ==> s[j] == b[j - (|s| - |b|)];
    assert s[|s| - |b| - 1] == ' ';
    assert forall j :: |s| - |r| <= j < |s| ==> s[j] == r[j - (|s| - |r|)];
    assert s[|s| - |b|..] == b;
  }

  /** The short key a driver's fields are stored under: the surname, or
      the whole name when it ends in a space or is empty. */
  function DriverKey(name: string): string
  {
    var t := LastToken(name);
    if t == [] then name else t
  }

  /** The key ends the name: it is the whole name, or the non-empty,
      space-free text after the name's last space. */
  lemma DriverKeySuffix(name: string)
    ensures var k := DriverKey(name);
      && |k| <= |name| && name[|name| - |k|..] == k
      && (k == name || (k != [] && ' ' !in k && name[|name| - |k| - 1] == ' '))
  {
    LastTokenFacts(name);
  }

  /** A name made of words gives its last word; taking the key of a key
      gives it back. */
  lemma DriverKeyOfName(first: string, last: string)
    requires last != [] && ' ' !in last
    ensures DriverKey(first + " " + last) == last
    ensures DriverKey(DriverKey(first + " " + last)) == last
  {
    LastTokenAfterSpace(first, last);
    LastTokenFacts(last);
    var t := LastToken(last);
    assert last[|last| - |t|..] == t;
  }

  /** The field a driver's reading is stored under, e.g. "Norris_lapTime". */
  function FieldKey(driverKey: string, m: Metric): string
  {
    driverKey + "_" + MetricName(m)
  }

  /** Text joined by an underscore to a suffix without underscores splits
      back uniquely. */
  lemma UnderscoreSplit(k1: string, a: string, k2: string, b: string)
    requires '_' !in a && '_' !in b && k1 + "_" + a == k2 + "_" + b
    ensures k1 == k2 && a == b
  {
    var f := k1 + "_" + a;
    if |a| < |b| {
      UnderscoreInside(k1, a, k2, b);
    } else if |b| < |a| {
      UnderscoreInside(k2, b, k1, a);
    }
    assert a == f[|f| - |a|..] && b == f[|f| - |b|..];
    assert k1 == f[..|k1|] && k2 == f[..|k2|];
  }

  /** A shorter suffix would put its underscore inside the longer one. */
  lemma UnderscoreInside(k1: string, a: string, k2: string, b: string)
    requires '_' !in b && k1 + "_" + a == k2 + "_" + b
    ensures |b| <= |a|
  {
    var f := k1 + "_" + a;
    assert f[|f| - |a| - 1] == '_';
    assert forall j :: |f| - |b| <= j < |f| ==> f[j] == b[j - (|f| - |b|)];
  }

  /** Different drivers or different metrics never share a field. */
  lemma FieldKeyInjective(k1: string, m1: Metric, k2: string, m2: Metric)
    ensures FieldKey(k1, m1) == FieldKey(k2, m2) <==> k1 == k2 && m1 == m2
  {
    if FieldKey(k1, m1) == FieldKey(k2, m2) {
      MetricNameFacts(m1, m2);
      MetricNameFacts(m2, m1);
      UnderscoreSplit(k1, MetricName(m1), k2, MetricName(m2));
    }
  }

  /** Writes the seven readings of `e` under the driver key `k`. */
  function WriteFields(fields: map<string, real>, k: string, e: TelemetrySample): (r: map<string, real>)
    ensures forall m :: FieldKey(k, m) in r && r[FieldKey(k, m)] == MetricValue(m, e)
    ensures forall key :: key in r <==> key in fields || exists m :: key == FieldKey(k, m)
    ensures forall key :: key in fields && (forall m :: key != FieldKey(k, m)) ==> r[key] == fields[key]
  {
    assert forall m1, m2 :: FieldKey(k, m1) == FieldKey(k, m2) ==> m1 == m2 by {
      forall m1, m2 ensures FieldKey(k, m1) == FieldKey(k, m2) ==> m1 == m2 {
        FieldKeyInjective(k, m1, k, m2);
      }
    }
    assert forall m :: m in Metrics() by {
      forall m ensures m in Metrics() { MetricsListed(m); }
    }
    fields + map m | m in Metrics() :: FieldKey(k, m) := MetricValue(m, e)
  }

  /** The lap-keyed rows built by visiting the samples in order; a later
      sample of the same lap and driver key overwrites the earlier one. */
  function Pivot(data: seq<TelemetrySample>, keyOf: string -> string): map<int, map<string, real>>
  {
    if data == [] then map[]
    else
      var p := Pivot(data[..|data| - 1], keyOf);
      var e := data[|data| - 1];
      var row := if e.lap in p then p[e.lap] else map[];
      p[e.lap := WriteFields(row, keyOf(e.driver), e)]
  }

  /** There is a row for a lap exactly when some sample is of that lap. */
  lemma {:induction false} PivotLaps(data: seq<TelemetrySample>, keyOf: string -> string, lap: int)
    ensures lap in Pivot(data, keyOf) <==> exists i :: 0 <= i < |data| && data[i].lap == lap
  {
    if data != [] {
      var init := data[..|data| - 1];
      var e := data[|data| - 1];
      PivotLaps(init, keyOf, lap);
      assert lap in Pivot(data, keyOf) <==> lap == e.lap || lap in Pivot(init, keyOf);
      if exists i :: 0 <= i < |data| && data[i].lap == lap {
        var i :| 0 <= i < |data| && data[i].lap == lap;
        if i < |init| {
          assert init[i].lap == lap;
        }
      }
      if lap in Pivot(init, keyOf) {
        var i :| 0 <= i < |init| && init[i].lap == lap;
        assert data[i].lap == lap;
      }
    }
  }

  /** Each sample's seven readings end up in its lap's row unless a later
      sample of the same lap and driver key replaces them. */
  lemma {:induction false} PivotLastWins(data: seq<TelemetrySample>, keyOf: string -> string, i: nat, m: Metric)
    requires i < |data|
    requires forall j :: i < j < |data| && data[j].lap == data[i].lap ==> keyOf(data[j].driver) != keyOf(data[i].driver)
    ensures var key := FieldKey(keyOf(data[i].driver), m);
      data[i].lap in Pivot(data, keyOf) && key in Pivot(data, keyOf)[data[i].lap]
      && Pivot(data, keyOf)[data[i].lap][key] == MetricValue(m, data[i])
  {
    var init := data[..|data| - 1];
    var e := data[|data| - 1];
    var key := FieldKey(keyOf(data[i].driver), m);
    var p := Pivot(init, keyOf);
    var row := if e.lap in p then p[e.lap] else map[];
    var written := WriteFields(row, keyOf(e.driver), e);
    assert Pivot(data, keyOf) == p[e.lap := written];
    if i == |data| - 1 {
      assert key in written && written[key] == MetricValue(m, e);
    } else {
      assert init[i] == data[i];
      assert forall j :: i < j < |init| ==> init[j] == data[j];
      PivotLastWins(init, keyOf, i, m);
      if e.lap == data[i].lap {
        assert keyOf(e.driver) != keyOf(data[i].driver);
        forall n ensures key != FieldKey(keyOf(e.driver), n) {
          FieldKeyInjective(keyOf(data[i].driver), m, keyOf(e.driver), n);
        }
        WriteFieldsKeeps(row, keyOf(e.driver), e, key);
      }
    }
  }

  /** Writing one driver's fields leaves a field of another key alone. */
  lemma WriteFieldsKeeps(fields: map<string, real>, k: string, e: TelemetrySample, key: string)
    requires key in fields && forall m :: key != FieldKey(k, m)
    ensures key in WriteFields(fields, k, e) && WriteFields(fields, k, e)[key] == fields[key]
  {
  }

  /** Some sample of `lap` writes the field `key`. */
  predicate Written(data: seq<TelemetrySample>, keyOf: string -> string, lap: int, key: string)
  {
    exists i, m :: 0 <= i < |data| && data[i].lap == lap && key == FieldKey(keyOf(data[i].driver), m)
  }

  lemma WrittenSnoc(data: seq<TelemetrySample>, keyOf: string -> string, lap: int, key: string)
    requires data != []
    ensures var e := data[|data| - 1];
      Written(data, keyOf, lap, key) <==>
      Written(data[..|data| - 1], keyOf, lap, key) || (e.lap == lap && exists m :: key == FieldKey(keyOf(e.driver), m))
  {
    var init := data[..|data| - 1];
    if Written(data, keyOf, lap, key) {
      var i, m :| 0 <= i < |data| && data[i].lap == lap && key == FieldKey(keyOf(data[i].driver), m);
      if i < |init| {
        assert init[i] == data[i];
        assert Written(init, keyOf, lap, key);
      } else {
        assert data[i] == data[|data| - 1];
      }
    }
    if Written(init, keyOf, lap, key) {
      var i, m :| 0 <= i < |init| && init[i].lap == lap && key == FieldKey(keyOf(init[i].driver), m);
      assert data[i] == init[i];
    }
  }

  /** A row holds exactly the fields the samples of its lap write. */
  lemma {:induction false} PivotFields(data: seq<TelemetrySample>, keyOf: string -> string, lap: int, key: string)
    requires lap in Pivot(data, keyOf)
    ensures key in Pivot(data, keyOf)[lap] <==> Written(data, keyOf, lap, key)
  {
    var init := data[..|data| - 1];
    var e := data[|data| - 1];
    var p := Pivot(init, keyOf);
    var row := if e.lap in p then p[e.lap] else map[];
    var written := WriteFields(row, keyOf(e.driver), e);
    assert Pivot(data, keyOf) == p[e.lap := written];
    WrittenSnoc(data, keyOf, lap, key);
    PivotLaps(init, keyOf, lap);
    if lap in p {
      PivotFields(init, keyOf, lap, key);
    } else {
      assert !Written(init, keyOf, lap, key);
    }
    if lap == e.lap {
      assert key in written <==> key in row || exists m :: key == FieldKey(keyOf(e.driver), m);
    }
  }

  /** The laps the samples were taken on. */
  function LapsOf(data: seq<TelemetrySample>): set<int>
  {
    set i | 0 <= i < |data| :: data[i].lap
  }

  /** One chart row: the lap and the fields written for it. */
  datatype PivotRow = PivotRow(lap: int, fields: map<string, real>)

  function RowLaps(rows: seq<PivotRow>): set<int>
  {
    set i | 0 <= i < |rows| :: rows[i].lap
  }

  function RowOf(p: map<int, map<string, real>>, lap: int): PivotRow
  {
    PivotRow(lap, if lap in p then p[lap] else map[])
  }

  /** The overview chart's data: the rows in the order their laps first
      appear, then sorted by lap. */
  function OverviewChartData(data: seq<TelemetrySample>): (rows: seq<PivotRow>)
    ensures forall i, j :: 0 <= i < j < |rows| ==> rows[i].lap < rows[j].lap
    ensures RowLaps(rows) == LapsOf(data)
    ensures forall i :: 0 <= i < |rows| ==> rows[i].lap in Pivot(data, DriverKey) && rows[i].fields == Pivot(data, DriverKey)[rows[i].lap]
  {
    var p := Pivot(data, DriverKey);
    var laps := Dedup(Map((e: TelemetrySample) => e.lap, data));
    var unsorted := Map((lap: int) => RowOf(p, lap), laps);
    var rows := SortBy(unsorted, (r: PivotRow) => Num(r.lap), false);
    FirstSeenLaps(data, laps);
    PermutationMembers(unsorted, rows);
    RowsOfLaps(laps, unsorted, rows, p);
    RowsAscending(laps, unsorted, rows, p);
    RowsCoverLaps(data, laps, unsorted, rows, p);
    rows
  }

  /** The laps in first-seen order are the sample laps, each with a row. */
  lemma FirstSeenLaps(data: seq<TelemetrySample>, laps: seq<int>)
    requires laps == Dedup(Map((e: TelemetrySample) => e.lap, data))
    ensures NoDup(laps)
    ensures forall x :: x in laps <==> x in LapsOf(data)
    ensures forall x :: x in laps ==> x in Pivot(data, DriverKey)
  {
    var allLaps := Map((e: TelemetrySample) => e.lap, data);
    forall x ensures x in laps <==> x in LapsOf(data) {
      if x in laps {
        var k :| 0 <= k < |laps| && laps[k] == x;
        var e :| 0 <= e < |allLaps| && allLaps[e] == x;
        assert data[e].lap == x;
      }
      if x in LapsOf(data) {
        var i :| 0 <= i < |data| && data[i].lap == x;
        assert allLaps[i] == x;
      }
    }
    forall x | x in laps ensures x in Pivot(data, DriverKey) {
      PivotLaps(data, DriverKey, x);
    }
  }

  /** Every sorted row is the row of one of the laps. */
  lemma RowsOfLaps(laps: seq<int>, unsorted: seq<PivotRow>, rows: seq<PivotRow>, p: map<int, map<string, real>>)
    requires forall x :: x in laps ==> x in p
    requires unsorted == Map((lap: int) => RowOf(p, lap), laps)
    requires forall r :: r in rows <==> r in unsorted
    ensures forall i :: 0 <= i < |rows| ==> rows[i].lap in p && rows[i].fields == p[rows[i].lap]
  {
    forall i | 0 <= i < |rows|
      ensures rows[i].lap in p && rows[i].fields == p[rows[i].lap]
    {
      assert rows[i] in unsorted;
      var k :| 0 <= k < |unsorted| && unsorted[k] == rows[i];
      assert laps[k] in laps;
    }
  }

  /** Sorting rows with distinct laps leaves them strictly ascending. */
  lemma RowsAscending(laps: seq<int>, unsorted: seq<PivotRow>, rows: seq<PivotRow>, p: map<int, map<string, real>>)
    requires NoDup(laps)
    requires unsorted == Map((lap: int) => RowOf(p, lap), laps)
    requires multiset(rows) == multiset(unsorted)
    requires Sorted(rows, (r: PivotRow) => Num(r.lap), false)
    ensures forall i, j :: 0 <= i < j < |rows| ==> rows[i].lap < rows[j].lap
  {
    assert NoDup(unsorted) by {
      forall i, j | 0 <= i < j < |unsorted| ensures unsorted[i] != unsorted[j] {
        assert unsorted[i].lap == laps[i] && unsorted[j].lap == laps[j];
      }
    }
    PermutationNoDup(unsorted, rows);
    PermutationMembers(unsorted, rows);
    forall i, j | 0 <= i < j < |rows| ensures rows[i].lap < rows[j].lap {
      assert !KeyLess(Num(rows[j].lap), Num(rows[i].lap));
      assert rows[i] in unsorted && rows[j] in unsorted;
      assert rows[i] != rows[j];
    }
  }

  /** The sorted rows have exactly the laps of the samples. */
  lemma RowsCoverLaps(data: seq<TelemetrySample>, laps: seq<int>, unsorted: seq<PivotRow>, rows: seq<PivotRow>, p: map<int, map<string, real>>)
    requires forall x :: x in laps <==> x in LapsOf(data)
    requires unsorted == Map((lap: int) => RowOf(p, lap), laps)
    requires forall r :: r in rows <==> r in unsorted
    ensures RowLaps(rows) == LapsOf(data)
  {
    forall lap | lap in LapsOf(data) ensures lap in RowLaps(rows) {
      var k :| 0 <= k < |laps| && laps[k] == lap;
      assert unsorted[k] in rows;
      var j :| 0 <= j < |rows| && rows[j] == unsorted[k];
    }
    forall lap | lap in RowLaps(rows) ensures lap in LapsOf(data) {
      var i :| 0 <= i < |rows| && rows[i].lap == lap;
      assert rows[i] in unsorted;
      var k :| 0 <= k < |unsorted| && unsorted[k] == rows[i];
      assert laps[k] in laps;
    }
  }

  /** The twenty line colours, cycled through by driver. */
  function DriverColors(): seq<string>
  {
    [
    "#1f77b4", "#ff7f0e", "#2ca02c", "#d62728", "#9467bd",
    "#8c564b", "#e377c2", "#7f7f7f", "#bcbd22", "#17becf",
    "#aec7e8", "#ffbb78", "#98df8a", "#ff9896", "#c5b0d5",
    "#c49c94", "#f7b6d2", "#c7c7c7", "#dbdb8d", "#9edae5"]
  }

  const PaletteSize: nat := 20

  /** The palette has `PaletteSize` colours. */
  lemma PaletteSizeIs()
    ensures |DriverColors()| == PaletteSize
  {
  }

  /** The palette entry of the driver at `index` in the driver list. */
  function ColorIndex(index: nat): (c: nat)
    ensures c < PaletteSize
    ensures index < PaletteSize ==> c == index
  {
    index % PaletteSize
  }

  /** The colours repeat every twenty drivers, and twenty drivers in a row
      all get different colours. */
  lemma ColorIndexCycle(i: nat, j: nat)
    ensures ColorIndex(i + PaletteSize) == ColorIndex(i)
    ensures i < j < i + PaletteSize ==> ColorIndex(i) != ColorIndex(j)
  {
  }

  /** The colour of the driver at `index`. */
  function LineColor(index: nat): (c: string)
    ensures c in DriverColors()
  {
    PaletteSizeIs();
    DriverColors()[ColorIndex(index)]
  }

  /** A line of the overview chart. */
  datatype ChartLine = ChartLine(dataKey: string, metric: Metric, colorIndex: nat, hidden: bool)

  /** The lines of one metric, one per driver key, coloured by the
      driver's place in the list and hidden when switched off in the legend. */
  function MetricLines(m: Metric, keys: seq<string>, inactive: set<string>): (r: seq<ChartLine>)
    ensures |r| == |keys|
    ensures forall i :: 0 <= i < |r| ==>
      && r[i].dataKey == FieldKey(keys[i], m) && r[i].metric == m
      && r[i].colorIndex == ColorIndex(i) && r[i].colorIndex < PaletteSize
      && (r[i].hidden <==> FieldKey(keys[i], m) in inactive)
  {
    seq(|keys|, i requires 0 <= i < |keys| => ChartLine(FieldKey(keys[i], m), m, ColorIndex(i), FieldKey(keys[i], m) in inactive))
  }

  /** The lines of the overview chart for the metrics in `ms` that are visible. */
  function LinesFor(ms: seq<Metric>, visible: set<Metric>, keys: seq<string>, inactive: set<string>): (r: seq<ChartLine>)
    ensures forall l :: l in r ==> l.metric in ms && l.metric in visible
  {
    if ms == [] then []
    else
      var here := if ms[0] in visible then MetricLines(ms[0], keys, inactive) else [];
      here + LinesFor(ms[1..], visible, keys, inactive)
  }

  /** Every line drawn, metric by metric in configuration order. */
  function OverviewLines(visible: set<Metric>, drivers: seq<string>, inactive: set<string>): seq<ChartLine>
  {
    LinesFor(Metrics(), visible, Map(DriverKey, drivers), inactive)
  }

  /** A metric's lines draw the fields of that metric for exactly the listed keys. */
  lemma MetricLinesDrawn(m0: Metric, keys: seq<string>, inactive: set<string>, k: string, m: Metric)
    ensures (exists l :: l in MetricLines(m0, keys, inactive) && l.dataKey == FieldKey(k, m)) <==>
            m == m0 && k in keys
  {
    var here := MetricLines(m0, keys, inactive);
    if exists l :: l in here && l.dataKey == FieldKey(k, m) {
      var l :| l in here && l.dataKey == FieldKey(k, m);
      var i :| 0 <= i < |here| && here[i] == l;
      DrawnKey(keys, m0, k, m, i);
    }
    if m == m0 && k in keys {
      var i :| 0 <= i < |keys| && keys[i] == k;
      assert here[i] in here;
    }
  }

  lemma DrawnKey(keys: seq<string>, m0: Metric, k: string, m: Metric, i: nat)
    requires i < |keys| && FieldKey(keys[i], m0) == FieldKey(k, m)
    ensures m == m0 && k in keys
  {
    FieldKeyInjective(keys[i], m0, k, m);
  }

  /** A field is drawn exactly when its metric is visible and its driver
      key is among the drivers'. */
  lemma {:induction false} LinesForDrawn(ms: seq<Metric>, visible: set<Metric>, keys: seq<string>, inactive: set<string>, k: string, m: Metric)
    ensures (exists l :: l in LinesFor(ms, visible, keys, inactive) && l.dataKey == FieldKey(k, m)) <==>
            m in ms && m in visible && k in keys
  {
    if ms != [] {
      var rest := LinesFor(ms[1..], visible, keys, inactive);
      var here := if ms[0] in visible then MetricLines(ms[0], keys, inactive) else [];
      assert LinesFor(ms, visible, keys, inactive) == here + rest;
      LinesForDrawn(ms[1..], visible, keys, inactive, k, m);
      MetricLinesDrawn(ms[0], keys, inactive, k, m);
      assert forall l :: l in here + rest <==> l in here || l in rest;
      assert forall x :: x in ms <==> x == ms[0] || x in ms[1..];
    }
  }

  /** The metrics shown when the chart opens. */
  function InitialVisibleMetrics(): set<Metric>
  {
    {LapTime, TireWear}
  }

  /** Adds `x` when absent, removes it when present. */
  function Toggle<T(!new)>(s: set<T>, x: T): (r: set<T>)
    ensures x in r <==> x !in s
    ensures forall y :: y != x ==> (y in r <==> y in s)
  {
    if x in s then s - {x} else s + {x}
  }

  /** Toggling the same element twice gives the set back. */
  lemma ToggleInvolution<T(!new)>(s: set<T>, x: T)
    ensures Toggle(Toggle(s, x), x) == s
  {
  }

  /** A metric check-box: the metric's lines appear when they were hidden
      and disappear when they were shown; no other metric changes. */
  function ToggleMetric(visible: set<Metric>, metric: Metric): (r: set<Metric>)
    ensures metric in r <==> metric !in visible
    ensures forall m :: m != metric ==> (m in r <==> m in visible)
  {
    Toggle(visible, metric)
  }

  /** Switching a metric off and on again draws the same lines. */
  lemma ToggleMetricRestoresLines(visible: set<Metric>, metric: Metric, drivers: seq<string>, inactive: set<string>)
    ensures OverviewLines(ToggleMetric(ToggleMetric(visible, metric), metric), drivers, inactive) == OverviewLines(visible, drivers, inactive)
  {
    ToggleInvolution(visible, metric);
  }

  /** A legend click on a line: that line is hidden when it was shown and
      shown when it was hidden; every other line keeps its state. */
  function HandleLegendClick(inactive: set<string>, dataKey: string): (r: set<string>)
    ensures dataKey in r <==> dataKey !in inactive
    ensures forall k :: k != dataKey ==> (k in r <==> k in inactive)
  {
    Toggle(inactive, dataKey)
  }

  /** After a legend click, a drawn line is hidden exactly when it was
      shown before, if it was the clicked one. */
  lemma LegendClickHides(visible: set<Metric>, drivers: seq<string>, inactive: set<string>, dataKey: string, i: nat)
    requires i < |OverviewLines(visible, drivers, inactive)|
    ensures var before := OverviewLines(visible, drivers, inactive);
      var after := OverviewLines(visible, drivers, HandleLegendClick(inactive, dataKey));
      |after| == |before| && after[i].dataKey == before[i].dataKey
      && (after[i].hidden <==> (before[i].dataKey == dataKey) != before[i].hidden)
  {
    var keys := Map(DriverKey, drivers);
    LinesSameShape(Metrics(), visible, keys, inactive, HandleLegendClick(inactive, dataKey));
  }

  lemma {:induction false} LinesSameShape(ms: seq<Metric>, visible: set<Metric>, keys: seq<string>, a: set<string>, b: set<string>)
    ensures var x, y := LinesFor(ms, visible, keys, a), LinesFor(ms, visible, keys, b);
      |x| == |y| && forall i :: 0 <= i < |x| ==>
        && y[i].dataKey == x[i].dataKey && y[i].metric == x[i].metric && y[i].colorIndex == x[i].colorIndex
        && (x[i].hidden <==> x[i].dataKey in a) && (y[i].hidden <==> y[i].dataKey in b)
  {
    if ms != [] {
      LinesSameShape(ms[1..], visible, keys, a, b);
      var hereA := if ms[0] in visible then MetricLines(ms[0], keys, a) else [];
      var hereB := if ms[0] in visible then MetricLines(ms[0], keys, b) else [];
      var restA, restB := LinesFor(ms[1..], visible, keys, a), LinesFor(ms[1..], visible, keys, b);
      assert LinesFor(ms, visible, keys, a) == hereA + restA;
      assert LinesFor(ms, visible, keys, b) == hereB + restB;
      assert |hereA| == |hereB|;
    }
  }
}
