// The strategy timeline: each plan drawn as a bar of stints, each stint as
// wide as its share of the race and coloured by compound, with a pit marker
// at the end of every stint but the last.

module Timeline {
  import opened Wrappers
  import opened Strings
  import opened Types

  /** How a compound is drawn: background class, text class, display name. */
  datatype TireInfo = TireInfo(bg: string, text: string, name: string)

  /** The display name of a compound the timeline does not know. */
  const UnknownName: string := "Unknown"

  /** `getTireInfo`: the compound is matched after lower-casing. */
  function GetTireInfo(tire: string): (info: TireInfo)
    ensures info.name == UnknownName <==> !IsKnownCompound(ToLower(tire))
    ensures info.text == "text-black" <==> ToLower(tire) == "medium" || ToLower(tire) == "hard"
  {
    var lower := ToLower(tire);
    if lower == "soft" then TireInfo("bg-red-600", "text-white", "Soft")
    else if lower == "medium" then TireInfo("bg-yellow-400", "text-black", "Medium")
    else if lower == "hard" then TireInfo("bg-gray-200", "text-black", "Hard")
    else if lower == "intermediate" then TireInfo("bg-green-500", "text-white", "Inter")
    else if lower == "wet" then TireInfo("bg-blue-500", "text-white", "Wet")
    else TireInfo("bg-purple-500", "text-white", UnknownName)
  }

  /** The five compounds the timeline knows, lower-cased. */
  predicate IsKnownCompound(lower: string)
  {
    lower == "soft" || lower == "medium" || lower == "hard" || lower == "intermediate" || lower == "wet"
  }

  /** Spelling a compound in another case draws it the same way. */
  lemma TireInfoCaseInsensitive(tire: string)
    ensures GetTireInfo(ToLower(tire)) == GetTireInfo(tire)
  {
    ToLowerIdempotent(tire);
  }

  /** `name.charAt(0)`: the first character, or nothing for an empty name. */
  function ShortLabel(name: string): (short: string)
    ensures |short| == (if name == [] then 0 else 1)
    ensures short == name[..|short|]
  {
    if name == [] then [] else [name[0]]
  }

  /** On a narrow screen the one-letter label still tells every compound
      apart: different drawings never share their label. */
  lemma ShortLabelsDistinct(a: string, b: string)
    ensures ShortLabel(GetTireInfo(a).name) == ShortLabel(GetTireInfo(b).name) <==> GetTireInfo(a) == GetTireInfo(b)
  {
    var x, y := GetTireInfo(a).name, GetTireInfo(b).name;
    assert ShortLabel(x) == [x[0]] && ShortLabel(y) == [y[0]];
  }

  /** `(part / total) * 100`, the percentage the page lays out; `None`
      stands for the infinite or NaN result of dividing by a zero total. */
  function Percent(part: int, total: int): (p: Option<real>)
    ensures p.None? <==> total == 0
    ensures p.Some? && 0 <= part <= total ==> 0.0 <= p.value <= 100.0
    ensures p.Some? && part == total ==> p.value == 100.0
  {
    if total == 0 then None else Some(Share(part, total))
  }

  function Share(part: int, total: int): real
    requires total != 0
  {
    (part as real / total as real) * 100.0
  }

  /** Shares of one total add up like the parts. */
  lemma ShareAdd(a: int, b: int, total: int)
    requires total != 0
    ensures Share(a, total) + Share(b, total) == Share(a + b, total)
  {
    var t := total as real;
    assert a as real / t + b as real / t == (a + b) as real / t;
  }

  /** The whole is a hundred percent. */
  lemma ShareWhole(total: int)
    requires total != 0
    ensures Share(total, total) == 100.0
  {
    var t := total as real;
    assert t != 0.0;
    assert t / t == 1.0;
  }

  /** The width of a stint's bar: its laps, both ends counted, as a
      percentage of the race. */
  function StintWidth(s: Stint, totalLaps: int): Option<real>
  {
    Percent(StintLength(s), totalLaps)
  }

  /** The pit markers: one for every stint but the last, at the lap the
      stint ends, placed that far along the bar. */
  datatype PitMarker = PitMarker(lap: int, left: Option<real>)

  function PitMarkers(stints: seq<Stint>, totalLaps: int): (markers: seq<PitMarker>)
    ensures |markers| == Max(|stints| - 1, 0)
    ensures forall i :: 0 <= i < |markers| ==>
      markers[i] == PitMarker(stints[i].endLap, Percent(stints[i].endLap, totalLaps))
  {
    var before := if stints == [] then [] else stints[..|stints| - 1];
    seq(|before|, i requires 0 <= i < |before| => PitMarker(before[i].endLap, Percent(before[i].endLap, totalLaps)))
  }

  /** Stints that follow on from each other without gap or overlap. */
  predicate Chained(stints: seq<Stint>)
  {
    forall i :: 0 < i < |stints| ==> stints[i].startLap == stints[i - 1].endLap + 1
  }

  /** Stints that cover laps 1 to `totalLaps` one after the other. */
  predicate CoversRace(stints: seq<Stint>, totalLaps: int)
  {
    stints != [] && Chained(stints) && stints[0].startLap == 1 && stints[|stints| - 1].endLap == totalLaps
  }

  /** The summed widths of the bars of `stints`. */
  function TotalWidth(stints: seq<Stint>, totalLaps: int): real
    requires totalLaps != 0
  {
    if stints == [] then 0.0
    else TotalWidth(stints[..|stints| - 1], totalLaps) + Share(StintLength(stints[|stints| - 1]), totalLaps)
  }

  /** Chained bars from lap 1 reach exactly as far as the last one's end lap. */
  lemma {:induction false} PrefixWidth(stints: seq<Stint>, totalLaps: int, k: nat)
    requires totalLaps != 0 && Chained(stints) && stints != [] && stints[0].startLap == 1
    requires 0 < k <= |stints|
    ensures TotalWidth(stints[..k], totalLaps) == Share(stints[k - 1].endLap, totalLaps)
  {
    var prefix := stints[..k];
    assert prefix[..k - 1] == stints[..k - 1];
    if k == 1 {
      assert TotalWidth(prefix, totalLaps) == 0.0 + Share(StintLength(stints[0]), totalLaps);
    } else {
      PrefixWidth(stints, totalLaps, k - 1);
      ShareAdd(stints[k - 2].endLap, StintLength(stints[k - 1]), totalLaps);
    }
  }

  /** The bars of a plan that covers the race fill the whole timeline. */
  lemma WidthsFillBar(stints: seq<Stint>, totalLaps: int)
    requires totalLaps != 0 && CoversRace(stints, totalLaps)
    ensures forall i :: 0 <= i < |stints| ==> StintWidth(stints[i], totalLaps).Some?
    ensures TotalWidth(stints, totalLaps) == 100.0
  {
    PrefixWidth(stints, totalLaps, |stints|);
    assert stints[..|stints|] == stints;
    ShareWhole(totalLaps);
  }

  /** In a plan that covers the race, each pit marker sits exactly where
      the bar of its stint ends and the next one begins. */
  lemma PitMarkerAtBoundary(stints: seq<Stint>, totalLaps: int, i: nat)
    requires totalLaps != 0 && CoversRace(stints, totalLaps)
    requires i < |PitMarkers(stints, totalLaps)|
    ensures PitMarkers(stints, totalLaps)[i].left == Some(TotalWidth(stints[..i + 1], totalLaps))
  {
    PrefixWidth(stints, totalLaps, i + 1);
  }
}
