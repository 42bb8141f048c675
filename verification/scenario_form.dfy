// The custom-scenario form: its default values, editing one grid slot,
// validation of the typed-in values, and building the scenario on submit.

module ScenarioForm {
  import opened Wrappers
  import opened Strings
  import opened Seqs
  import opened Types

  /** The form's fields as typed: the lap count is still text. */
  datatype FormState = FormState(track: string, weather: string, raceLaps: string, grid: seq<GridEntry>)

  const TrackField: string := "track"
  const LapsField: string := "raceLaps"
  const GridField: string := "startingGrid"

  const TrackMessage: string := "Track name is required."
  const LapsMessage: string := "Race laps must be a number between 20 and 100."
  const GridMessage: string := "All driver names are required."

  const MinLaps: int := 20
  const MaxLaps: int := 100

  /** The twenty drivers the grid starts with, pole first. */
  function DefaultDrivers(): seq<string>
  {
    [
    "L. Norris", "M. Verstappen", "C. Leclerc", "O. Piastri", "G. Russell",
    "L. Hamilton", "C. Sainz", "S. Perez", "F. Alonso", "Y. Tsunoda",
    "L. Stroll", "D. Ricciardo", "A. Albon", "P. Gasly", "E. Ocon",
    "K. Magnussen", "N. Hulkenberg", "V. Bottas", "G. Zhou", "L. Sargeant"]
  }

  /** Numbers the names from position `from` onwards. */
  function NumberFrom(names: seq<string>, from: int): (g: seq<GridEntry>)
    ensures |g| == |names|
    ensures forall i :: 0 <= i < |g| ==> g[i] == GridEntry(from + i, names[i])
  {
    if names == [] then [] else [GridEntry(from, names[0])] + NumberFrom(names[1..], from + 1)
  }

  function DefaultGrid(): seq<GridEntry>
  {
    NumberFrom(DefaultDrivers(), 1)
  }

  function DefaultForm(): FormState
  {
    FormState("Silverstone", "Sunny", "52", DefaultGrid())
  }

  /** The default grid holds twenty drivers at positions 1 to 20. */
  lemma DefaultGridShape()
    ensures var g := DefaultGrid();
      |g| == 20
      && (forall i :: 0 <= i < |g| ==> g[i] == GridEntry(i + 1, DefaultDrivers()[i]))
  {
    var d := DefaultDrivers();
    assert |d| == 20;
  }

  /** Sets the driver name in slot `index`; positions and the other slots
      are kept. A slot outside the grid makes the source throw. */
  function HandleGridChange(grid: seq<GridEntry>, index: int, driver: string): (r: Option<seq<GridEntry>>)
    ensures r.None? <==> !(0 <= index < |grid|)
    ensures r.Some? ==>
      && |r.value| == |grid|
      && r.value[index] == GridEntry(grid[index].position, driver)
      && (forall i :: 0 <= i < |grid| && i != index ==> r.value[i] == grid[i])
  {
    if 0 <= index < |grid| then Some(grid[index := grid[index].(driver := driver)]) else None
  }

  /** Editing a slot never moves anyone: the positions stay as they were. */
  lemma GridChangeKeepsPositions(grid: seq<GridEntry>, index: int, driver: string)
    requires 0 <= index < |grid|
    ensures var r := HandleGridChange(grid, index, driver).value;
      forall i :: 0 <= i < |grid| ==> r[i].position == grid[i].position
  {
  }

  /** Typing the old name back into the slot restores the grid, and the
      last of two edits to one slot wins. */
  lemma GridChangeUndo(grid: seq<GridEntry>, index: int, first: string, second: string)
    requires 0 <= index < |grid|
    ensures HandleGridChange(HandleGridChange(grid, index, first).value, index, grid[index].driver).value == grid
    ensures HandleGridChange(HandleGridChange(grid, index, first).value, index, second)
      == HandleGridChange(grid, index, second)
  {
    var once := HandleGridChange(grid, index, first).value;
    var back := HandleGridChange(once, index, grid[index].driver).value;
    assert back == grid;
    var twice := HandleGridChange(once, index, second).value;
    assert twice == HandleGridChange(grid, index, second).value;
  }

  // ---------------------------------------------------------------------
  // Grid entries as shared objects
  // ---------------------------------------------------------------------

  /** The grid as the browser holds it: an array of references into a
      store of entry objects. Two arrays may hold the same reference. */
  predicate Stored(store: seq<GridEntry>, refs: seq<nat>)
  {
    forall i :: 0 <= i < |refs| ==> refs[i] < |store|
  }

  /** The entries an array of references denotes. */
  function Deref(store: seq<GridEntry>, refs: seq<nat>): (g: seq<GridEntry>)
    requires Stored(store, refs)
    ensures |g| == |refs| && forall i :: 0 <= i < |g| ==> g[i] == store[refs[i]]
  {
    seq(|refs|, i requires 0 <= i < |refs| => store[refs[i]])
  }

  /** `handleGridChange` as written: the array is copied, but the entry in
      slot `index` is changed in place, so every array holding that entry
      sees the new name. The result is the new store and the new array. */
  function SharedGridChange(store: seq<GridEntry>, refs: seq<nat>, index: int, driver: string)
    : (r: Option<(seq<GridEntry>, seq<nat>)>)
    requires Stored(store, refs)
    ensures r.None? <==> !(0 <= index < |refs|)
    ensures r.Some? ==> |r.value.0| == |store| && r.value.1 == refs
  {
    if 0 <= index < |refs| then
      var k := refs[index];
      Some((store[k := store[k].(driver := driver)], refs))
    else None
  }

  /** The intended change: the edited slot gets a new entry object, and
      the old one stays as it was for any other array holding it. */
  function CopiedGridChange(store: seq<GridEntry>, refs: seq<nat>, index: int, driver: string)
    : (r: Option<(seq<GridEntry>, seq<nat>)>)
    requires Stored(store, refs)
    ensures r.None? <==> !(0 <= index < |refs|)
    ensures r.Some? ==> |r.value.0| == |store| + 1 && r.value.0[..|store|] == store && Stored(r.value.0, r.value.1)
    ensures r.Some? ==> NoDup(refs) ==> NoDup(r.value.1)
  {
    if 0 <= index < |refs| then
      Some((store + [store[refs[index]].(driver := driver)], refs[index := |store|]))
    else None
  }

  /** Either way the form shows the grid `HandleGridChange` computes, as
      long as no entry object sits in two slots (the default grid's twenty
      entries are distinct objects). */
  lemma GridChangesAgreeOnForm(store: seq<GridEntry>, refs: seq<nat>, index: int, driver: string)
    requires Stored(store, refs) && NoDup(refs) && 0 <= index < |refs|
    ensures var p := SharedGridChange(store, refs, index, driver).value;
      Stored(p.0, p.1) && Deref(p.0, p.1) == HandleGridChange(Deref(store, refs), index, driver).value
    ensures var p := CopiedGridChange(store, refs, index, driver).value;
      Deref(p.0, p.1) == HandleGridChange(Deref(store, refs), index, driver).value
  {
    var p := SharedGridChange(store, refs, index, driver).value;
    var want := HandleGridChange(Deref(store, refs), index, driver).value;
    assert Deref(p.0, p.1) == want by {
      forall i | 0 <= i < |refs| ensures Deref(p.0, p.1)[i] == want[i] {
        if i != index {
          assert refs[i] != refs[index];
        }
      }
    }
    var q := CopiedGridChange(store, refs, index, driver).value;
    assert Deref(q.0, q.1) == want by {
      forall i | 0 <= i < |refs| ensures Deref(q.0, q.1)[i] == want[i] {
        if i != index {
          assert q.0[refs[i]] == store[refs[i]];
        }
      }
    }
  }

  /** As written, a grid handed over earlier that holds the edited entry
      changes with the form: its slot now carries the new name. */
  lemma SharedEditLeaks(store: seq<GridEntry>, refs: seq<nat>, index: int, driver: string, submitted: seq<nat>, j: nat)
    requires Stored(store, refs) && Stored(store, submitted) && 0 <= index < |refs|
    requires j < |submitted| && submitted[j] == refs[index]
    ensures var p := SharedGridChange(store, refs, index, driver).value;
      Stored(p.0, submitted) && Deref(p.0, submitted)[j].driver == driver
  {
  }

  /** The scenario submitted from a one-driver grid holds the form's own
      array; typing another name into P1 afterwards renames the
      scenario's lead driver. */
  lemma SubmittedLeadRenamed()
    ensures var store, refs := [GridEntry(1, "L. Norris")], [0];
      var p := SharedGridChange(store, refs, 0, "O. Piastri").value;
      Deref(store, refs)[0].driver == "L. Norris"
      && Deref(p.0, refs)[0].driver == "O. Piastri"
  {
    var store, refs := [GridEntry(1, "L. Norris")], [0];
    SharedEditLeaks(store, refs, 0, "O. Piastri", refs, 0);
  }

  /** With the copy, every grid handed over earlier keeps its entries. */
  lemma CopiedEditKeepsSubmitted(store: seq<GridEntry>, refs: seq<nat>, index: int, driver: string, submitted: seq<nat>)
    requires Stored(store, refs) && Stored(store, submitted) && 0 <= index < |refs|
    ensures var p := CopiedGridChange(store, refs, index, driver).value;
      Stored(p.0, submitted) && Deref(p.0, submitted) == Deref(store, submitted)
  {
    var p := CopiedGridChange(store, refs, index, driver).value;
    assert forall i :: 0 <= i < |submitted| ==> p.0[submitted[i]] == store[submitted[i]];
  }

  /** The lap count is acceptable when it parses and is within 20..100. */
  predicate LapsOk(laps: Option<int>)
  {
    laps.Some? && MinLaps <= laps.value <= MaxLaps
  }

  /** Some grid slot holds a name that trims to nothing. */
  predicate SomeBlankDriver(grid: seq<GridEntry>)
  {
    exists i :: 0 <= i < |grid| && Trim(grid[i].driver) == []
  }

  lemma SomeBlankDriverIff(grid: seq<GridEntry>)
    ensures SomeBlankDriver(grid) <==> exists i :: 0 <= i < |grid| && IsBlank(grid[i].driver)
  {
    forall i | 0 <= i < |grid|
      ensures Trim(grid[i].driver) == [] <==> IsBlank(grid[i].driver)
    {
      TrimEmptyIffBlank(grid[i].driver);
    }
  }

  /** The error record holding the message of each failed field. */
  function ErrorMap(trackBad: bool, lapsBad: bool, gridBad: bool): (errors: map<string, string>)
    ensures errors.Keys <= {TrackField, LapsField, GridField}
    ensures TrackField in errors <==> trackBad
    ensures LapsField in errors <==> lapsBad
    ensures GridField in errors <==> gridBad
    ensures TrackField in errors ==> errors[TrackField] == TrackMessage
    ensures LapsField in errors ==> errors[LapsField] == LapsMessage
    ensures GridField in errors ==> errors[GridField] == GridMessage
  {
    assert TrackField[0] == 't' && LapsField[0] == 'r' && GridField[0] == 's';
    var e1: map<string, string> := if trackBad then map[TrackField := TrackMessage] else map[];
    var e2 := if lapsBad then e1[LapsField := LapsMessage] else e1;
    if gridBad then e2[GridField := GridMessage] else e2
  }

  /** The error messages the form shows, keyed by field: the track trims
      to nothing, the laps do not parse to 20..100, or a driver name trims
      to nothing. */
  function Validate(f: FormState): (errors: map<string, string>)
    ensures errors.Keys <= {TrackField, LapsField, GridField}
    ensures TrackField in errors <==> IsBlank(f.track)
    ensures LapsField in errors <==> !(exists n :: ParseInt(f.raceLaps) == Some(n) && MinLaps <= n <= MaxLaps)
    ensures GridField in errors <==> exists i :: 0 <= i < |f.grid| && IsBlank(f.grid[i].driver)
  {
    TrimEmptyIffBlank(f.track);
    SomeBlankDriverIff(f.grid);
    ErrorMap(Trim(f.track) == [], !LapsOk(ParseInt(f.raceLaps)), SomeBlankDriver(f.grid))
  }

  /** The form is accepted when validation finds no error. */
  predicate IsValid(f: FormState)
  {
    |Validate(f)| == 0
  }

  /** The form is accepted exactly when the track is not blank, the laps
      parse to a number within 20..100 and no driver name is blank. */
  lemma ValidIff(f: FormState)
    ensures IsValid(f) <==>
      && !IsBlank(f.track)
      && (exists n :: ParseInt(f.raceLaps) == Some(n) && MinLaps <= n <= MaxLaps)
      && (forall i :: 0 <= i < |f.grid| ==> !IsBlank(f.grid[i].driver))
  {
    var e := Validate(f);
    if |e| == 0 {
      assert TrackField !in e && LapsField !in e && GridField !in e;
    } else {
      var k :| k in e;
    }
  }

  /** The tyres offered for a race: the three slicks, then the two rain
      tyres when the weather mentions rain. */
  function OfferedTires(weather: string): (tires: seq<string>)
    ensures |tires| >= 3 && tires[..3] == [SoftTire, MediumTire, HardTire]
    ensures (IntermediateTire in tires || WetTire in tires) <==> IsRainy(weather)
    ensures |tires| == (if IsRainy(weather) then 5 else 3)
    ensures IsRainy(weather) ==> tires[3..] == [IntermediateTire, WetTire]
  {
    var slicks := [SoftTire, MediumTire, HardTire];
    if IsRainy(weather) then slicks + [IntermediateTire, WetTire] else slicks
  }

  /** Submitting a valid form hands over the scenario built from it; an
      invalid one hands over nothing. */
  function HandleSubmit(f: FormState): (r: Option<RaceScenario>)
    ensures r.Some? <==> IsValid(f)
    ensures r.Some? ==>
      && r.value.track == f.track
      && r.value.weather == f.weather
      && r.value.startingGrid == f.grid
      && r.value.availableTires == OfferedTires(f.weather)
      && Some(r.value.raceLaps) == ParseInt(f.raceLaps)
      && MinLaps <= r.value.raceLaps <= MaxLaps
  {
    if IsValid(f) then
      ValidIff(f);
      Some(RaceScenario(f.track, f.weather, OfferedTires(f.weather), f.grid, ParseInt(f.raceLaps).value))
    else None
  }

  /** A form with a named track, laps parsing to `n` within 20..100 and
      every driver named submits exactly the scenario built from it. */
  lemma SubmitWhenFilled(f: FormState, n: int)
    requires !IsBlank(f.track)
    requires ParseInt(f.raceLaps) == Some(n) && MinLaps <= n <= MaxLaps
    requires forall i :: 0 <= i < |f.grid| ==> !IsBlank(f.grid[i].driver)
    ensures HandleSubmit(f) == Some(RaceScenario(f.track, f.weather, OfferedTires(f.weather), f.grid, n))
  {
    ValidIff(f);
  }
}
