// The list of saved scenarios kept by the app: saving the active scenario
// under a time-stamped id, finding one by id to load it, and deleting by id.
// The list is passed in and returned; persisting it is outside the model.

module SavedScenarios {
  import opened Wrappers
  import opened Strings
  import opened Types

  datatype SaveError = NoActiveScenario

  /** The display name of a saved scenario: track, weather and laps. */
  function ScenarioName(s: RaceScenario): string
  {
    s.track + " (" + s.weather + ", " + IntToString(s.raceLaps) + " Laps)"
  }

  /** The id of a scenario saved at clock reading `now` (milliseconds). */
  function ScenarioId(now: int): string
  {
    "scenario-" + IntToString(now)
  }

  /** Ids taken at different clock readings differ. */
  lemma ScenarioIdInjective(m: int, n: int)
    ensures ScenarioId(m) == ScenarioId(n) <==> m == n
  {
    if ScenarioId(m) == ScenarioId(n) {
      var p := "scenario-";
      assert IntToString(m) == ScenarioId(m)[|p|..];
      assert IntToString(n) == ScenarioId(n)[|p|..];
      IntToStringInjective(m, n);
    }
  }

  /** The lap count can be read back from the text between ", " and
      " Laps)" at the end of a saved scenario's name. */
  lemma ScenarioNameLaps(s: RaceScenario)
    ensures var name := ScenarioName(s);
      var prefix := s.track + " (" + s.weather + ", ";
      var suffix := " Laps)";
      |name| == |prefix| + |IntToString(s.raceLaps)| + |suffix|
      && name[..|prefix|] == prefix
      && name[|name| - |suffix|..] == suffix
      && ParseInt(name[|prefix|..|name| - |suffix|]) == Some(s.raceLaps)
  {
    var prefix := s.track + " (" + s.weather + ", ";
    var digits := IntToString(s.raceLaps);
    var name := ScenarioName(s);
    assert name == prefix + digits + " Laps)";
    assert name[|prefix|..|name| - 6] == digits;
    IntToStringRoundTrip(s.raceLaps);
  }

  /** Saving appends the active scenario, named and stamped with `now`;
      without an active scenario nothing is saved. */
  function SaveScenario(saved: seq<SavedScenario>, active: Option<RaceScenario>, now: int): (r: Result<seq<SavedScenario>, SaveError>)
    ensures r.Failure? <==> active.None?
    ensures r.Success? ==>
      && |r.value| == |saved| + 1
      && r.value[..|saved|] == saved
      && r.value[|saved|].scenario == active.value
      && r.value[|saved|].id == ScenarioId(now)
      && r.value[|saved|].name == ScenarioName(active.value)
  {
    match active
    case None => Failure(NoActiveScenario)
    case Some(s) => Success(saved + [SavedScenario(ScenarioId(now), ScenarioName(s), s)])
  }

  /** How many saved scenarios carry `id`. */
  function CountId(saved: seq<SavedScenario>, id: string): nat
  {
    if saved == [] then 0
    else (if saved[0].id == id then 1 else 0) + CountId(saved[1..], id)
  }

  predicate HasId(saved: seq<SavedScenario>, id: string)
  {
    exists i :: 0 <= i < |saved| && saved[i].id == id
  }

  /** Deleting keeps, in order, every scenario whose id differs from `id`. */
  function DeleteScenario(saved: seq<SavedScenario>, id: string): (r: seq<SavedScenario>)
    ensures forall s :: s in r <==> s in saved && s.id != id
    ensures |r| == |saved| - CountId(saved, id)
    ensures !HasId(r, id)
  {
    if saved == [] then []
    else
      var rest := DeleteScenario(saved[1..], id);
      assert forall s :: s in saved <==> s == saved[0] || s in saved[1..];
      var r := if saved[0].id == id then rest else [saved[0]] + rest;
      assert forall i :: 0 <= i < |r| ==> r[i] in r;
      r
  }

  /** Deletion works entry by entry: deleting from a concatenation is
      concatenating the deletions. */
  lemma {:induction false} DeleteConcat(a: seq<SavedScenario>, b: seq<SavedScenario>, id: string)
    ensures DeleteScenario(a + b, id) == DeleteScenario(a, id) + DeleteScenario(b, id)
  {
    if a != [] {
      assert (a + b)[1..] == a[1..] + b;
      DeleteConcat(a[1..], b, id);
    } else {
      assert a + b == b;
    }
  }

  /** Deleting an id that is not present changes nothing. */
  lemma {:induction false} DeleteAbsent(saved: seq<SavedScenario>, id: string)
    requires !HasId(saved, id)
    ensures DeleteScenario(saved, id) == saved
  {
    if saved != [] {
      assert saved[0].id != id;
      assert !HasId(saved[1..], id) by {
        forall i | 0 <= i < |saved[1..]|
          ensures saved[1..][i].id != id
        {
          assert saved[1..][i] == saved[i + 1];
        }
      }
      DeleteAbsent(saved[1..], id);
      assert saved == [saved[0]] + saved[1..];
    }
  }

  /** Deleting twice is deleting once. */
  lemma DeleteIdempotent(saved: seq<SavedScenario>, id: string)
    ensures DeleteScenario(DeleteScenario(saved, id), id) == DeleteScenario(saved, id)
  {
    DeleteAbsent(DeleteScenario(saved, id), id);
  }

  /** Saving at a fresh clock reading and then deleting that id gives the
      list back. */
  lemma DeleteAfterSave(saved: seq<SavedScenario>, active: RaceScenario, now: int)
    requires !HasId(saved, ScenarioId(now))
    ensures DeleteScenario(SaveScenario(saved, Some(active), now).value, ScenarioId(now)) == saved
  {
    var added := SavedScenario(ScenarioId(now), ScenarioName(active), active);
    DeleteConcat(saved, [added], ScenarioId(now));
    DeleteAbsent(saved, ScenarioId(now));
  }

  /** Loading finds the first saved scenario with the given id, or nothing. */
  function FindScenario(saved: seq<SavedScenario>, id: string): (r: Option<SavedScenario>)
    ensures r.None? <==> !HasId(saved, id)
    ensures r.Some? ==> exists i :: 0 <= i < |saved| && saved[i] == r.value && r.value.id == id &&
                                    (forall j :: 0 <= j < i ==> saved[j].id != id)
  {
    if saved == [] then None
    else if saved[0].id == id then Some(saved[0])
    else
      var r := FindScenario(saved[1..], id);
      assert HasId(saved, id) ==> HasId(saved[1..], id) by {
        if HasId(saved, id) {
          var i :| 0 <= i < |saved| && saved[i].id == id;
          assert saved[1..][i - 1] == saved[i];
        }
      }
      if r.Some? then
        var i :| 0 <= i < |saved[1..]| && saved[1..][i] == r.value && r.value.id == id &&
          forall j :: 0 <= j < i ==> saved[1..][j].id != id;
        assert saved[i + 1] == r.value;
        assert forall j :: 1 <= j < i + 1 ==> saved[j] == saved[1..][j - 1];
        r
      else
        r
  }

  /** A scenario just saved at a fresh clock reading is found by its id. */
  lemma FindAfterSave(saved: seq<SavedScenario>, active: RaceScenario, now: int)
    requires !HasId(saved, ScenarioId(now))
    ensures FindScenario(SaveScenario(saved, Some(active), now).value, ScenarioId(now))
      == Some(SavedScenario(ScenarioId(now), ScenarioName(active), active))
  {
    var all := SaveScenario(saved, Some(active), now).value;
    var r := FindScenario(all, ScenarioId(now));
    var i :| 0 <= i < |all| && all[i] == r.value && r.value.id == ScenarioId(now) &&
      forall j :: 0 <= j < i ==> all[j].id != ScenarioId(now);
    assert i == |saved|;
  }

  /** A deleted id is no longer found. */
  lemma FindAfterDelete(saved: seq<SavedScenario>, id: string)
    ensures FindScenario(DeleteScenario(saved, id), id) == None
  {
  }
}
