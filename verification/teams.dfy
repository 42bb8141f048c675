// The 2026 team table and the lookups the views use to colour a driver by
// team: the first team listing the driver, and that team's colour or a
// default grey.

module Teams {
  import opened Wrappers

  datatype TeamInfo = TeamInfo(name: string, color: string, secondaryColor: string, drivers: seq<string>)

  /** The colour used for a driver no team lists. */
  const DefaultColor: string := "#6B7280"

  /** The records of `TEAMS_2026` in declaration order, which is the order
      `Object.values` visits them. */
  function TeamList(): seq<TeamInfo>
  {
    [
    TeamInfo("McLaren", "#FF8000", "#47C7FC", ["L. Norris", "O. Piastri"]),
    TeamInfo("Red Bull Racing", "#3671C6", "#FCD700", ["M. Verstappen", "I. Hadjar"]),
    TeamInfo("Ferrari", "#E8002D", "#FFF200", ["C. Leclerc", "L. Hamilton"]),
    TeamInfo("Mercedes", "#27F4D2", "#000000", ["G. Russell", "K. Antonelli"]),
    TeamInfo("Aston Martin", "#229971", "#CEDC00", ["F. Alonso", "L. Stroll"]),
    TeamInfo("Alpine", "#FF87BC", "#2293D1", ["P. Gasly", "F. Colapinto"]),
    TeamInfo("Williams", "#64C4FF", "#041E42", ["A. Albon", "C. Sainz"]),
    TeamInfo("Haas", "#B6BABD", "#ED1C24", ["O. Bearman", "E. Ocon"]),
    TeamInfo("Audi", "#FF1E00", "#000000", ["N. Hulkenberg", "G. Bortoleto"]),
    TeamInfo("Cadillac", "#000000", "#B8860B", ["V. Bottas", "S. Perez"]),
    TeamInfo("Racing Bulls", "#6692FF", "#1E3A8A", ["L. Lawson", "A. Lindblad"])
    ]
  }

  /** The keys the records are filed under, in the same order. */
  function TeamKeys(): seq<string>
  {
    ["McLaren", "Red Bull Racing", "Ferrari", "Mercedes", "Aston Martin", "Alpine",
     "Williams", "Haas", "Audi", "Cadillac", "Racing Bulls"]
  }

  /** The seat a driver name holds in the table, read off its first initial
      and the first letter of its surname (`2 * team + seat`); -1 for a
      name with no seat. No two table names share both letters. */
  function Seat(name: string): int
  {
    if |name| < 4 then -1 else
    match (name[0], name[3])
    case ('L', 'N') => 0  case ('O', 'P') => 1  case ('M', 'V') => 2  case ('I', 'H') => 3
    case ('C', 'L') => 4  case ('L', 'H') => 5  case ('G', 'R') => 6  case ('K', 'A') => 7
    case ('F', 'A') => 8  case ('L', 'S') => 9  case ('P', 'G') => 10 case ('F', 'C') => 11
    case ('A', 'A') => 12 case ('C', 'S') => 13 case ('O', 'B') => 14 case ('E', 'O') => 15
    case ('N', 'H') => 16 case ('G', 'B') => 17 case ('V', 'B') => 18 case ('S', 'P') => 19
    case ('L', 'L') => 20 case ('A', 'L') => 21
    case _ => -1
  }

  /** Eleven teams, each filed under its own name, each with two drivers
      and a colour. */
  lemma TeamTableShape()
    ensures |TeamList()| == |TeamKeys()| == 11
    ensures forall i :: 0 <= i < |TeamList()| ==>
      TeamKeys()[i] == TeamList()[i].name && |TeamList()[i].drivers| == 2 && TeamList()[i].color != ""
  {
  }

  /** Each table driver's seat is where the table lists them. */
  lemma TableSeats()
    ensures forall i, a :: 0 <= i < |TeamList()| && 0 <= a < |TeamList()[i].drivers| ==>
      Seat(TeamList()[i].drivers[a]) == 2 * i + a
  {
    var t := TeamList();
    assert forall i :: 0 <= i < |t| ==> |t[i].drivers| == 2;
  }

  /** No driver name appears twice in the table. */
  lemma TableDriversDistinct()
    ensures forall i, j, a, b ::
      (0 <= i < |TeamList()| && 0 <= j < |TeamList()| &&
       0 <= a < |TeamList()[i].drivers| && 0 <= b < |TeamList()[j].drivers| &&
       TeamList()[i].drivers[a] == TeamList()[j].drivers[b])
      ==> i == j && a == b
  {
    TableSeats();
    TeamTableShape();
  }

  /** The first team, in order, whose drivers include `driver`. */
  function FindTeam(teams: seq<TeamInfo>, driver: string): (r: Option<TeamInfo>)
    ensures r.None? <==> forall i :: 0 <= i < |teams| ==> driver !in teams[i].drivers
    ensures r.Some? ==> exists i :: 0 <= i < |teams| && teams[i] == r.value && driver in r.value.drivers &&
                                    (forall j :: 0 <= j < i ==> driver !in teams[j].drivers)
  {
    if teams == [] then None
    else if driver in teams[0].drivers then Some(teams[0])
    else
      var r := FindTeam(teams[1..], driver);
      assert forall i :: 1 <= i < |teams| ==> teams[i] == teams[1..][i - 1];
      r
  }

  /** When exactly one team lists the driver, the search finds that team. */
  lemma FindOnlyTeam(teams: seq<TeamInfo>, i: nat, driver: string)
    requires i < |teams| && driver in teams[i].drivers
    requires forall j :: 0 <= j < |teams| && j != i ==> driver !in teams[j].drivers
    ensures FindTeam(teams, driver) == Some(teams[i])
  {
    var r := FindTeam(teams, driver);
    var k :| 0 <= k < |teams| && teams[k] == r.value && driver in r.value.drivers;
    assert k == i;
  }

  /** `getTeamByDriver`. */
  function GetTeamByDriver(driver: string): Option<TeamInfo>
  {
    FindTeam(TeamList(), driver)
  }

  /** Every table driver is found in their own team, whichever team it is. */
  lemma TeamOfListedDriver(i: nat, a: nat)
    requires i < |TeamList()| && a < |TeamList()[i].drivers|
    ensures GetTeamByDriver(TeamList()[i].drivers[a]) == Some(TeamList()[i])
  {
    TableDriversDistinct();
    var teams := TeamList();
    var driver := teams[i].drivers[a];
    forall j, b | 0 <= j < |teams| && j != i && 0 <= b < |teams[j].drivers|
      ensures teams[j].drivers[b] != driver
    {
    }
    FindOnlyTeam(teams, i, driver);
  }

  /** `team?.color || fallback`: an empty colour also falls back. */
  function ColorOr(team: Option<TeamInfo>, fallback: string): (c: string)
    ensures team.None? ==> c == fallback
    ensures team.Some? && team.value.color != "" ==> c == team.value.color
    ensures c == "" ==> fallback == ""
  {
    if team.Some? && team.value.color != "" then team.value.color else fallback
  }

  /** `getDriverTeamColor`. */
  function GetDriverTeamColor(driver: string): string
  {
    ColorOr(GetTeamByDriver(driver), DefaultColor)
  }

  /** A table driver gets their own team's colour. */
  lemma ListedDriverColor(i: nat, a: nat)
    requires i < |TeamList()| && a < |TeamList()[i].drivers|
    ensures GetDriverTeamColor(TeamList()[i].drivers[a]) == TeamList()[i].color
  {
    TeamOfListedDriver(i, a);
    TeamTableShape();
  }

  /** A driver no team lists gets the default grey. */
  lemma UnlistedDriverColor(driver: string)
    requires forall i :: 0 <= i < |TeamList()| ==> driver !in TeamList()[i].drivers
    ensures GetTeamByDriver(driver) == None
    ensures GetDriverTeamColor(driver) == DefaultColor
  {
  }
}
