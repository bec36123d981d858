/**
 * The records the client views work on: a match and a team as they arrive
 * from the server as JSON, with every nullable column an `Option`, and the
 * JavaScript truthiness rules the views apply to those columns.
 */
module MatchRecord {

  datatype Option<T> = None | Some(value: T)

  /** A match as the bracket and match-card views read it. Stage and status
      are free strings: the views compare them against literals. */
  datatype Match = Match(
    id: int,
    categoryId: int,
    team1Id: Option<int>,
    team2Id: Option<int>,
    matchNumber: Option<int>,
    courtNumber: Option<int>,
    scheduledTime: Option<string>,
    set1Team1: Option<int>,
    set1Team2: Option<int>,
    set2Team1: Option<int>,
    set2Team2: Option<int>,
    set3Team1: Option<int>,
    set3Team2: Option<int>,
    winnerId: Option<int>,
    stage: string,
    status: string,
    groupName: Option<string>)

  /** A team as far as the views use it: its id, display name and points. */
  datatype Team = Team(id: int, name: string, points: Option<int>)

  /** The two team slots of a match. */
  datatype Slot = First | Second

  /** `x || 0` on a nullable number: null, undefined and 0 all give 0. */
  function OrZero(x: Option<int>): (r: int)
    ensures x.None? ==> r == 0
    ensures x.Some? ==> r == x.value
  {
    match x
    case None => 0
    case Some(v) => v
  }

  /** A nullable number is truthy iff it is present and not 0. */
  predicate Truthy(x: Option<int>)
  {
    x.Some? && x.value != 0
  }

  /** The team id in a slot (`team1Id` or `team2Id`). */
  function SlotId(m: Match, slot: Slot): Option<int>
  {
    match slot
    case First => m.team1Id
    case Second => m.team2Id
  }

  /** The three set scores of one side, each read as `setNTeamK || 0`. */
  function SetScores(m: Match, slot: Slot): (r: seq<int>)
    ensures |r| == 3
    ensures slot == First ==> r[0] == OrZero(m.set1Team1) && r[1] == OrZero(m.set2Team1) && r[2] == OrZero(m.set3Team1)
    ensures slot == Second ==> r[0] == OrZero(m.set1Team2) && r[1] == OrZero(m.set2Team2) && r[2] == OrZero(m.set3Team2)
  {
    match slot
    case First => [OrZero(m.set1Team1), OrZero(m.set2Team1), OrZero(m.set3Team1)]
    case Second => [OrZero(m.set1Team2), OrZero(m.set2Team2), OrZero(m.set3Team2)]
  }

  /** Both views show a third set column when either side scored in set 3. */
  predicate HasThirdSet(m: Match)
  {
    OrZero(m.set3Team1) > 0 || OrZero(m.set3Team2) > 0
  }

  /** Both views mark a row as the winner when the match is finished and
      `winnerId === slotId`; strict equality on two nulls is true. */
  predicate IsWinnerRow(m: Match, slot: Slot)
  {
    m.status == "finalizado" && m.winnerId == SlotId(m, slot)
  }

  /** `team?.name || "A definir"`: a missing team, or one with an empty
      name, is shown as "to be decided". */
  function TeamLabel(t: Option<Team>): (r: string)
    ensures t.Some? && t.value.name != "" ==> r == t.value.name
    ensures t.None? || t.value.name == "" ==> r == "A definir"
  {
    if t.Some? && t.value.name != "" then t.value.name else "A definir"
  }

  /** `teams.find(t => t.id === id)`: the first team with that id. A null id
      matches no team, since every team id is a number. */
  function FindTeam(teams: seq<Team>, id: Option<int>): (r: Option<Team>)
    ensures r.Some? ==> r.value in teams && id == Some(r.value.id)
    ensures r.Some? ==> exists i :: 0 <= i < |teams| && teams[i] == r.value
                          && forall j :: 0 <= j < i ==> Some(teams[j].id) != id
    ensures r.None? <==> forall j :: 0 <= j < |teams| ==> Some(teams[j].id) != id
  {
    if teams == [] then None
    else if Some(teams[0].id) == id then Some(teams[0])
    else
      var r := FindTeam(teams[1..], id);
      assert forall j :: 1 <= j < |teams| ==> teams[j] == teams[1..][j - 1];
      r
  }

  /** With two different slot ids, at most one row of a match is the winner. */
  lemma AtMostOneWinnerRow(m: Match)
    requires m.team1Id != m.team2Id
    ensures !(IsWinnerRow(m, First) && IsWinnerRow(m, Second))
  {
  }

  /** A finished match with identical slot ids (both empty, say) marks both
      rows as the winner, because `null === null`. */
  lemma EqualSlotsBothWin(m: Match)
    requires m.status == "finalizado" && m.team1Id == m.team2Id && m.winnerId == m.team1Id
    ensures IsWinnerRow(m, First) && IsWinnerRow(m, Second)
  {
  }
}
