/**
 * The knockout-bracket view: which matches form the bracket, how each stage
 * column is ordered, who is shown as champion, how many connectors join two
 * columns, and what each team row of a bracket match card shows. Stage and
 * status literals are the Portuguese ones this view compares against.
 */
module BracketView {
  import opened MatchRecord
  import opened StableSort

  /** `matches.filter(m => m.stage !== "grupo")`. */
  function BracketMatches(ms: seq<Match>): (r: seq<Match>)
    ensures |r| <= |ms|
    ensures forall i :: 0 <= i < |r| ==> r[i].stage != "grupo" && r[i] in ms
    ensures forall i :: 0 <= i < |ms| && ms[i].stage != "grupo" ==> ms[i] in r
  {
    if ms == [] then []
    else (if ms[0].stage != "grupo" then [ms[0]] else []) + BracketMatches(ms[1..])
  }

  /** `matches.filter(m => m.stage === stage)`. */
  function StageMatches(ms: seq<Match>, stage: string): (r: seq<Match>)
    ensures |r| <= |ms|
    ensures forall i :: 0 <= i < |r| ==> r[i].stage == stage && r[i] in ms
    ensures forall i :: 0 <= i < |ms| && ms[i].stage == stage ==> ms[i] in r
  {
    if ms == [] then []
    else (if ms[0].stage == stage then [ms[0]] else []) + StageMatches(ms[1..], stage)
  }

  /** `m.matchNumber || 999`: a missing or zero number sorts last. */
  function MatchNumberKey(m: Match): (r: int)
    ensures Truthy(m.matchNumber) ==> r == m.matchNumber.value
    ensures !Truthy(m.matchNumber) ==> r == 999
  {
    if Truthy(m.matchNumber) then m.matchNumber.value else 999
  }

  /** The four stage columns of the bracket. */
  datatype Columns = Columns(quartas: seq<Match>, semis: seq<Match>, finals: seq<Match>, terceiro: seq<Match>)

  /** `BracketTree`: `None` when it renders nothing. */
  function BracketColumns(ms: seq<Match>): Option<Columns>
  {
    var bracket := BracketMatches(ms);
    if |bracket| == 0 then None
    else Some(Columns(
      SortSeq(StageMatches(bracket, "quartas"), MatchNumberKey),
      SortSeq(StageMatches(bracket, "semifinal"), MatchNumberKey),
      StageMatches(bracket, "final"),
      StageMatches(bracket, "terceiro")))
  }

  /** Filtering the bracket matches by a knockout stage is filtering all
      matches by it. */
  lemma {:induction false} StageOfBracket(ms: seq<Match>, stage: string)
    requires stage != "grupo"
    ensures StageMatches(BracketMatches(ms), stage) == StageMatches(ms, stage)
  {
    if ms != [] {
      StageOfBracket(ms[1..], stage);
      var head := if ms[0].stage != "grupo" then [ms[0]] else [];
      StageConcat(head, BracketMatches(ms[1..]), stage);
    }
  }

  lemma {:induction false} StageConcat(a: seq<Match>, b: seq<Match>, stage: string)
    ensures StageMatches(a + b, stage) == StageMatches(a, stage) + StageMatches(b, stage)
  {
    if a == [] {
      assert a + b == b;
    } else {
      assert (a + b)[1..] == a[1..] + b;
      StageConcat(a[1..], b, stage);
    }
  }

  /** Nothing is rendered exactly when every match is a group match. */
  lemma RendersNothing(ms: seq<Match>)
    ensures BracketColumns(ms).None? <==> forall i :: 0 <= i < |ms| ==> ms[i].stage == "grupo"
  {
    if !(forall i :: 0 <= i < |ms| ==> ms[i].stage == "grupo") {
      var i :| 0 <= i < |ms| && ms[i].stage != "grupo";
      assert ms[i] in BracketMatches(ms);
    }
  }

  /** What each column holds: the quarter- and semifinal columns are their
      stage's matches in ascending `matchNumber || 999` order, a permutation
      of them in which equal numbers keep the input order; the final and
      third-place columns are their stage's matches in input order. */
  lemma ColumnsSpec(ms: seq<Match>, k: int)
    requires BracketColumns(ms).Some?
    ensures var c := BracketColumns(ms).value;
            && Sorted(c.quartas, MatchNumberKey)
            && multiset(c.quartas) == multiset(StageMatches(ms, "quartas"))
            && WithKey(c.quartas, MatchNumberKey, k) == WithKey(StageMatches(ms, "quartas"), MatchNumberKey, k)
            && Sorted(c.semis, MatchNumberKey)
            && multiset(c.semis) == multiset(StageMatches(ms, "semifinal"))
            && WithKey(c.semis, MatchNumberKey, k) == WithKey(StageMatches(ms, "semifinal"), MatchNumberKey, k)
            && c.finals == StageMatches(ms, "final")
            && c.terceiro == StageMatches(ms, "terceiro")
  {
    StageOfBracket(ms, "quartas");
    StageOfBracket(ms, "semifinal");
    StageOfBracket(ms, "final");
    StageOfBracket(ms, "terceiro");
    var q, s := StageMatches(ms, "quartas"), StageMatches(ms, "semifinal");
    SortSeqSorted(q, MatchNumberKey);
    SortSeqPermutation(q, MatchNumberKey);
    SortSeqStable(q, MatchNumberKey, k);
    SortSeqSorted(s, MatchNumberKey);
    SortSeqPermutation(s, MatchNumberKey);
    SortSeqStable(s, MatchNumberKey, k);
  }

  /** A match that decides the tournament: a finished final with a winner. */
  predicate Decides(m: Match)
  {
    m.stage == "final" && m.status == "finalizado" && Truthy(m.winnerId)
  }

  /** `ms[i]` is the first deciding match. */
  ghost predicate FirstDecidingAt(ms: seq<Match>, i: int)
  {
    0 <= i < |ms| && Decides(ms[i]) && forall j :: 0 <= j < i ==> !Decides(ms[j])
  }

  /** `matches.find(m => m.stage === "final" && m.status === "finalizado" && m.winnerId)`. */
  function FindDecidingFinal(ms: seq<Match>): (r: Option<nat>)
    ensures r.Some? ==> FirstDecidingAt(ms, r.value)
    ensures r.None? ==> forall j :: 0 <= j < |ms| ==> !Decides(ms[j])
  {
    if ms == [] then None
    else if Decides(ms[0]) then Some(0)
    else match FindDecidingFinal(ms[1..])
      case None => None
      case Some(i) => Some(i + 1)
  }

  /** `ChampionBanner`: the team named by the first deciding final, or no
      banner when there is no such final or no team with that id. */
  function Champion(ms: seq<Match>, teams: seq<Team>): (r: Option<Team>)
    ensures r.Some? ==> r.value in teams
                        && exists i :: FirstDecidingAt(ms, i) && ms[i].winnerId == Some(r.value.id)
    ensures r.None? ==> (forall j :: 0 <= j < |ms| ==> !Decides(ms[j]))
                        || exists i :: FirstDecidingAt(ms, i)
                                       && forall t :: 0 <= t < |teams| ==> Some(teams[t].id) != ms[i].winnerId
  {
    match FindDecidingFinal(ms)
    case None => None
    case Some(i) => FindTeam(teams, ms[i].winnerId)
  }

  /** Only the first deciding final counts: when its winner is not among the
      teams there is no banner, whatever later finals say. */
  lemma ChampionFromFirstFinalOnly(ms: seq<Match>, teams: seq<Team>, i: nat)
    requires FirstDecidingAt(ms, i)
    requires forall t :: 0 <= t < |teams| ==> Some(teams[t].id) != ms[i].winnerId
    ensures Champion(ms, teams).None?
  {
    var k := FindDecidingFinal(ms);
    assert k.Some?;
    assert !(k.value < i) && !(i < k.value);
  }

  /** `Math.ceil(count / 2)`: one connector joins each pair of matches, and
      an odd match out gets one of its own. */
  function ConnectorCount(count: nat): (r: nat)
    ensures count <= 2 * r <= count + 1
  {
    (count + 1) / 2
  }

  /** The status badge of a bracket match card. */
  datatype Badge = AoVivo | Final | Agendado

  function StatusBadge(status: string): (r: Badge)
    ensures r == AoVivo <==> status == "em_andamento"
    ensures r == Final <==> status == "finalizado"
    ensures r == Agendado <==> status != "em_andamento" && status != "finalizado"
  {
    if status == "em_andamento" then AoVivo
    else if status == "finalizado" then Final
    else Agendado
  }

  /** The props of one `BracketTeamRow`. */
  datatype Row = Row(name: string, sets: seq<int>, isWinner: bool, showScores: bool, hasSet3: bool, isEmpty: bool)

  /** The row of one slot of a bracket match card. */
  function RowOf(m: Match, teams: seq<Team>, slot: Slot): (r: Row)
    ensures r.isWinner <==> m.status == "finalizado" && m.winnerId == SlotId(m, slot)
    ensures r.showScores <==> m.status == "finalizado" || m.status == "em_andamento"
    ensures r.isEmpty <==> !Truthy(SlotId(m, slot))
    ensures r.hasSet3 <==> OrZero(m.set3Team1) > 0 || OrZero(m.set3Team2) > 0
    ensures r.sets == SetScores(m, slot)
    ensures r.name == TeamLabel(FindTeam(teams, SlotId(m, slot)))
  {
    var finished := m.status == "finalizado";
    var live := m.status == "em_andamento";
    Row(TeamLabel(FindTeam(teams, SlotId(m, slot))), SetScores(m, slot),
        finished && m.winnerId == SlotId(m, slot), finished || live, HasThirdSet(m), !Truthy(SlotId(m, slot)))
  }

  /** The score boxes of a row are drawn when `showScores && !isEmpty`. */
  predicate ScoresDrawn(r: Row)
  {
    r.showScores && !r.isEmpty
  }

  /** Scores are drawn exactly for a finished or live match in a filled slot. */
  lemma ScoresDrawnSpec(m: Match, teams: seq<Team>, slot: Slot)
    ensures ScoresDrawn(RowOf(m, teams, slot))
            <==> (m.status == "finalizado" || m.status == "em_andamento") && Truthy(SlotId(m, slot))
  {
  }

  /** An empty slot is labelled "A definir" (no team has a null id). */
  lemma EmptySlotLabel(m: Match, teams: seq<Team>, slot: Slot)
    requires SlotId(m, slot).None?
    ensures RowOf(m, teams, slot).name == "A definir"
  {
  }

  /** A filled slot shows the name of the first team with its id, when that
      name is not empty. */
  lemma FilledSlotLabel(m: Match, teams: seq<Team>, slot: Slot, t: nat)
    requires t < |teams| && Some(teams[t].id) == SlotId(m, slot) && teams[t].name != ""
    requires forall u :: 0 <= u < t ==> Some(teams[u].id) != SlotId(m, slot)
    ensures RowOf(m, teams, slot).name == teams[t].name
  {
    var f := FindTeam(teams, SlotId(m, slot));
    assert f.Some?;
    var u :| 0 <= u < |teams| && teams[u] == f.value && forall j :: 0 <= j < u ==> Some(teams[j].id) != SlotId(m, slot);
    assert !(u < t) && !(t < u);
  }

  /** With two different slot ids at most one row is marked winner. */
  lemma OneWinnerRow(m: Match, teams: seq<Team>)
    requires m.team1Id != m.team2Id
    ensures !(RowOf(m, teams, First).isWinner && RowOf(m, teams, Second).isWinner)
  {
  }
}
