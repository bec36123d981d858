/**
 * The match card of the match lists: its stage label, its status badges,
 * the scheduled-time line, and what each of its two team rows shows.
 */
module MatchCard {
  import opened MatchRecord
  import BracketView

  /** `stageLabels`. */
  const StageLabels: map<string, string> := map[
    "grupo" := "Fase de Grupos",
    "quartas" := "Quartas de Final",
    "semifinal" := "Semifinal",
    "final" := "Final",
    "terceiro" := "Disputa 3o Lugar"]

  /** `stageLabels[match.stage] || match.stage`. */
  function StageLabel(stage: string): (r: string)
    ensures stage in StageLabels ==> r == StageLabels[stage]
    ensures stage !in StageLabels ==> r == stage
  {
    if stage in StageLabels && StageLabels[stage] != "" then StageLabels[stage] else stage
  }

  /** The raw stage is shown exactly for the stages without a label: no
      label repeats its own key. */
  lemma StageLabelFallback(stage: string)
    ensures StageLabel(stage) == stage <==> stage !in StageLabels
  {
  }

  /** The props of one `TeamScoreRow`. */
  datatype Row = Row(teamName: string, sets: seq<int>, isWinner: bool, showScores: bool, hasSet3: bool)

  /** The row for one slot; `team` is the team the page looked up for it. */
  function RowOf(m: Match, team: Option<Team>, slot: Slot): (r: Row)
    ensures r.isWinner <==> m.winnerId == SlotId(m, slot) && m.status == "finalizado"
    ensures r.showScores <==> m.status != "agendado"
    ensures r.hasSet3 <==> OrZero(m.set3Team1) > 0 || OrZero(m.set3Team2) > 0
    ensures r.sets == SetScores(m, slot)
    ensures team.None? || team.value.name == "" ==> r.teamName == "A definir"
    ensures team.Some? && team.value.name != "" ==> r.teamName == team.value.name
  {
    Row(TeamLabel(team), SetScores(m, slot), IsWinnerRow(m, slot), m.status != "agendado", HasThirdSet(m))
  }

  /** `ScoreBox`: a score of 21 or more is highlighted. */
  predicate Highlighted(score: int)
  {
    score >= 21
  }

  /** The score boxes a row draws: the first two sets, and the third only
      when the match has one; each flagged as highlighted or not. */
  function ScoreBoxes(r: Row): (boxes: seq<(int, bool)>)
    requires |r.sets| == 3
    ensures r.showScores && r.hasSet3 ==> |boxes| == 3
    ensures r.showScores && !r.hasSet3 ==> |boxes| == 2
    ensures !r.showScores ==> boxes == []
    ensures forall i :: 0 <= i < |boxes| ==> boxes[i] == (r.sets[i], r.sets[i] >= 21)
  {
    if !r.showScores then []
    else
      var shown := if r.hasSet3 then r.sets else r.sets[..2];
      seq(|shown|, i requires 0 <= i < |shown| => (shown[i], Highlighted(shown[i])))
  }

  /** The red "AO VIVO" badge of a live match. */
  predicate ShowsLiveBadge(m: Match)
  {
    m.status == "em_andamento"
  }

  /** The "Final" badge of a finished match. */
  predicate ShowsFinalBadge(m: Match)
  {
    m.status == "finalizado"
  }

  /** The time line appears only for a scheduled match with a time. */
  predicate ShowsScheduledTime(m: Match)
  {
    m.status == "agendado" && m.scheduledTime.Some? && m.scheduledTime.value != ""
  }

  /** A card never shows a scheduled time and scores together. */
  lemma TimeOrScores(m: Match, team: Option<Team>, slot: Slot)
    ensures !(ShowsScheduledTime(m) && RowOf(m, team, slot).showScores)
  {
  }

  /** The card's header shows at most one of the live badge, the final badge
      and the time line, and its two badges are those of the bracket card;
      a scheduled match without a time shows none of the three, where the
      bracket card shows "Agendado". */
  lemma CardHeader(m: Match)
    ensures !(ShowsLiveBadge(m) && ShowsFinalBadge(m))
    ensures !(ShowsLiveBadge(m) && ShowsScheduledTime(m))
    ensures !(ShowsFinalBadge(m) && ShowsScheduledTime(m))
    ensures ShowsLiveBadge(m) <==> BracketView.StatusBadge(m.status) == BracketView.AoVivo
    ensures ShowsFinalBadge(m) <==> BracketView.StatusBadge(m.status) == BracketView.Final
    ensures m.status == "agendado" && m.scheduledTime.None?
            ==> !ShowsLiveBadge(m) && !ShowsFinalBadge(m) && !ShowsScheduledTime(m)
  {
  }

  /** Whenever a bracket card draws a row's scores, the match card shows
      them too; the converse fails for statuses other than the three known
      ones, which the match card treats as "not scheduled". */
  lemma BracketScoresImplyCardScores(m: Match, teams: seq<Team>, slot: Slot)
    ensures BracketView.ScoresDrawn(BracketView.RowOf(m, teams, slot))
            ==> RowOf(m, FindTeam(teams, SlotId(m, slot)), slot).showScores
  {
  }

  /** The two views agree on who won and on the third set. */
  lemma ViewsAgree(m: Match, teams: seq<Team>, slot: Slot)
    ensures var card := RowOf(m, FindTeam(teams, SlotId(m, slot)), slot);
            var bracket := BracketView.RowOf(m, teams, slot);
            card.isWinner == bracket.isWinner && card.hasSet3 == bracket.hasSet3
            && card.sets == bracket.sets && card.teamName == bracket.name
  {
  }
}
