/**
 * The tournament page: which category is active, the order of its match
 * list, and the standings table. This page compares statuses against the
 * English literals of the schema.
 */
module TournamentDetails {
  import opened MatchRecord
  import opened StableSort

  /** The category shown: the selected one if any, else the first of the
      list, else none. `selected` is the id whose string the selector
      produced; `categories` is `None` while the list is undefined. */
  function ActiveCategory(selected: Option<int>, categories: Option<seq<int>>): (r: Option<int>)
    ensures selected.Some? ==> r == selected
    ensures selected.None? && categories.Some? && |categories.value| > 0 ==> r == Some(categories.value[0])
    ensures selected.None? && (categories.None? || categories.value == []) ==> r.None?
  {
    if selected.Some? then selected
    else if categories.Some? && |categories.value| > 0 then Some(categories.value[0])
    else None
  }

  /** The category view is rendered for a truthy active id. */
  predicate ShowsCategoryView(active: Option<int>)
  {
    Truthy(active)
  }

  /** Whatever is active comes from the list, provided the selection does. */
  lemma ActiveCategoryFromList(selected: Option<int>, categories: seq<int>)
    requires selected.Some? ==> selected.value in categories
    ensures ActiveCategory(selected, Some(categories)).Some?
            ==> ActiveCategory(selected, Some(categories)).value in categories
    ensures ActiveCategory(selected, Some(categories)).None? <==> selected.None? && categories == []
  {
  }

  /** With nothing selected, the category view appears exactly when the list
      has a first category whose id is truthy; a first id of 0 shows the
      "no categories" message instead. */
  lemma DefaultCategoryShown(categories: seq<int>)
    ensures ShowsCategoryView(ActiveCategory(None, Some(categories)))
            <==> |categories| > 0 && categories[0] != 0
  {
  }

  /** `statusOrder[status] || 3`, as written: the 0 of "in_progress" and
      "warmup" is falsy, so those statuses get 3 like unknown ones. */
  function StatusKey(status: string): (r: int)
    ensures status == "scheduled" ==> r == 1
    ensures status == "finished" ==> r == 2
    ensures status != "scheduled" && status != "finished" ==> r == 3
  {
    var order := map["in_progress" := 0, "scheduled" := 1, "finished" := 2, "warmup" := 0];
    if status in order && order[status] != 0 then order[status] else 3
  }

  function MatchStatusKey(m: Match): int
  {
    StatusKey(m.status)
  }

  /** `[...matches].sort(...)`: a sorted copy; the fetched list itself is a
      value here and stays as it was. */
  function MatchOrder(ms: seq<Match>): seq<Match>
  {
    SortSeq(ms, MatchStatusKey)
  }

  /** The match list is a permutation of the fetched matches in ascending
      key order, and matches with equal keys keep their fetched order. */
  lemma MatchOrderSpec(ms: seq<Match>, k: int)
    ensures multiset(MatchOrder(ms)) == multiset(ms)
    ensures Sorted(MatchOrder(ms), MatchStatusKey)
    ensures WithKey(MatchOrder(ms), MatchStatusKey, k) == WithKey(ms, MatchStatusKey, k)
  {
    SortSeqPermutation(ms, MatchStatusKey);
    SortSeqSorted(ms, MatchStatusKey);
    SortSeqStable(ms, MatchStatusKey, k);
  }

  /** As written, a live match is listed after a finished one, against the
      "Live -> Scheduled -> Finished" intent. */
  lemma LiveListedAfterFinished(live: Match, done: Match)
    requires live.status == "in_progress" && done.status == "finished"
    ensures MatchOrder([live, done]) == [done, live]
  {
    assert MatchStatusKey(live) == 3 && MatchStatusKey(done) == 2;
    assert [live, done][..1] == [live];
    assert [live][..0] == [];
    assert SortSeq([live], MatchStatusKey) == InsertLast([], live, MatchStatusKey) == [live];
    assert InsertLast([live], done, MatchStatusKey) == InsertLast([], done, MatchStatusKey) + [live];
  }

  /** The intended key: the status order looked up with 3 only for unknown
      statuses. */
  function IntendedStatusKey(status: string): (r: int)
    ensures status == "in_progress" || status == "warmup" ==> r == 0
    ensures status == "scheduled" ==> r == 1
    ensures status == "finished" ==> r == 2
    ensures status !in {"in_progress", "warmup", "scheduled", "finished"} ==> r == 3
  {
    var order := map["in_progress" := 0, "scheduled" := 1, "finished" := 2, "warmup" := 0];
    if status in order then order[status] else 3
  }

  function IntendedMatchStatusKey(m: Match): int
  {
    IntendedStatusKey(m.status)
  }

  /** The intended order: live, then scheduled, then finished. */
  function IntendedMatchOrder(ms: seq<Match>): seq<Match>
  {
    SortSeq(ms, IntendedMatchStatusKey)
  }

  /** A status of the live group: `in_progress`, and `warmup` with it. */
  predicate IsLive(status: string)
  {
    status == "in_progress" || status == "warmup"
  }

  /** The intended order is "Live -> Scheduled -> Finished": a permutation of
      the fetched list in ascending intended key, in which every live or
      warming-up match precedes every scheduled or finished one, and every
      scheduled match precedes every finished one. */
  lemma IntendedOrderLiveFirst(ms: seq<Match>)
    ensures multiset(IntendedMatchOrder(ms)) == multiset(ms)
    ensures Sorted(IntendedMatchOrder(ms), IntendedMatchStatusKey)
    ensures var r := IntendedMatchOrder(ms);
            forall i, j :: (0 <= i < |r| && 0 <= j < |r| && IsLive(r[j].status)
                            && (r[i].status == "scheduled" || r[i].status == "finished")) ==> j < i
    ensures var r := IntendedMatchOrder(ms);
            forall i, j :: (0 <= i < |r| && 0 <= j < |r| && r[j].status == "scheduled"
                            && r[i].status == "finished") ==> j < i
  {
    SortSeqPermutation(ms, IntendedMatchStatusKey);
    SortSeqSorted(ms, IntendedMatchStatusKey);
    var r := IntendedMatchOrder(ms);
    forall i, j | 0 <= i < |r| && 0 <= j < |r| && IsLive(r[j].status)
                  && (r[i].status == "scheduled" || r[i].status == "finished")
      ensures j < i
    {
      assert IntendedMatchStatusKey(r[j]) < IntendedMatchStatusKey(r[i]);
    }
    forall i, j | 0 <= i < |r| && 0 <= j < |r| && r[j].status == "scheduled" && r[i].status == "finished"
      ensures j < i
    {
      assert IntendedMatchStatusKey(r[j]) < IntendedMatchStatusKey(r[i]);
    }
  }

  /** `(b.points || 0) - (a.points || 0)` orders by points, most first; as
      an ascending key that is the negated points. */
  function StandingsKey(t: Team): int
  {
    -OrZero(t.points)
  }

  /** `teams.sort(...)`: sorts the fetched team array in place. */
  method SortStandings(teams: array<Team>)
    modifies teams
    ensures teams[..] == SortSeq(old(teams[..]), StandingsKey)
  {
    SortInPlace(teams, StandingsKey);
  }

  /** One line of the standings table. */
  datatype StandingsRow = StandingsRow(rank: nat, team: Team)

  /** `.map((team, idx) => ... #{idx + 1} ...)`. */
  function StandingsRows(teams: seq<Team>): (r: seq<StandingsRow>)
    ensures |r| == |teams|
    ensures forall i :: 0 <= i < |r| ==> r[i] == StandingsRow(i + 1, teams[i])
  {
    seq(|teams|, i requires 0 <= i < |teams| => StandingsRow(i + 1, teams[i]))
  }

  /** The rows of a list sorted by `StandingsKey` never gain points down the
      table. */
  lemma RowsByPoints(sorted: seq<Team>)
    requires Sorted(sorted, StandingsKey)
    ensures var rows := StandingsRows(sorted);
            forall i, j :: 0 <= i < j < |rows| ==> OrZero(rows[i].team.points) >= OrZero(rows[j].team.points)
  {
    var rows := StandingsRows(sorted);
    forall i, j | 0 <= i < j < |rows| ensures OrZero(rows[i].team.points) >= OrZero(rows[j].team.points) {
      assert rows[i].team == sorted[i] && rows[j].team == sorted[j];
      assert StandingsKey(sorted[i]) <= StandingsKey(sorted[j]);
    }
  }

  /** The standings table of the sorted teams: ranks are 1, 2, ... down the
      table with no shared ranks, points never increase down the table, every
      team appears as often as it was fetched, and teams level on points keep
      their fetched order. */
  lemma StandingsSpec(fetched: seq<Team>, p: int)
    ensures |StandingsRows(SortSeq(fetched, StandingsKey))| == |fetched|
    ensures var rows := StandingsRows(SortSeq(fetched, StandingsKey));
            forall i :: 0 <= i < |rows| ==> rows[i].rank == i + 1
    ensures var rows := StandingsRows(SortSeq(fetched, StandingsKey));
            forall i, j :: 0 <= i < j < |rows| ==> OrZero(rows[i].team.points) >= OrZero(rows[j].team.points)
    ensures multiset(SortSeq(fetched, StandingsKey)) == multiset(fetched)
    ensures WithKey(SortSeq(fetched, StandingsKey), StandingsKey, -p) == WithKey(fetched, StandingsKey, -p)
  {
    var sorted := SortSeq(fetched, StandingsKey);
    SortSeqSorted(fetched, StandingsKey);
    SortSeqPermutation(fetched, StandingsKey);
    SortSeqStable(fetched, StandingsKey, -p);
    RowsByPoints(sorted);
  }
}
