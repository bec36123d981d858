# Beach-volleyball tournament client: verified view logic

This project models, in Dafny, the small deterministic pieces of logic of a
beach-volleyball tournament web application that decide what its pages show:

- **URL templating** (`UrlTemplate`): `buildUrl` fills the `:key`
  placeholders of an API path from a parameter object, one entry after the
  other, with JavaScript's `String.prototype.replace`. Only the leftmost
  occurrence is rewritten, and `$`-patterns in the value are expanded as
  ECMAScript section 22.1.3.19.1 (GetSubstitution) prescribes. Keys are
  matched as plain substrings, so key `id` also matches the start of `:idx`.
- **Live updates** (`LiveUpdates`): the WebSocket handler of
  `useLiveMatchUpdates`. A `MATCH_UPDATE` message patches the cached match
  list of the match's own category, by id. An absent cache entry becomes a
  one-element list.
- **Bracket view** (`BracketView`): which matches form the knockout bracket,
  how the quarter-final and semi-final columns are ordered, which final names
  the champion, how many connectors join two columns, and what each team row
  of a bracket card shows.
- **Match card** (`MatchCard`): the stage label, the status badges, the
  scheduled-time line and the props of the two team rows, and how these agree with the bracket card.
- **Tournament page** (`TournamentDetails`): the active category, the order
  of the match list, and the standings table.
- **Athlete access** (`AthleteAccess`): the sanitiser of the four-digit access
  code, and the condition under which the submit button is enabled.

Two support modules hold what they share:

- `MatchRecord` holds the match and team records with every nullable column as
  an `Option`, and JavaScript's `x || 0` and truthiness rules on them.
- `StableSort` holds `Array.prototype.sort` with a numeric-key comparator.
  Since ECMAScript 2019 that sort is stable, so its result is the unique
  stable ordering by key. It is defined as an insertion sort on sequences
  (`SortSeq`), with a proved in-place version on arrays (`SortInPlace`).
  The standings sort the fetched team array in place and use the array
  version. The other sorts act on fresh copies and use the sequence version.

The views compare statuses against two different vocabularies, and the model
keeps each view's own literals:

- the bracket and the match card use `agendado` / `em_andamento` / `finalizado`;
- the tournament page's match-list order uses `scheduled` / `in_progress` /
  `finished` / `warmup`.

The scheduling, grouping and progression engine described for this system is
not part of the code these views contain, so it is not part of this model.

## Model

| member | source | states |
|---|---|---|
| MatchRecord.OrZero | client/src/components/match-card.tsx:60 | `x \|\| 0` on a nullable number is 0 for null and the number itself otherwise (so 0 stays 0) |
| MatchRecord.Truthy | client/src/components/bracket-tree.tsx:227 | JavaScript truthiness of a nullable number: present and not 0; it decides `isEmpty`, the champion test and the category view (see `BracketView.RowOf`, `BracketView.FindDecidingFinal`, `TournamentDetails.DefaultCategoryShown`) |
| MatchRecord.SlotId | client/src/components/match-card.tsx:61-69 | the team id of a slot, `team1Id` or `team2Id`; used by every row contract |
| MatchRecord.HasThirdSet | client/src/components/bracket-tree.tsx:188 | a third set column is shown when either side's `set3 \|\| 0` is positive; stated by the `hasSet3` clauses of `BracketView.RowOf` and `MatchCard.RowOf` and compared by `MatchCard.ViewsAgree` |
| MatchRecord.IsWinnerRow | client/src/components/match-card.tsx:61-69 | a row is the winner when the match is `finalizado` and `winnerId === slotId`; its properties are stated by `MatchRecord.AtMostOneWinnerRow` and `MatchRecord.EqualSlotsBothWin` |
| MatchRecord.SetScores | client/src/components/match-card.tsx:60-68 | a row's set list has three entries, the first, second and third set score of its own side, each read with `\|\| 0` |
| MatchRecord.TeamLabel | client/src/components/match-card.tsx:59 | the row shows the team's name when a team was found and its name is non-empty, and "A definir" otherwise |
| MatchRecord.FindTeam | client/src/components/bracket-tree.tsx:53 | the result is the first team in the list whose id equals the slot id; no team is found exactly when no team has that id, and always for a null id |
| MatchRecord.AtMostOneWinnerRow | client/src/components/match-card.tsx:61-69 | when the two slot ids differ, at most one row of a match is marked winner |
| MatchRecord.EqualSlotsBothWin | client/src/components/match-card.tsx:61-69 | a finished match whose two slot ids are equal (both null, say) and equal to the winner id marks both rows as winner, since `null === null` |
| StableSort.SortSeqSorted | client/src/pages/tournament-details.tsx:110-113 | the sorted list is in ascending key order |
| StableSort.SortSeqPermutation | client/src/pages/tournament-details.tsx:110-113 | the sorted list is a permutation of its input and has the same length |
| StableSort.SortSeqStable | client/src/pages/tournament-details.tsx:110-113 | elements with equal keys keep their input order: for every key, the subsequence with that key is unchanged by sorting |
| StableSort.SortSeq | client/src/pages/tournament-details.tsx:110-113 | the result of `Array.prototype.sort` with a key-difference comparator; it is sorted, a permutation and stable, as `StableSort.SortSeqSorted`, `StableSort.SortSeqPermutation` and `StableSort.SortSeqStable` state |
| StableSort.InsertIntoPrefix | client/src/pages/tournament-details.tsx:159 | one insertion step on the array: the first i+1 cells become the old sorted prefix with the old `a[i]` inserted after every element whose key is at most its own, and the other cells are unchanged |
| StableSort.SortInPlace | client/src/pages/tournament-details.tsx:159 | the array is sorted in place, and afterwards holds exactly the stable sort of its old contents |
| UrlTemplate.IndexFrom | shared/routes.ts:163 | `indexOf`: the result is the leftmost occurrence of the pattern at or after the start index, or none when there is no occurrence there |
| UrlTemplate.Expand | shared/routes.ts:164 | the `$`-pattern expansion `replace` applies to its replacement string; stated by `UrlTemplate.ExpandPlain` and `UrlTemplate.DollarAmpersandKeepsPlaceholder` |
| UrlTemplate.Step | shared/routes.ts:163-164 | one visited entry, `if (url.includes(p)) url = url.replace(p, value)`; stated by `UrlTemplate.StepAbsent`, `UrlTemplate.StepLeftmost`, `UrlTemplate.StepLength` and `UrlTemplate.StepFirstPlaceholder` |
| UrlTemplate.FillAll | shared/routes.ts:162-166 | the `forEach` fold over the entries in order; `UrlTemplate.BuildUrl` is proved equal to it, and `UrlTemplate.FillAllConcat` and `UrlTemplate.NoColonUnchanged` state its properties |
| UrlTemplate.ExpandPlain | shared/routes.ts:164 | a replacement value without `$` is inserted verbatim |
| UrlTemplate.StepAbsent | shared/routes.ts:163 | an entry whose placeholder does not occur in the url leaves it unchanged |
| UrlTemplate.StepLeftmost | shared/routes.ts:163-164 | an entry whose placeholder occurs rewrites only its leftmost occurrence, with the `$`-patterns of the value expanded, and keeps the text on either side |
| UrlTemplate.NoColonBefore | shared/routes.ts:163 | no placeholder can start where the url has no ':' |
| UrlTemplate.BuildUrl | shared/routes.ts:159-169 | without parameters the url is the path; with them it is the path after each entry has been applied in order to the result of the previous ones |
| UrlTemplate.FillAllConcat | shared/routes.ts:162-166 | applying a list of entries in two parts, one after the other, is applying the whole list |
| UrlTemplate.NoEntries | shared/routes.ts:160-162 | an empty parameter object leaves the path as it is |
| UrlTemplate.StepLength | shared/routes.ts:164 | replacing a placeholder by a `$`-free value changes the url's length by the value's length minus the placeholder's |
| UrlTemplate.NoColonUnchanged | shared/routes.ts:163 | a path without ':' comes back unchanged, whatever the parameters |
| UrlTemplate.StepFirstPlaceholder | shared/routes.ts:163-164 | the placeholder with no ':' to its left is the one replaced, and the text around it is kept |
| UrlTemplate.SinglePlaceholder | shared/routes.ts:163-164 | a single placeholder filled with a `$`-free value yields prefix, value and suffix |
| UrlTemplate.TeamsListUrl | shared/routes.ts:112 | the teams-list path of a category becomes `/api/categories/<id>/teams` |
| UrlTemplate.PrefixPlaceholder | shared/routes.ts:163-164 | keys match as plain substrings: key `id` rewrites the `:id` prefix of `:idx`, and the `x` is left behind |
| UrlTemplate.LaterEntryRewritesValue | shared/routes.ts:162-166 | a value that is itself a placeholder `:b` is rewritten by a later entry `b` |
| UrlTemplate.DollarAmpersandKeepsPlaceholder | shared/routes.ts:164 | the value `$&` expands to the matched placeholder, so the url is unchanged |
| LiveUpdates.ReplaceById | client/src/hooks/use-matches.ts:145 | the list keeps its length; every entry with the update's id becomes the update, and every other entry is kept |
| LiveUpdates.Updater | client/src/hooks/use-matches.ts:143-146 | the `setQueryData` updater: `[update]` for an absent entry, `LiveUpdates.ReplaceById` otherwise; stated by the entry clauses of `LiveUpdates.OnMessage` |
| LiveUpdates.Pertains | client/src/hooks/use-matches.ts:140 | `!categoryId \|\| u.categoryId === categoryId`; stated by `LiveUpdates.OnMessage` and `LiveUpdates.OtherViewIgnores` |
| LiveUpdates.OnMessage | client/src/hooks/use-matches.ts:136-147 | a message that is not `MATCH_UPDATE`, or an update for another category in a view that has one, leaves the cache unchanged; otherwise only the entry of the update's category changes: an absent entry becomes `[update]` and a present one has its matching ids replaced |
| LiveUpdates.ReplaceByIdAbsent | client/src/hooks/use-matches.ts:145 | an update whose id is not in the list is not appended: the list is unchanged |
| LiveUpdates.ReplaceByIdIdempotent | client/src/hooks/use-matches.ts:145 | replacing twice gives the same list as replacing once |
| LiveUpdates.OnMessageIdempotent | client/src/hooks/use-matches.ts:136-147 | a message delivered twice leaves the cache as one delivery does |
| LiveUpdates.OtherViewIgnores | client/src/hooks/use-matches.ts:140 | a view on a different, non-zero category leaves the whole cache unchanged, even the entry the update belongs to |
| BracketView.BracketMatches | client/src/components/bracket-tree.tsx:40 | the result holds only non-group matches, all taken from the input, and every non-group match of the input is in it |
| BracketView.StageMatches | client/src/components/bracket-tree.tsx:43-46 | the result holds only matches of the given stage, all taken from the input, and every such match of the input is in it |
| BracketView.MatchNumberKey | client/src/components/bracket-tree.tsx:43-44 | the sort key is the match number when it is truthy, and 999 when it is null or 0 |
| BracketView.BracketColumns | client/src/components/bracket-tree.tsx:39-46 | the four stage columns, or nothing rendered; stated by `BracketView.RendersNothing` and `BracketView.ColumnsSpec` |
| BracketView.StageOfBracket | client/src/components/bracket-tree.tsx:40-46 | for a knockout stage, filtering the bracket matches by it is filtering all matches by it |
| BracketView.RendersNothing | client/src/components/bracket-tree.tsx:40-41 | the bracket renders nothing exactly when every match is a group match |
| BracketView.ColumnsSpec | client/src/components/bracket-tree.tsx:43-46 | quarter-final and semi-final columns are their stage's matches in ascending `matchNumber \|\| 999` order, as a permutation in which equal numbers keep input order; the final and third-place columns are their stage's matches in input order |
| BracketView.Decides | client/src/components/bracket-tree.tsx:13 | a finished final with a truthy winner id; the test `BracketView.FindDecidingFinal` searches with |
| BracketView.FindDecidingFinal | client/src/components/bracket-tree.tsx:13 | the result is the index of the first finished final with a truthy winner id, or none when no match is such a final |
| BracketView.Champion | client/src/components/bracket-tree.tsx:12-17 | a banner shows a team from the list whose id is the winner of the first deciding final; no banner means there is no deciding final, or no team has its winner id |
| BracketView.ChampionFromFirstFinalOnly | client/src/components/bracket-tree.tsx:13-17 | when the first deciding final's winner is not among the teams, there is no banner, whatever later finals say |
| BracketView.ConnectorCount | client/src/components/bracket-tree.tsx:130 | `Math.ceil(count / 2)` connectors: enough for one per pair of matches, with at most one left over |
| BracketView.StatusBadge | client/src/components/bracket-tree.tsx:186-217 | the badge is "live" exactly for `em_andamento`, "final" exactly for `finalizado`, and "scheduled" for every other status |
| BracketView.RowOf | client/src/components/bracket-tree.tsx:186-236 | a row is the winner exactly when the match is finished and the winner id equals the slot id; scores are shown exactly for finished or live matches; the slot is empty exactly for a falsy slot id; the third set shows when either side scored in it; the name is that of the team found for the slot |
| BracketView.ScoresDrawn | client/src/components/bracket-tree.tsx:266 | `showScores && !isEmpty`; stated by `BracketView.ScoresDrawnSpec` |
| BracketView.ScoresDrawnSpec | client/src/components/bracket-tree.tsx:266 | score boxes are drawn exactly for a finished or live match in a filled slot |
| BracketView.EmptySlotLabel | client/src/components/bracket-tree.tsx:222 | a null slot is labelled "A definir" |
| BracketView.FilledSlotLabel | client/src/components/bracket-tree.tsx:222 | a filled slot shows the non-empty name of the first team with its id |
| BracketView.OneWinnerRow | client/src/components/bracket-tree.tsx:224-233 | with two different slot ids, at most one bracket row is the winner |
| MatchCard.StageLabel | client/src/components/match-card.tsx:40 | a known stage shows its label and an unknown stage shows its raw name |
| MatchCard.StageLabelFallback | client/src/components/match-card.tsx:7-13 | the raw stage name is shown exactly for stages without a label |
| MatchCard.RowOf | client/src/components/match-card.tsx:58-72 | a row is the winner exactly when the winner id equals the slot id and the match is finished; scores are shown for every status but `agendado`; the third set shows when either side scored in it; a missing team, or a found team with an empty name, shows "A definir", and any other team its name |
| MatchCard.Highlighted | client/src/components/match-card.tsx:111 | a score of 21 or more is highlighted; stated by the highlight clause of `MatchCard.ScoreBoxes` |
| MatchCard.ScoreBoxes | client/src/components/match-card.tsx:96-111 | with scores shown, a row draws the first two set scores and the third only when the match has one; each box is highlighted exactly for a score of 21 or more; with scores hidden it draws none |
| MatchCard.ShowsLiveBadge | client/src/components/match-card.tsx:43-47 | the "AO VIVO" badge of an `em_andamento` match; stated by `MatchCard.CardHeader` |
| MatchCard.ShowsFinalBadge | client/src/components/match-card.tsx:48 | the "Final" badge of a `finalizado` match; stated by `MatchCard.CardHeader` |
| MatchCard.ShowsScheduledTime | client/src/components/match-card.tsx:49-54 | the time line of an `agendado` match with a non-empty time; stated by `MatchCard.CardHeader` and `MatchCard.TimeOrScores` |
| MatchCard.CardHeader | client/src/components/match-card.tsx:43-54 | the header shows at most one of the live badge, the final badge and the time line; the two badges appear exactly where the bracket card shows its live and final badges; a scheduled match without a time shows none of the three |
| MatchCard.TimeOrScores | client/src/components/match-card.tsx:49-62 | a card never shows a scheduled time and scores together |
| MatchCard.BracketScoresImplyCardScores | client/src/components/match-card.tsx:62 | whenever a bracket row draws scores, the match card's row shows them too |
| MatchCard.ViewsAgree | client/src/components/match-card.tsx:59-63 | for the team the page looks up for a slot, the card and bracket rows agree on name, set scores, winner and third set |
| TournamentDetails.ActiveCategory | client/src/pages/tournament-details.tsx:36 | the active category is the selected one if any, else the first of the list, else none |
| TournamentDetails.ShowsCategoryView | client/src/pages/tournament-details.tsx:88 | the category view is rendered for a truthy active id; stated by `TournamentDetails.DefaultCategoryShown` |
| TournamentDetails.ActiveCategoryFromList | client/src/pages/tournament-details.tsx:36 | if the selection comes from the list, so does the active category, and there is none exactly when nothing is selected and the list is empty |
| TournamentDetails.DefaultCategoryShown | client/src/pages/tournament-details.tsx:36-88 | with nothing selected, the category view appears exactly when the list has a first category with a truthy id |
| TournamentDetails.StatusKey | client/src/pages/tournament-details.tsx:111-112 | the key is 1 for `scheduled`, 2 for `finished`, and 3 for every other status, `in_progress` and `warmup` included |
| TournamentDetails.MatchStatusKey | client/src/pages/tournament-details.tsx:112 | the as-written key of a match, its status's `TournamentDetails.StatusKey` |
| TournamentDetails.MatchOrder | client/src/pages/tournament-details.tsx:110-113 | the sorted copy of the fetched matches; stated by `TournamentDetails.MatchOrderSpec` and `TournamentDetails.LiveListedAfterFinished` |
| TournamentDetails.MatchOrderSpec | client/src/pages/tournament-details.tsx:110-113 | the match list is a permutation of the fetched matches, in ascending status key order, with equal keys in fetched order |
| TournamentDetails.LiveListedAfterFinished | client/src/pages/tournament-details.tsx:109-113 | as written, an `in_progress` match is listed after a `finished` one |
| TournamentDetails.IntendedStatusKey | client/src/pages/tournament-details.tsx:111 | the intended key: 0 for `in_progress` and `warmup`, 1 for `scheduled`, 2 for `finished`, 3 for unknown statuses |
| TournamentDetails.IntendedMatchStatusKey | client/src/pages/tournament-details.tsx:111 | the intended key of a match, its status's `TournamentDetails.IntendedStatusKey` |
| TournamentDetails.IntendedMatchOrder | client/src/pages/tournament-details.tsx:109-113 | the intended order of the match list; stated by `TournamentDetails.IntendedOrderLiveFirst` |
| TournamentDetails.IsLive | client/src/pages/tournament-details.tsx:111 | the statuses the status order puts first: `in_progress` and `warmup` |
| TournamentDetails.IntendedOrderLiveFirst | client/src/pages/tournament-details.tsx:109-113 | the intended order is "Live -> Scheduled -> Finished": a permutation of the fetched list in ascending intended key, where every `in_progress` or `warmup` match precedes every scheduled or finished one and every scheduled match precedes every finished one |
| TournamentDetails.SortStandings | client/src/pages/tournament-details.tsx:159 | the fetched team array is sorted in place and afterwards holds the stable sort of its old contents by points, most first |
| TournamentDetails.StandingsKey | client/src/pages/tournament-details.tsx:159 | `(b.points \|\| 0) - (a.points \|\| 0)` as an ascending key, the negated points; stated by `TournamentDetails.RowsByPoints` and `TournamentDetails.StandingsSpec` |
| TournamentDetails.StandingsRows | client/src/pages/tournament-details.tsx:159-161 | one row per team, in order, the team at position i ranked i + 1 |
| TournamentDetails.RowsByPoints | client/src/pages/tournament-details.tsx:159-161 | the rows of a list sorted by the standings comparator never gain points (`\|\| 0`) down the table |
| TournamentDetails.StandingsSpec | client/src/pages/tournament-details.tsx:159-161 | the table ranks 1, 2, and so on down the table, with no shared ranks; points (`\|\| 0`) never increase down the table; every fetched team appears as often as it was fetched; teams level on points keep their fetched order |
| AthleteAccess.IsDigit | client/src/pages/athlete-access.tsx:56 | `\d` without the `u` flag: the ASCII digits '0' to '9' |
| AthleteAccess.Digits | client/src/pages/athlete-access.tsx:56 | removing the non-digits keeps only ASCII digits, only characters of the input and every digit of the input, and never lengthens the text; with `AthleteAccess.DigitsConcat` and `AthleteAccess.DigitsOfDigits` this is the order-keeping digit filter |
| AthleteAccess.Take4 | client/src/pages/athlete-access.tsx:56 | `slice(0, 4)` is the prefix of length min(length, 4) |
| AthleteAccess.Sanitize | client/src/pages/athlete-access.tsx:56 | the code field's sanitiser; stated by `AthleteAccess.SanitizeShape`, `AthleteAccess.SanitizeFirstDigits`, `AthleteAccess.SanitizeIdempotent` and `AthleteAccess.SanitizeFixedPoints` |
| AthleteAccess.SubmitEnabled | client/src/pages/athlete-access.tsx:62 | `code.length !== 4` disables the button; stated by `AthleteAccess.SubmitNeedsFourDigits` |
| AthleteAccess.SanitizeShape | client/src/pages/athlete-access.tsx:56 | the sanitised code holds digits only, at most four of them |
| AthleteAccess.DigitsConcat | client/src/pages/athlete-access.tsx:56 | the digits of a concatenation are the digits of each part, in order |
| AthleteAccess.DigitsOfDigits | client/src/pages/athlete-access.tsx:56 | a digit string is unchanged by removing non-digits |
| AthleteAccess.SanitizeFirstDigits | client/src/pages/athlete-access.tsx:56 | the code is the first four digits of the input in their order: the first four digits of any prefix of the input that already holds four |
| AthleteAccess.SanitizeIdempotent | client/src/pages/athlete-access.tsx:56 | sanitising a sanitised code changes nothing |
| AthleteAccess.SanitizeFixedPoints | client/src/pages/athlete-access.tsx:56 | the sanitiser leaves a text unchanged exactly when it is a digit string of length at most four |
| AthleteAccess.SubmitNeedsFourDigits | client/src/pages/athlete-access.tsx:56-62 | submitting is enabled exactly when the typed text contains at least four digits |

## Left out

- JSON decoding of WebSocket messages is left out. So are the `try`/`catch`
  around it, the socket's connection state and the reconnect logic. The
  handler is modelled on an already decoded message.
- The query cache is a map from category id to match list. The query key's
  path part, the cache's notification of subscribers and React rendering are
  left out.
- `Object.entries` order is given by the order of the entry sequence, so
  JavaScript's rule that integer-like keys come first is left out.
  `String(value)` on a number is left out too: entry values are already
  strings.
- A parameter object without a prototype, and lookups of inherited keys such
  as `__proto__` in `statusOrder`, are left out.
- `Option` does not tell `null` from `undefined`, while `===` does
  (match-card.tsx:61, bracket-tree.tsx:53 and 224). The rows the server
  sends carry every column, so a missing field never meets a `null` one, and
  an absent team looked up by `find` is only compared through `?.name`.
- `UrlTemplate.Expand`: the `$n` and `$<name>` patterns are kept literal,
  because a string pattern has no capture groups.
- `TournamentDetails.ActiveCategory`: `Number(selectedCategoryId)` is left
  out. The selection is taken to be the id whose string the selector produced.
  A selection that is not a number (NaN) is not modelled.
- `TournamentDetails.SortStandings`: `teams?.sort(...)` on an undefined team
  list renders nothing. That case is left out: the method takes the array
  that was fetched.
- Dates and times (`format(new Date(...))`) are left out. Label texts beyond
  those the contracts name are left out too. So are CSS classes and the
  layout, and the `isLive` prop the page passes to the match card, which does
  not read it.
- The schema's own stage and status enumerations are not reconciled with the
  literals each view compares against: every view is modelled with its own
  literals.
- The server routes, the storage layer, authentication and the admin pages
  are not part of this model.
- Numbers are unbounded integers. JavaScript's double-precision numbers,
  and the rounding a comparator difference of two very large keys would
  suffer, are not modelled.

## Findings

| source | as written | input that shows it | evidently intended | confidence | as-written member | corrected member |
|---|---|---|---|---|---|---|
| client/src/pages/tournament-details.tsx:111-112 | the status key is `statusOrder[status] \|\| 3`, so the order 0 of `in_progress` and `warmup` is falsy and becomes 3 | an `in_progress` match and a `finished` match, in that order: the list shows the finished match first | live matches first, as the comment "Live -> Scheduled -> Finished" says, with 3 only for unknown statuses (`?? 3`) | not executed | TournamentDetails.LiveListedAfterFinished | TournamentDetails.IntendedOrderLiveFirst |
