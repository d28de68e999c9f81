# Task priority analyzer: a verified model of the scoring and ranking core

The system ranks to-do items by a computed priority. Each task dict has a
`title`, `due_date`, `importance`, `estimated_hours`, `dependencies` and
`done`. The core is made of three parts:

- `compute_score` scores one task against the whole batch. It adds points
  for importance, urgency and small size, subtracts points for unmet
  dependencies, clamps the result at zero and rounds it.
- `analyze_tasks_list` normalises copies of the tasks, scores each one and
  sorts the list by `sort_key`: score descending, then importance
  descending, then due date ascending with no date last.
- Two request handlers sit on top of it:
  - `analyze_tasks` sanitises the decoded `tasks` list strictly. It reports
    every item that is not an object or whose due date does not parse, and
    it scores the batch only when there is no such error.
  - `suggest_tasks` sanitises leniently, or takes the stored tasks. It
    scores the batch, keeps the first three tasks and builds an explanation
    from `_build_explanation`.

The model follows the source's own form:

- Expression code becomes functions over datatypes: the scoring rules,
  `_parse_date`, `_safe_int`, the sort key and the explanation clauses.
- Loops become methods with loop invariants, each proved equal to a
  specification function. These are the dependency loop of
  `compute_score`, the normalisation, scoring and key loops of
  `analyze_tasks_list`, the two sanitisation loops and the loop of
  `_build_explanation`, whose body (the clauses of one task) is its own
  method.
- The in-place `list.sort` becomes an insertion sort on an `array`.
- Python values are a `Json` datatype. A task dict is `TaskDict`, whose
  fields are `None` where the key is missing.
- A Python exception is modelled as `None`. The scorer raises `TypeError`
  on a truthy int `dependencies` and `OverflowError` on an importance or
  hours count too large for a float, the sort key raises on a non-numeric
  importance, and the explanation raises on non-numeric fields or `len` of
  an int.
- Library routines whose code is not modelled are fields of a `Runtime`
  value: `str.lower`, `date.fromisoformat`, `datetime.fromisoformat` and
  `date.isoformat`. The current date is a parameter, `today` for the scorer
  and `utcToday` for the explanation.

Modules:

- `Opt` and `Text` (text.dfy) hold `Option`, `str.strip`, `int(str)` (with
  the decimal digits of every script, as Python reads them), integer
  formatting and `str.join`.
- `PyValues` (pyvalues.dfy) holds the `Json` datatype, `bool`, `str`,
  `repr`, `int` and `len`. A JSON object keeps its members as written, a
  repeated key included; the dict Python builds from it keeps the last
  value of each key, in the position of the key's first occurrence.
- `Scoring` and `ScoringProperties` cover `compute_score`.
- `Ranking` and `RankingProperties` cover `analyze_tasks_list` and its sort.
- `Sanitize` and `SanitizeProperties` cover the two sanitisation loops.
- `Explain` and `ExplainProperties` cover `_build_explanation`.
- `Views` and `ViewsProperties` cover the two handlers from the decoded
  `tasks` value on.

Where the code and the written design of the system disagree, the model
follows the code:

- `compute_score` can raise, and neither handler catches it. It raises
  when `dependencies` is a non-zero int or `True`, because iterating it
  fails. It also raises `OverflowError` when the importance, or the hours
  above one, are at least 2^1024 - 2^970: Python converts the int to a
  float for `importance * 3.0` (tasks/scoring.py:65) and `estimated * 0.5`
  (tasks/scoring.py:88), and from that bound on the conversion rounds past
  the largest double (ScoringProperties.ScoreRaisesIff).
- The lenient loop of `suggest_tasks` keeps a due date that does not
  parse. It does not null it (tasks/views.py:120).
- The strict loop validates the due date with `datetime.fromisoformat`,
  which is not restricted to `YYYY-MM-DD`. It also rejects any truthy
  non-string value.
- A falsy title becomes `Untitled <i+1>`, where `i` counts every item,
  including the non-objects that are skipped. Any falsy title counts, not
  only a blank one: `0`, `False`, `[]` and `{}` do too.
- An empty `tasks` list in `suggest_tasks` falls back to the stored tasks,
  because the list is falsy.

## Model

| member | source | states |
|---|---|---|
| Scoring.ParseDate | tasks/scoring.py:26-35 | `None` gives no date; a string gives exactly the ISO parser's answer on it |
| Scoring.SafeInt | tasks/scoring.py:125-129 | `int(val)` where it succeeds, `default` exactly where `int()` raises |
| Scoring.SafeIntReadsFormattedInt | tasks/views.py:38-39 | `_safe_int` of an int's decimal text gives that int back |
| Scoring.SafeIntReadsUnicodeDigits | tasks/scoring.py:125-129 | `_safe_int` reads a decimal digit of another script, as `int()` does: Arabic-Indic seven is 7 |
| Scoring.SafeIntRejectsSeparator | tasks/scoring.py:125-129 | `int()` does not skip the separator U+001C, so `_safe_int` of `"\x1c7"` falls back to its default |
| Scoring.IsDone | tasks/scoring.py:50 | a task without `done`, or with None, is not done; `done: True` is done |
| Scoring.Urgency | tasks/scoring.py:67-81 | the urgency term is between 0 and 50; it is 50 exactly for an overdue date, and positive exactly for a date at most 3 days ahead |
| Scoring.SizeAdjustment | tasks/scoring.py:83-88 | the size term is between -10 and +5, and positive exactly for at most 1 hour |
| Scoring.RawScore | tasks/scoring.py:56-116 | the unclamped score is at most importance x 3 + 50 + 5 and at least importance x 3 - 10 - 15 per dependency |
| Scoring.DependencyItems | tasks/scoring.py:91-101 | a falsy value gives no dependency, a list its items; iteration raises exactly for a truthy int or bool |
| Scoring.Values | tasks/scoring.py:92-97 | `list(d.values())` has one element per member, each member's value, in order |
| Scoring.Chars | tasks/scoring.py:101 | iterating a string visits one one-character string per character |
| Scoring.Matches | tasks/scoring.py:105 | the matches are exactly the batch tasks whose stripped, lower-cased title equals the dependency's |
| Scoring.UnmetCount | tasks/scoring.py:99-112 | the number of unmet dependencies never exceeds the number of dependencies |
| Scoring.DependencyMet | tasks/scoring.py:104-112 | a dependency is met exactly when the loop finds matches and one of them is done, so "no match, or no match done" is exactly "not met" |
| Scoring.Round3 | tasks/scoring.py:123 | rounding keeps a non-negative score non-negative |
| Scoring.ScoreOf | tasks/scoring.py:118-123 | a score, when there is one, is never negative |
| Scoring.ComputeScore | tasks/scoring.py:37-123 | the term-by-term accumulation of compute_score equals the score function, including where it raises |
| Scoring.CountUnmet | tasks/scoring.py:99-112 | the dependency loop counts exactly the dependencies that no done task of the batch matches |
| ScoringProperties.DoneScoresZero | tasks/scoring.py:49-53 | a done task scores exactly 0, whatever its other fields |
| ScoringProperties.ScoreRaisesIff | tasks/scoring.py:56-101 | compute_score raises exactly when the task is not done and either its importance, or its hours above one, are too large to convert to a float, or `dependencies` is a truthy int or bool |
| ScoringProperties.ScoreIsHalfPoints | tasks/scoring.py:56-123 | the score is the integer half-point count divided by 2, and it is absent exactly when that count is |
| ScoringProperties.RawScoreIsHalfPoints | tasks/scoring.py:62-116 | the unclamped score is an integer count of half points over 2, with the same sign |
| ScoringProperties.UrgencyIsHalfPoints | tasks/scoring.py:67-81 | the urgency term is a whole number of half points |
| ScoringProperties.SizeIsHalfPoints | tasks/scoring.py:83-88 | the size term is a whole number of half points |
| ScoringProperties.Round3OfHalfPoint | tasks/scoring.py:123 | `round(x, 3)` leaves a multiple of 0.5 unchanged |
| ScoringProperties.ClampedHalfPoint | tasks/scoring.py:118-123 | a raw score of h/2, clamped at 0 and rounded, is h/2 |
| ScoringProperties.OverdueBonus | tasks/scoring.py:69-72 | an overdue task gets exactly +50 and no other urgency points |
| ScoringProperties.DueSoonBonus | tasks/scoring.py:73-81 | a task due in 0 to 3 days gets +20 plus 2 points per day short of 3 |
| ScoringProperties.NoUrgencyWhenFar | tasks/scoring.py:69-81 | no due date, or one more than 3 days away, gives no urgency points |
| ScoringProperties.UrgencyMonotone | tasks/scoring.py:67-81 | an earlier due date never gets fewer urgency points; overdue beats not overdue; any date beats none |
| ScoringProperties.SizeAdjustmentBounds | tasks/scoring.py:83-88 | the size term is +5 for at most 1 hour, otherwise minus half the hours capped at 10, and never rises with more hours |
| ScoringProperties.MetIffDoneTitle | tasks/scoring.py:104-112 | a dependency is met exactly when its normalised title is the normalised title of a done task |
| ScoringProperties.DependencyPenaltyEach | tasks/scoring.py:114-116 | each extra unmet dependency costs exactly 15 points before the clamp; a met one costs nothing |
| ScoringProperties.UnknownDependencyIsUnmet | tasks/scoring.py:106-108 | a dependency that matches no task of the batch is unmet |
| ScoringProperties.UnmetCountSameDoneTitles | tasks/scoring.py:99-112 | the unmet count depends only on the set of normalised titles of done tasks |
| ScoringProperties.ScoreDependsOnlyOnDoneTitles | tasks/scoring.py:98-116 | two batches with the same done titles give every task the same score |
| ScoringProperties.ScoreIgnoresBatchOrder | tasks/scoring.py:105 | reordering the batch changes no score |
| ScoringProperties.PlainTaskScoresEight | tasks/scoring.py:56-88 | importance 1, 1 hour, no due date, no dependencies scores 3 + 5 = 8 |
| ScoringProperties.OverdueTaskScoresSeventy | tasks/scoring.py:64-88 | importance 5, 1 hour, due yesterday scores 15 + 50 + 5 = 70 |
| ScoringProperties.DueTodayTaskScoresFortySix | tasks/tests.py:6-17 | the basic test's task (due today, importance 5, 1 hour) scores 46, so more than 0 |
| Ranking.KeyOf | tasks/scoring.py:155-159 | the sort key raises exactly when `int(importance)` does (0 when missing); otherwise it holds the score, that int and the parsed due date |
| Ranking.Before | tasks/scoring.py:155-159 | a key never sorts before itself, and never before a key with a higher score |
| Ranking.Normalized | tasks/scoring.py:138-145 | only a missing or None dependencies/importance/estimated_hours is replaced, by []/1/1; title, due_date and done are untouched |
| Ranking.Analyze | tasks/scoring.py:131-162 | when nothing raises, the result has one element per task |
| Ranking.Insert | tasks/scoring.py:161 | inserting an entry adds exactly one element |
| Ranking.InsertionSort | tasks/scoring.py:161 | the sort keeps the number of elements |
| Ranking.SortEntries | tasks/scoring.py:161 | the in-place sort leaves the array equal to the stable sort of its old contents |
| Ranking.InsertAt | tasks/scoring.py:161 | one insertion step leaves the prefix sorted with the new entry inserted, and the rest untouched |
| Ranking.InsertSplits | tasks/scoring.py:161 | insertion puts the entry right after the last entry that does not sort after it |
| Ranking.NormalizeAll | tasks/scoring.py:137-145 | one normalised copy per task, in order |
| Ranking.ScoreAll | tasks/scoring.py:147-152 | one scored copy per task when nothing raises |
| Ranking.KeyAll | tasks/scoring.py:155-161 | one keyed entry per scored task when no key raises |
| Ranking.Items | tasks/scoring.py:161-162 | the sorted list is the entries' elements, in order |
| Ranking.CopyAndNormalize | tasks/scoring.py:137-145 | the copy-and-normalise loop leaves a fresh list holding the normalised copy of each task, in order |
| Ranking.ScoreEach | tasks/scoring.py:147-152 | the scoring loop scores each task against the whole batch, and fails as soon as one raises |
| Ranking.KeyEach | tasks/scoring.py:155-161 | the keys are computed for every element, and `ok` is false exactly when one raises |
| Ranking.AnalyzeTasksList | tasks/scoring.py:131-162 | analyze_tasks_list as run step by step equals the specification function Analyze |
| RankingProperties.BeforeTotal | tasks/scoring.py:155-159 | the sort-key order is irreflexive, asymmetric and total on keys |
| RankingProperties.NotBeforeTransitive | tasks/scoring.py:155-159 | "does not sort before" is transitive |
| RankingProperties.InsertSorted | tasks/scoring.py:161 | inserting into a sorted list keeps it sorted and adds exactly that entry |
| RankingProperties.InsertFilter | tasks/scoring.py:161 | per key, the inserted entry comes after the entries of that key already there, whose order is kept |
| RankingProperties.SortIsStable | tasks/scoring.py:161 | the sort is ordered by key, a permutation, and keeps each key's entries in input order |
| RankingProperties.SortedUnique | tasks/scoring.py:161 | two sorted lists with the same entries per key, in the same order, are equal |
| RankingProperties.StableSortIsUnique | tasks/scoring.py:161 | any stable sort by the same key, `list.sort` included, gives exactly this result |
| RankingProperties.ScoreAllEach | tasks/scoring.py:147-152 | the scoring pass fails exactly when one task's score raises; otherwise element i is task i with its score |
| RankingProperties.KeyAllEach | tasks/scoring.py:155-161 | keying fails exactly when one key raises; otherwise entry i carries element i and its key |
| RankingProperties.AnalyzeRaisesIff | tasks/scoring.py:131-162 | analyze_tasks_list raises exactly when scoring or keying some normalised task raises |
| RankingProperties.AnalyzePermutes | tasks/scoring.py:147-162 | the result holds one scored copy per task and is a permutation of the scored list |
| RankingProperties.AnalyzeScoresEach | tasks/scoring.py:147-152 | every result element is a normalised task carrying its own score against the normalised batch |
| RankingProperties.AnalyzeOrdered | tasks/scoring.py:154-161 | the result is ordered by score desc, then importance desc, then due date asc with no date last |
| RankingProperties.AnalyzeStable | tasks/scoring.py:161 | tasks with equal sort keys keep their scoring order |
| RankingProperties.AnalyzeScoresDescending | tasks/scoring.py:154-161 | scores never increase along the result and are never negative |
| RankingProperties.NormalizeIdempotent | tasks/scoring.py:138-145 | normalising a normalised task changes nothing |
| RankingProperties.NormalizedSameScore | tasks/scoring.py:138-145 | the normalisation defaults are the ones compute_score falls back to, so no score changes |
| RankingProperties.NormalizeKeepsScore | tasks/scoring.py:137-149 | scoring a normalised copy against the normalised batch gives the original task's score against the original batch |
| RankingProperties.TaskAComesBeforeB | tasks/tests.py:19-23 | A (importance 10, 5 hours) scores 27.5, B (importance 1, 1 hour) scores 8, and A comes first |
| Sanitize.TitleOf | tasks/views.py:36 | the stored title is always truthy, and it is the given title whenever that is truthy |
| Sanitize.DependenciesOf | tasks/views.py:50-56 | the stored dependencies are always a list |
| Sanitize.ValidDue | tasks/views.py:41-46 | a falsy due date passes; a truthy non-string fails; a non-empty string passes exactly when `datetime.fromisoformat` accepts it |
| Sanitize.Record | tasks/views.py:35-66 | the stored dict has a truthy title, the given due date, `int()` of importance and hours or 1 where `int()` raises, a list of dependencies and `bool(done)` |
| Sanitize.StrictRecord | tasks/views.py:32-66 | the strict loop stores one dict per object item and none for anything else |
| Sanitize.Complaints | tasks/views.py:33-49 | the strict loop reports one message for each item it does not accept, none for the others |
| Sanitize.LenientRecord | tasks/views.py:114-135 | the lenient loop stores one dict per object item and none for anything else |
| Sanitize.Strict | tasks/views.py:30-66 | neither list the strict loop builds is longer than the input |
| Sanitize.Lenient | tasks/views.py:113-135 | the lenient loop never builds more dicts than there are items |
| Sanitize.CoerceDependencies | tasks/views.py:50-56 | the coercion steps give the dependencies value the stored dict holds |
| Sanitize.CheckDueDate | tasks/views.py:40-49 | a due date that passes is kept with no message; otherwise it becomes None and exactly one message naming title and value is added |
| Sanitize.SanitizeStrict | tasks/views.py:30-68 | the strict loop builds exactly the dicts and messages of Strict |
| Sanitize.SanitizeLenient | tasks/views.py:113-135 | the lenient loop builds exactly the dicts of Lenient |
| SanitizeProperties.StrictErrorCount | tasks/views.py:32-49 | there are exactly as many messages as rejected items |
| SanitizeProperties.StrictErrorsIff | tasks/views.py:32-49 | there is no error exactly when every item is an object whose due date is falsy or parses |
| SanitizeProperties.AcceptedAlike | tasks/views.py:36-66 | an accepted item is sanitised by both loops alike |
| SanitizeProperties.StrictAgreesWithLenient | tasks/views.py:30-66 | with no error, the strict loop builds exactly the lenient loop's dicts |
| SanitizeProperties.RecordIsClean | tasks/views.py:59-66 | every stored dict has a truthy title, a due_date key, int importance and hours, a list of dependencies and a bool done |
| SanitizeProperties.LenientIsClean | tasks/views.py:128-135 | every dict the lenient loop builds has that shape |
| SanitizeProperties.StrictIsClean | tasks/views.py:59-66 | every dict the strict loop builds has that shape |
| SanitizeProperties.LenientKeepsObjects | tasks/views.py:114-116 | the lenient loop builds exactly one dict per object item |
| SanitizeProperties.LenientKeepsAllObjects | tasks/views.py:113-135 | a list made only of objects loses no item |
| SanitizeProperties.UntitledNumbersFromOne | tasks/views.py:36 | a falsy title becomes "Untitled i+1", and the number reads back as the 1-based position |
| SanitizeProperties.SanitizedDependencies | tasks/views.py:50-56 | the stored dependencies never make compute_score raise a TypeError; a string becomes one dependency instead of one per character |
| SanitizeProperties.CleanIsNormalized | tasks/scoring.py:138-145 | the normalisation changes no sanitised dict |
| SanitizeProperties.NormalizeAllClean | tasks/scoring.py:137-145 | the normalisation changes no batch of sanitised dicts |
| SanitizeProperties.CleanAnalyzes | tasks/views.py:73 | on sanitised dicts analyze_tasks_list raises exactly when a task that is not done has an importance, or hours above one, too large for a float; otherwise it returns sanitised dicts |
| SanitizeProperties.CleanExplains | tasks/views.py:156 | _build_explanation never raises on sanitised dicts |
| Explain.DueParts | tasks/views.py:171-181 | at most one due clause, and none for a falsy due date |
| Explain.Parts | tasks/views.py:167-190 | one to five clauses, the quoted title first; `None` exactly where a comparison of importance or hours, or `len(deps)`, raises |
| Explain.Segments | tasks/views.py:166-191 | one segment per task when none raises; no task gives no segment |
| Explain.Explanation | tasks/views.py:161-192 | no task gives ""; a single task gives its own segment |
| Explain.EachOf | tasks/views.py:166-191 | when no task's clauses raise, there is one segment per task |
| Explain.BuildExplanation | tasks/views.py:161-192 | the outer loop builds exactly the segments joined by " \| ", or raises where a segment does |
| Explain.TaskClauses | tasks/views.py:167-190 | the inner steps append exactly the clauses of Parts, or raise where a comparison or `len` does |
| ExplainProperties.EachOfFailsAt | tasks/views.py:166-191 | one raising task makes the whole explanation raise |
| ExplainProperties.EachOfFailingIndex | tasks/views.py:166-191 | a raising explanation has a task whose clauses raise |
| ExplainProperties.EachOfAt | tasks/views.py:166-191 | segment i is built from task i |
| ExplainProperties.SegmentsFailIff | tasks/views.py:166-191 | the explanation raises exactly when one task's clauses raise |
| ExplainProperties.SegmentsValues | tasks/views.py:166-191 | segment i is task i's clauses joined by ", " |
| ExplainProperties.SegmentStartsWithTitle | tasks/views.py:168-169 | a segment is the clauses joined by ", " and starts with the title in single quotes |
| ExplainProperties.ExplanationStartsWithFirstTitle | tasks/views.py:192 | the explanation starts with the first task's quoted title |
| ExplainProperties.DependencyClauseShape | tasks/views.py:190 | the dependency clause is "has " followed by a digit, so it is never "has high importance" |
| ExplainProperties.DuePartsShape | tasks/views.py:171-181 | at most one due clause: "is overdue" exactly for a past date, "is due soon" exactly for 0 to 3 days ahead, and then the clause is exactly "is due soon (<ISO date>)" |
| ExplainProperties.PartsMembers | tasks/views.py:167-190 | the clauses are the quoted title, the due clause and the three conditional clauses, and nothing else |
| ExplainProperties.PartsInSourceOrder | tasks/views.py:167-190 | the quoted title comes first, then any due clause, "has high importance", the quick-to-finish clause, and the dependency clause last whenever dependencies is truthy |
| ExplainProperties.QuotedTitleShape | tasks/views.py:169 | the first clause starts with a single quote |
| ExplainProperties.OverdueClause | tasks/views.py:176-177 | "is overdue" appears exactly when the due date parses to a day before today (UTC) |
| ExplainProperties.DueSoonClause | tasks/views.py:178-179 | "is due soon (...)" appears exactly when the due date is today or up to 3 days ahead |
| ExplainProperties.DueClausesExclusive | tasks/views.py:176-179 | the two due clauses never appear together |
| ExplainProperties.OnlyDueClauseStartsWithI | tasks/views.py:167-190 | the only clause starting with "i" is the due clause |
| ExplainProperties.UnparsedDueIsIgnored | tasks/views.py:172-181 | a missing, non-string or unparsable due date is swallowed and the clauses are those with no due date |
| ExplainProperties.HighImportanceClause | tasks/views.py:182-184 | "has high importance" appears exactly when importance (0 when missing) is at least 7 |
| ExplainProperties.QuickClause | tasks/views.py:185-187 | the quick-to-finish clause appears exactly when estimated_hours (0 when missing) is at most 1 |
| ExplainProperties.DependencyClauseCount | tasks/views.py:188-190 | a dependency clause appears exactly when dependencies is truthy, and it counts `len(deps)` |
| ExplainProperties.OnlyDependencyClauseStartsWithH | tasks/views.py:188-190 | a clause starting with "h" other than "has high importance" only occurs when dependencies is truthy |
| ExplainProperties.MissingFieldsCountAsZero | tasks/views.py:182-187 | missing importance and hours count as 0: no high-importance clause, and a quick-to-finish clause |
| Views.TopThree | tasks/views.py:155 | the first three tasks, or all of them when there are fewer |
| Views.AnalyzeView | tasks/views.py:29-73 | a rejection carries at least one message; a scored reply has one task per sanitised dict |
| Views.SuggestView | tasks/views.py:110-158 | at most three suggestions; "no tasks" exactly when there is no non-empty list and nothing stored |
| Views.AnalyzeTasks | tasks/views.py:29-73 | the handler's steps give exactly the reply of AnalyzeView |
| Views.SuggestTasks | tasks/views.py:110-156 | the handler's steps give exactly the reply of SuggestView |
| ViewsProperties.AnalyzeViewOutcome | tasks/views.py:29-73 | analyze_tasks rejects a list exactly when some item is bad, with one message per bad item; otherwise it raises exactly when compute_score overflows on a lenient dict, and else scores the lenient dicts, one result per item |
| ViewsProperties.TopThreeRanksFirst | tasks/views.py:154-155 | the suggestions are the first min(3, n) ranked tasks; no task left out ranks ahead of one kept or has a higher score |
| ViewsProperties.LenientBatchScores | tasks/views.py:113-136 | a leniently sanitised batch scores exactly when compute_score overflows on none of its tasks, and its top three are sanitised dicts |
| ViewsProperties.SegmentsStartWithTitles | tasks/views.py:166-191 | every segment starts with its task's quoted title |
| ViewsProperties.SuggestFromList | tasks/views.py:110-158 | a non-empty list raises exactly when compute_score overflows on one of its lenient dicts; otherwise it gets the top three of its lenient batch and one explanation segment per suggestion |
| ViewsProperties.SuggestFallsBack | tasks/views.py:110-141 | without a non-empty list the stored tasks are used, and with none stored the reply is "no tasks" |
| Text.StripLeft | tasks/scoring.py:105 | the stripped prefix is all whitespace, and the rest starts with a non-space |
| Text.StripRight | tasks/scoring.py:105 | the stripped suffix is all whitespace, and the rest ends with a non-space |
| Text.Strip | tasks/scoring.py:105 | the stripped text has no whitespace at either end, and it is empty exactly when the text is all whitespace |
| Text.StripIdempotent | tasks/scoring.py:105 | stripping twice is stripping once |
| Text.DigitValueFrom | tasks/scoring.py:127 | a decimal digit of any script has a value from 0 to 9 |
| Text.AsciiDigitValue | tasks/scoring.py:127 | the ASCII digits are decimal digits with their usual values |
| Text.ParseInt | tasks/scoring.py:127 | `int()` of a string raises when it is blank after stripping, or when it holds a separator U+001C to U+001F anywhere |
| Text.IntRejectsSeparator | tasks/scoring.py:127 | `str.strip()` removes a leading U+001C, but `int("\x1c7")` raises |
| Text.ParseIntSkipsSpace | tasks/scoring.py:127 | `int()` skips a leading whitespace character that is not a separator |
| Text.IntSkipsNoBreakSpace | tasks/scoring.py:127 | `int("\xa07")` is 7: non-ASCII whitespace is skipped |
| Text.Show | tasks/views.py:36 | `str(n)` is never empty, starts with "-" exactly for a negative number, and is otherwise made of ASCII digits |
| Text.ParseShow | tasks/views.py:36 | `int(str(n)) == n` for every int |
| Text.Join | tasks/views.py:191-192 | joining nothing gives ""; one part gives that part; the result starts with the first part |
| PyValues.Get | tasks/views.py:36-57 | `.get(key)` finds a value exactly when the object has the key, and the value is one stored under it |
| PyValues.Put | tasks/views.py:36-57 | storing a key adds or replaces one member and keeps the others with other keys; keys stay distinct |
| PyValues.DictItems | tasks/views.py:36-57 | the dict built from an object's pairs has distinct keys, each from the pairs, and is empty exactly when there are no pairs |
| PyValues.GetDistinctMember | tasks/views.py:36-57 | in a dict with distinct keys, `.get` of a member's key is that member's value |
| PyValues.PutGet | tasks/views.py:36-57 | after storing a key, `.get` of it is the new value and `.get` of any other key is unchanged |
| PyValues.DictItemsAgreeWithGet | tasks/views.py:36-57 | `.get` on the built dict agrees with `.get` on the pairs: the last value of a repeated key wins |
| PyValues.RepeatedKeyKeepsLastValue | tasks/scoring.py:92-97 | `{"k": 1, "k": 2}` becomes a dict of one member whose value is 2, and its length is 1 |
| PyValues.Truthy | tasks/scoring.py:91 | None is false, and a string, list or dict is true exactly when its length is not zero |
| PyValues.Quote | tasks/scoring.py:102 | `repr` of a string is enclosed in one kind of quote, double exactly when the text holds a single quote and no double quote |
| PyValues.Repr | tasks/scoring.py:102 | `repr` is never empty; a string is quoted, a list bracketed, a dict braced, and an int reads back with `int()` |
| PyValues.NumberOf | tasks/views.py:182-187 | a comparison with an int succeeds exactly for an int or bool, and then uses the value `int()` gives |
| PyValues.LenOf | tasks/views.py:188-190 | `len` succeeds exactly for a string, list or dict; a dict's length is at most its number of pairs and zero only when there are none |
| PyValues.Str | tasks/scoring.py:102 | `str()` of a string is the string, and `str()` of an int reads back with `int()` |
| PyValues.IntOf | tasks/scoring.py:125-129 | `int()` of an int is the int; of None, a list or a dict it raises; a string is read with the decimal digits of every script, and one that is blank or holds a separator U+001C to U+001F raises |

## Left out

- HTTP handling is not part of this model. That covers the method checks,
  decoding of the request body, the 400/405 replies for a missing or
  non-list `tasks` value, and the `JsonResponse` wrapping
  (tasks/views.py:15-27, 101-108). The handlers are modelled from the
  decoded `tasks` value on.
- The optional save to the database in `analyze_tasks` is left out
  (tasks/views.py:75-89). It changes no reply.
- The database query of `suggest_tasks` is left out
  (tasks/views.py:139-151). The dicts built from the up to 50 most recent
  stored tasks are a parameter, `stored`.
- tasks/models.py and backend/settings.py are not part of this model.
- The clock is not modelled. `date.today()` and `datetime.utcnow().date()`
  become the parameters `today` and `utcToday`. The source reads both
  clocks once per task: `compute_score` reads the local date
  (tasks/scoring.py:68), and the explanation reads the UTC date
  (tasks/views.py:175). The model uses one `today` and one `utcToday` per
  request.
- `str.lower`, `date.fromisoformat`, `datetime.fromisoformat` and
  `date.isoformat` are not modelled. Their code is not part of the source,
  so they are function-valued fields of `Runtime`.
- Floating point is not modelled. Scores are exact reals, and JSON numbers
  are integers only, so a float `importance` or `estimated_hours` is
  outside the model. The one floating-point error that is modelled is the
  `OverflowError` of converting a huge int. An importance that converts
  but whose product with 3.0 passes the largest double (about 6e307 and
  up) gives an infinite score in the source and an exact one here.
- Python's `float('inf')` sort-key sentinel is modelled as "no date",
  which sorts after every date.
- Scoring.Round3: it rounds half up, where Python's `round` rounds half to
  even. Scores are multiples of 0.5 (ScoringProperties.ScoreIsHalfPoints),
  so the two agree on every score.
- `MAX_SCORE_BASE` is not modelled, because the source never uses it.
- Text.ParseInt: the decimal digits are those of Unicode 15.0 (the table
  `DecimalZeros`); digits added by later Unicode versions are not read.
  The limit of 4300 digits that `int()` puts on a string is not modelled,
  so a longer digit string gives a value where Python raises.
- `repr` of a string escapes only ASCII control characters here. The
  escapes Python applies to non-printable non-ASCII characters are not
  modelled. This affects only the text of a dependency written as a list
  or dict, or the text of a validation message.
