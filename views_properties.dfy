// What the handlers of tasks/views.py promise their callers.

module ViewsProperties {
  import opened Opt
  import opened Text
  import opened PyValues
  import opened Scoring
  import opened Ranking
  import opened Explain
  import opened Sanitize
  import opened SanitizeProperties
  import opened Views
  import RankingProperties
  import ExplainProperties

  /** Once analyze_tasks has a list, it rejects the batch, with one message
      per bad item, exactly when some item is not an object or has a due date
      that does not parse. Otherwise it scores what the sanitiser built, one
      scored task per item, and raises only where compute_score overflows: on
      a task that is not done whose importance, or hours above one, are too
      large to convert to a float. */
  lemma AnalyzeViewOutcome(items: seq<Json>, today: int, rt: Runtime)
    ensures (exists i :: 0 <= i < |items| && !Acceptable(items[i], rt)) ==>
            && AnalyzeView(items, today, rt) == Some(ValidationErrors(Strict(items, rt).errors))
            && |Strict(items, rt).errors| == |RejectedIndices(items, rt)|
    ensures (forall i :: 0 <= i < |items| ==> Acceptable(items[i], rt)) ==>
            && (AnalyzeView(items, today, rt).None? <==>
                exists t :: t in Lenient(items) && !IsDone(t) && ScoreOverflows(t))
            && (AnalyzeView(items, today, rt).Some? ==>
                var r := AnalyzeView(items, today, rt).value;
                && r.Scored?
                && Analyze(Lenient(items), today, rt) == Some(r.tasks)
                && |r.tasks| == |items|)
  {
    StrictErrorsIff(items, rt);
    StrictErrorCount(items, rt);
    var o := Strict(items, rt);
    if o.errors == [] {
      StrictIsClean(items, rt);
      StrictAgreesWithLenient(items, rt);
      CleanAnalyzes(o.sanitized, today, rt);
      if Analyze(o.sanitized, today, rt).Some? {
        LenientKeepsAllObjects(items);
        RankingProperties.AnalyzePermutes(o.sanitized, today, rt);
      }
    }
  }

  /** The suggestions are the first min(3, n) tasks of the sorted batch: no
      task left out ranks ahead of a suggested one or has a higher score. */
  lemma TopThreeRanksFirst(tasks: seq<TaskDict>, today: int, rt: Runtime)
    requires Analyze(tasks, today, rt).Some?
    ensures var scored := Analyze(tasks, today, rt).value;
            var top := TopThree(scored);
            && |top| == (if |tasks| < 3 then |tasks| else 3)
            && top == scored[..|top|]
            && forall i, j :: 0 <= i < |top| <= j < |scored| ==>
                 && KeyOf(scored[j], rt).Some? && KeyOf(top[i], rt).Some?
                 && !Before(KeyOf(scored[j], rt).value, KeyOf(top[i], rt).value)
                 && top[i].score >= scored[j].score
  {
    var scored := Analyze(tasks, today, rt).value;
    var top := TopThree(scored);
    RankingProperties.AnalyzePermutes(tasks, today, rt);
    RankingProperties.AnalyzeOrdered(tasks, today, rt);
    forall i, j | 0 <= i < |top| <= j < |scored|
      ensures top[i].score >= scored[j].score
    {
      assert top[i] == scored[i];
      RankingProperties.AnalyzeScoresDescending(tasks, today, rt, i, j);
    }
  }

  /** The lenient batch scores unless compute_score overflows on one of its
      tasks (one that is not done, whose importance, or hours above one, are
      too large to convert to a float), and every task it ranks is still a
      sanitised dict. */
  lemma LenientBatchScores(items: seq<Json>, today: int, rt: Runtime)
    ensures Analyze(Lenient(items), today, rt).None? <==>
            exists t :: t in Lenient(items) && !IsDone(t) && ScoreOverflows(t)
    ensures Analyze(Lenient(items), today, rt).Some? ==>
            forall x :: x in TopThree(Analyze(Lenient(items), today, rt).value) ==> Clean(x.task)
  {
    LenientIsClean(items);
    CleanAnalyzes(Lenient(items), today, rt);
    if Analyze(Lenient(items), today, rt).Some? {
      var scored := Analyze(Lenient(items), today, rt).value;
      forall x | x in TopThree(scored) ensures Clean(x.task) {
        assert x in scored;
      }
    }
  }

  /** Every segment of an explanation starts with its task's quoted title. */
  lemma SegmentsStartWithTitles(top: seq<ScoredTask>, utcToday: int, rt: Runtime)
    requires Segments(top, utcToday, rt).Some?
    ensures forall i :: 0 <= i < |top| ==>
              var seg, q := Segments(top, utcToday, rt).value[i], QuotedTitle(top[i].task);
              |seg| >= |q| && seg[..|q|] == q
  {
    ExplainProperties.SegmentsValues(top, utcToday, rt);
    var segs := Segments(top, utcToday, rt).value;
    forall i | 0 <= i < |top|
      ensures |segs[i]| >= |QuotedTitle(top[i].task)| && segs[i][..|QuotedTitle(top[i].task)|] == QuotedTitle(top[i].task)
    {
      ExplainProperties.SegmentStartsWithTitle(top[i].task, utcToday, rt);
    }
  }

  /** A non-empty list of tasks gets suggestions unless compute_score
      overflows on one of its lenient dicts: the first three of what the
      lenient sanitiser built, scored and sorted, with one explanation segment
      per suggestion, each starting with its title. */
  lemma SuggestFromList(items: seq<Json>, stored: seq<TaskDict>, today: int, utcToday: int, rt: Runtime)
    requires items != []
    ensures SuggestView(JList(items), stored, today, utcToday, rt).None? <==>
            exists t :: t in Lenient(items) && !IsDone(t) && ScoreOverflows(t)
    ensures var r := SuggestView(JList(items), stored, today, utcToday, rt);
            Analyze(Lenient(items), today, rt).Some? ==>
            && r == Suggestions(Analyze(Lenient(items), today, rt).value, utcToday, rt)
            && r.Some? && r.value.Suggested?
            && r.value.suggestions == TopThree(Analyze(Lenient(items), today, rt).value)
            && Segments(r.value.suggestions, utcToday, rt).Some?
            && r.value.explanation == Join(" | ", Segments(r.value.suggestions, utcToday, rt).value)
            && forall i :: 0 <= i < |r.value.suggestions| ==>
                 var seg, q := Segments(r.value.suggestions, utcToday, rt).value[i], QuotedTitle(r.value.suggestions[i].task);
                 |seg| >= |q| && seg[..|q|] == q
  {
    LenientBatchScores(items, today, rt);
    assert Truthy(JList(items));
    if Analyze(Lenient(items), today, rt).Some? {
      var scored := Analyze(Lenient(items), today, rt).value;
      var top := TopThree(scored);
      CleanExplains(top, utcToday, rt);
      var segs := Segments(top, utcToday, rt).value;
      assert Explanation(top, utcToday, rt) == Some(Join(" | ", segs));
      assert Suggestions(scored, utcToday, rt) == Some(Suggested(top, Join(" | ", segs)));
      assert SuggestView(JList(items), stored, today, utcToday, rt) == Suggestions(scored, utcToday, rt);
      SegmentsStartWithTitles(top, utcToday, rt);
    }
  }

  /** Without a non-empty list of tasks (no body, no `tasks`, an empty list,
      or a value that is not a list) the stored tasks are used, and with none
      stored there is nothing to suggest. */
  lemma SuggestFallsBack(input: Json, stored: seq<TaskDict>, today: int, utcToday: int, rt: Runtime)
    requires !(input.JList? && input.items != [])
    ensures stored == [] ==> SuggestView(input, stored, today, utcToday, rt) == Some(NoTasks)
    ensures stored != [] ==>
            SuggestView(input, stored, today, utcToday, rt) == SuggestView(JNull, stored, today, utcToday, rt)
    ensures SuggestView(input, stored, today, utcToday, rt) != Some(NoTasks) <==> stored != []
  {
  }
}
