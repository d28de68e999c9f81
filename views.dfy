// What the two request handlers of tasks/views.py do once the request body
// has been decoded: analyze_tasks sanitises strictly and scores only a batch
// without errors; suggest_tasks sanitises leniently (or takes the stored
// tasks), scores, keeps the first three and explains them.

module Views {
  import opened Opt
  import opened PyValues
  import opened Scoring
  import opened Ranking
  import opened Explain
  import opened Sanitize

  const NoTasksError: string := "No tasks provided and no stored tasks available."

  /** The reply of analyze_tasks for a `tasks` list: the validation errors,
      all of them together, or the scored batch. */
  datatype AnalyzeReply = ValidationErrors(details: seq<string>) | Scored(tasks: seq<ScoredTask>)

  /** The reply of suggest_tasks: there was nothing to score, or the top
      tasks with their explanation. */
  datatype SuggestReply = NoTasks | Suggested(suggestions: seq<ScoredTask>, explanation: string)

  /** `scored[:3]`. */
  function TopThree(scored: seq<ScoredTask>): (r: seq<ScoredTask>)
    ensures |r| <= |scored| && r == scored[..|r|]
    ensures |scored| >= 3 ==> |r| == 3
    ensures |scored| < 3 ==> r == scored
  {
    scored[..if |scored| < 3 then |scored| else 3]
  }

  /** analyze_tasks from the strict loop on; `None` where it raises. */
  function AnalyzeView(items: seq<Json>, today: int, rt: Runtime): (r: Option<AnalyzeReply>)
    ensures r.Some? && r.value.ValidationErrors? ==> r.value.details != []
    ensures r.Some? && r.value.Scored? ==> |r.value.tasks| == |Strict(items, rt).sanitized|
  {
    var out := Strict(items, rt);
    if out.errors != [] then Some(ValidationErrors(out.errors))
    else
      match Analyze(out.sanitized, today, rt)
      case None => None
      case Some(scored) => Some(Scored(scored))
  }

  /** The top three of a scored batch and their explanation. */
  function Suggestions(scored: seq<ScoredTask>, utcToday: int, rt: Runtime): Option<SuggestReply> {
    var top := TopThree(scored);
    match Explanation(top, utcToday, rt)
    case None => None
    case Some(e) => Some(Suggested(top, e))
  }

  /** suggest_tasks from the choice of the batch on. `input` is the `tasks`
      value of the body (`JNull` when there is none, as for a GET), `stored`
      the dicts built from the stored tasks. */
  function SuggestView(input: Json, stored: seq<TaskDict>, today: int, utcToday: int, rt: Runtime): (r: Option<SuggestReply>)
    ensures r.Some? && r.value.Suggested? ==> |r.value.suggestions| <= 3
    ensures r == Some(NoTasks) <==> !(Truthy(input) && input.JList?) && stored == []
  {
    if Truthy(input) && input.JList? then
      match Analyze(Lenient(input.items), today, rt)
      case None => None
      case Some(scored) => Suggestions(scored, utcToday, rt)
    else if stored == [] then Some(NoTasks)
    else
      match Analyze(stored, today, rt)
      case None => None
      case Some(scored) => Suggestions(scored, utcToday, rt)
  }

  method AnalyzeTasks(items: seq<Json>, today: int, rt: Runtime) returns (r: Option<AnalyzeReply>)
    ensures r == AnalyzeView(items, today, rt)
  {
    var sanitized, errors := SanitizeStrict(items, rt);
    if errors != [] {
      return Some(ValidationErrors(errors));
    }
    var scored := AnalyzeTasksList(sanitized, today, rt);
    if scored.None? {
      return None;
    }
    return Some(Scored(scored.value));
  }

  method SuggestTasks(input: Json, stored: seq<TaskDict>, today: int, utcToday: int, rt: Runtime)
    returns (r: Option<SuggestReply>)
    ensures r == SuggestView(input, stored, today, utcToday, rt)
  {
    var scored: Option<seq<ScoredTask>>;
    if Truthy(input) && input.JList? {
      var sanitized := SanitizeLenient(input.items);
      scored := AnalyzeTasksList(sanitized, today, rt);
    } else {
      if stored == [] {
        return Some(NoTasks);
      }
      scored := AnalyzeTasksList(stored, today, rt);
    }
    if scored.None? {
      return None;
    }
    var top := TopThree(scored.value);
    var explanation := BuildExplanation(top, utcToday, rt);
    if explanation.None? {
      return None;
    }
    return Some(Suggested(top, explanation.value));
  }
}
