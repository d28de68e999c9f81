// `_build_explanation` (tasks/views.py): one segment per suggested task,
// made of clauses joined by ", ", the segments joined by " | ".

module Explain {
  import opened Opt
  import opened Text
  import opened PyValues
  import opened Scoring
  import opened Ranking

  const Overdue: string := "is overdue"
  const HighImportance: string := "has high importance"
  const Quick: string := "quick to finish (low estimated hours)"

  function DueSoon(iso: string): string {
    "is due soon (" + iso + ")"
  }

  function DependencyClause(n: nat): string {
    "has " + Show(n) + " dependency(ies) to consider"
  }

  /** The segment's first clause, `f"'{title}'"`. */
  function QuotedTitle(t: TaskDict): string {
    "'" + Str(Lookup(t.title)) + "'"
  }

  /** The due-date clause, if any: the date must be a truthy string that
      `datetime.fromisoformat` accepts; any failure there is swallowed. */
  function DueClause(due: Json, utcToday: int, rt: Runtime): Option<string> {
    if Truthy(due) && due.JStr? then
      match rt.datetimeFromIso(due.s)
      case None => None
      case Some(d) =>
        if d < utcToday then Some(Overdue)
        else if d - utcToday <= 3 then Some(DueSoon(rt.isoFormat(d)))
        else None
    else None
  }

  function DueParts(t: TaskDict, utcToday: int, rt: Runtime): (r: seq<string>)
    ensures |r| <= 1
    ensures !Truthy(Lookup(t.dueDate)) ==> r == []
  {
    match DueClause(Lookup(t.dueDate), utcToday, rt)
    case None => []
    case Some(c) => [c]
  }

  /** `t.get('importance', 0)` and `t.get('estimated_hours', 0)`. */
  function ImportanceOrZero(t: TaskDict): Json { t.importance.GetOr(JInt(0)) }
  function EstimatedOrZero(t: TaskDict): Json { t.estimatedHours.GetOr(JInt(0)) }

  /** `len(deps)` raises: `deps` is truthy but has no length (an int, True). */
  predicate DependencyLenRaises(t: TaskDict) {
    Truthy(Lookup(t.dependencies)) && LenOf(Lookup(t.dependencies)).None?
  }

  /** The clauses of one task's segment, in order; `None` where the
      comparison `importance >= 7` or `estimated <= 1`, or `len(deps)`,
      raises TypeError. */
  function Parts(t: TaskDict, utcToday: int, rt: Runtime): (r: Option<seq<string>>)
    ensures r.Some? ==> 1 <= |r.value| <= 5 && r.value[0] == QuotedTitle(t)
    ensures r.None? <==> || NumberOf(ImportanceOrZero(t)).None?
                         || NumberOf(EstimatedOrZero(t)).None?
                         || DependencyLenRaises(t)
  {
    match NumberOf(ImportanceOrZero(t))
    case None => None
    case Some(importance) =>
      match NumberOf(EstimatedOrZero(t))
      case None => None
      case Some(estimated) =>
        var deps := Lookup(t.dependencies);
        if DependencyLenRaises(t) then None
        else
          Some([QuotedTitle(t)] + DueParts(t, utcToday, rt)
               + (if importance >= 7 then [HighImportance] else [])
               + (if estimated <= 1 then [Quick] else [])
               + (if Truthy(deps) then [DependencyClause(LenOf(deps).value)] else []))
  }

  /** One task's segment, `", ".join(parts)`. */
  function Segment(t: TaskDict, utcToday: int, rt: Runtime): Option<string> {
    match Parts(t, utcToday, rt)
    case None => None
    case Some(parts) => Some(Join(", ", parts))
  }

  /** `f` applied to each element in order, as a loop that appends each
      result; `None` as soon as one application raises. */
  function EachOf<T, U>(xs: seq<T>, f: T -> Option<U>): (r: Option<seq<U>>)
    ensures r.Some? ==> |r.value| == |xs|
  {
    if xs == [] then Some([])
    else
      match EachOf(xs[..|xs| - 1], f)
      case None => None
      case Some(init) =>
        match f(xs[|xs| - 1])
        case None => None
        case Some(y) => Some(init + [y])
  }

  /** The segments of `top`, in order; `None` where one of them raises. */
  function Segments(top: seq<ScoredTask>, utcToday: int, rt: Runtime): (r: Option<seq<string>>)
    ensures r.Some? ==> |r.value| == |top|
    ensures top == [] ==> r == Some([])
  {
    EachOf(top, (x: ScoredTask) => Segment(x.task, utcToday, rt))
  }

  /** `_build_explanation(top)`; `None` where it raises. */
  function Explanation(top: seq<ScoredTask>, utcToday: int, rt: Runtime): (r: Option<string>)
    ensures top == [] ==> r == Some("")
    ensures |top| == 1 ==> r == Segment(top[0].task, utcToday, rt)
  {
    assert |top| == 1 ==> top[..0] == [] && EachOf(top[..0], (x: ScoredTask) => Segment(x.task, utcToday, rt)) == Some([]);
    match Segments(top, utcToday, rt)
    case None => None
    case Some(reasons) => Some(Join(" | ", reasons))
  }

  /** Once a prefix fails, the whole sequence does. */
  lemma {:induction false} EachOfFailsFromPrefix<T, U>(xs: seq<T>, f: T -> Option<U>, n: nat)
    requires n <= |xs| && EachOf(xs[..n], f).None?
    ensures EachOf(xs, f).None?
    decreases |xs| - n
  {
    if n < |xs| {
      assert xs[..n + 1][..n] == xs[..n];
      EachOfFailsFromPrefix(xs, f, n + 1);
    } else {
      assert xs[..n] == xs;
    }
  }

  /** One more element: the prefix's results and this one's, or `None`. */
  lemma EachOfStep<T, U>(xs: seq<T>, f: T -> Option<U>, i: nat)
    requires i < |xs|
    ensures EachOf(xs[..i + 1], f)
            == if EachOf(xs[..i], f).None? || f(xs[i]).None? then None
               else Some(EachOf(xs[..i], f).value + [f(xs[i]).value])
  {
    assert xs[..i + 1][..i] == xs[..i];
  }

  /** The outer loop of _build_explanation: one segment per task, in order. */
  method BuildExplanation(top: seq<ScoredTask>, utcToday: int, rt: Runtime) returns (r: Option<string>)
    ensures r == Explanation(top, utcToday, rt)
  {
    var reasons: seq<string> := [];
    ghost var segment := (x: ScoredTask) => Segment(x.task, utcToday, rt);
    for i := 0 to |top|
      invariant EachOf(top[..i], segment) == Some(reasons)
    {
      EachOfStep(top, segment, i);
      var parts := TaskClauses(top[i].task, utcToday, rt);
      if parts.None? {
        EachOfFailsFromPrefix(top, segment, i + 1);
        return None;
      }
      reasons := reasons + [Join(", ", parts.value)];
    }
    assert top[..|top|] == top;
    return Some(Join(" | ", reasons));
  }

  /** The body of that loop: the clauses of one task appended one by one;
      `None` where a comparison or `len` raises. */
  method TaskClauses(t: TaskDict, utcToday: int, rt: Runtime) returns (r: Option<seq<string>>)
    ensures r == Parts(t, utcToday, rt)
  {
    var parts := [QuotedTitle(t)];
    var dueDate := Lookup(t.dueDate);
    if Truthy(dueDate) && dueDate.JStr? {
      var d := rt.datetimeFromIso(dueDate.s);
      if d.Some? {
        if d.value < utcToday {
          parts := parts + [Overdue];
        } else if d.value - utcToday <= 3 {
          parts := parts + [DueSoon(rt.isoFormat(d.value))];
        }
      }
    }
    assert parts == [QuotedTitle(t)] + DueParts(t, utcToday, rt);
    var importance := NumberOf(ImportanceOrZero(t));
    if importance.None? {
      return None;
    }
    if importance.value >= 7 {
      parts := parts + [HighImportance];
    }
    ghost var upToImportance := parts;
    assert upToImportance == [QuotedTitle(t)] + DueParts(t, utcToday, rt) + (if importance.value >= 7 then [HighImportance] else []);
    var estimated := NumberOf(EstimatedOrZero(t));
    if estimated.None? {
      return None;
    }
    if estimated.value <= 1 {
      parts := parts + [Quick];
    }
    ghost var upToQuick := parts;
    assert upToQuick == upToImportance + (if estimated.value <= 1 then [Quick] else []);
    var deps := Lookup(t.dependencies);
    if !Truthy(deps) {
      deps := JList([]);
    }
    if Truthy(deps) {
      var n := LenOf(deps);
      if n.None? {
        return None;
      }
      parts := parts + [DependencyClause(n.value)];
    }
    assert parts == upToQuick + (if Truthy(Lookup(t.dependencies)) then [DependencyClause(LenOf(Lookup(t.dependencies)).value)] else []);
    assert !DependencyLenRaises(t);
    return Some(parts);
  }
}
