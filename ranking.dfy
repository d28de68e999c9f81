// analyze_tasks_list (tasks/scoring.py): normalise copies of the tasks,
// score each against the whole normalised batch, sort by the sort key.

module Ranking {
  import opened Opt
  import opened PyValues
  import opened Scoring

  /** A copy of a task dict with its `score` key added. */
  datatype ScoredTask = ScoredTask(task: TaskDict, score: real)

  /** The components of `sort_key(x)`, un-negated: Python sorts ascending
      on (-score, -importance, due ordinal or +inf). */
  datatype SortKey = SortKey(score: real, importance: int, due: Option<int>)

  /** A list element paired with the key `list.sort(key=...)` computed for it. */
  datatype Entry = Entry(key: SortKey, item: ScoredTask)

  /** `sort_key(x)`; `None` where `int(x.get('importance', 0))` raises. The
      key holds the score, the importance as `int()` reads it (0 when the
      key is missing) and the due date as `_parse_date` reads it. */
  function KeyOf(x: ScoredTask, rt: Runtime): (r: Option<SortKey>)
    ensures r.None? <==> IntOf(x.task.importance.GetOr(JInt(0))).None?
    ensures r.Some? ==> && r.value.score == x.score
                        && Some(r.value.importance) == IntOf(x.task.importance.GetOr(JInt(0)))
                        && r.value.due == ParseDate(Lookup(x.task.dueDate), rt)
  {
    match IntOf(x.task.importance.GetOr(JInt(0)))
    case None => None
    case Some(i) => Some(SortKey(x.score, i, ParseDate(Lookup(x.task.dueDate), rt)))
  }

  /** Due-date order with "no date" (+inf) after every date. */
  predicate DueBefore(a: Option<int>, b: Option<int>) {
    a.Some? && (b.None? || a.value < b.value)
  }

  /** `a` sorts strictly before `b`: higher score, then higher importance,
      then earlier due date. */
  predicate Before(a: SortKey, b: SortKey)
    ensures Before(a, b) ==> a != b
    ensures Before(a, b) ==> a.score >= b.score
  {
    || a.score > b.score
    || (a.score == b.score && a.importance > b.importance)
    || (a.score == b.score && a.importance == b.importance && DueBefore(a.due, b.due))
  }

  /** Inserts `e` after every entry of `s` that does not sort strictly
      after it, moving only the entries that sort strictly after it. */
  function Insert(s: seq<Entry>, e: Entry): (r: seq<Entry>)
    ensures |r| == |s| + 1
  {
    if s == [] then [e]
    else if Before(e.key, s[|s| - 1].key) then Insert(s[..|s| - 1], e) + [s[|s| - 1]]
    else s + [e]
  }

  /** The stable sort of `s` by key. */
  function InsertionSort(s: seq<Entry>): (r: seq<Entry>)
    ensures |r| == |s|
  {
    if s == [] then [] else Insert(InsertionSort(s[..|s| - 1]), s[|s| - 1])
  }

  /** `scored.sort(key=sort_key)`: a stable sort in place, done here by
      insertion. */
  method SortEntries(a: array<Entry>)
    modifies a
    ensures a[..] == InsertionSort(old(a[..]))
  {
    for i := 0 to a.Length
      invariant a[..i] == InsertionSort(old(a[..])[..i])
      invariant a[i..] == old(a[..])[i..]
    {
      assert old(a[..])[..i + 1] == old(a[..])[..i] + [a[i]];
      InsertAt(a, i);
    }
    assert a[..] == a[..a.Length] && old(a[..])[..a.Length] == old(a[..]);
  }

  /** One step of the sort: moves `a[i]` left past the entries of `a[..i]`
      that sort strictly after it. */
  method InsertAt(a: array<Entry>, i: nat)
    requires i < a.Length
    modifies a
    ensures a[..i + 1] == Insert(old(a[..i]), old(a[i]))
    ensures a[i + 1..] == old(a[i + 1..])
  {
    var x := a[i];
    ghost var p := a[..i];
    var j := i;
    while j > 0 && Before(x.key, a[j - 1].key)
      invariant 0 <= j <= i
      invariant forall k :: 0 <= k < j ==> a[k] == p[k]
      invariant forall k :: j < k <= i ==> a[k] == p[k - 1]
      invariant forall k :: i < k < a.Length ==> a[k] == old(a[k])
      invariant forall k :: j <= k < i ==> Before(x.key, p[k].key)
    {
      a[j] := a[j - 1];
      j := j - 1;
    }
    a[j] := x;
    InsertSplits(p, x, j);
    ghost var r := p[..j] + [x] + p[j..];
    assert forall k :: 0 <= k <= i ==> a[k] == r[k];
    assert a[..i + 1] == r;
    assert forall k :: i < k < a.Length ==> a[k] == old(a[k]);
  }

  /** Insert places `e` at the first position from which every entry of `s`
      sorts strictly after it. */
  lemma {:induction false} InsertSplits(s: seq<Entry>, e: Entry, j: nat)
    requires j <= |s|
    requires j == 0 || !Before(e.key, s[j - 1].key)
    requires forall k :: j <= k < |s| ==> Before(e.key, s[k].key)
    ensures Insert(s, e) == s[..j] + [e] + s[j..]
    decreases |s|
  {
    if |s| == j {
      assert s[..j] == s && s[j..] == [];
    } else {
      var n := |s| - 1;
      InsertSplits(s[..n], e, j);
      assert s[..n][..j] == s[..j];
      assert s[..n][j..] + [s[n]] == s[j..];
    }
  }

  /** The three defaults of the normalisation loop: `dependencies` [],
      `importance` 1 and `estimated_hours` 1 where missing or None. */
  function Normalized(t: TaskDict): (r: TaskDict)
    ensures Lookup(r.dependencies) == (if Lookup(t.dependencies).JNull? then JList([]) else Lookup(t.dependencies))
    ensures Lookup(r.importance) == (if Lookup(t.importance).JNull? then JInt(1) else Lookup(t.importance))
    ensures Lookup(r.estimatedHours) == (if Lookup(t.estimatedHours).JNull? then JInt(1) else Lookup(t.estimatedHours))
    ensures r.title == t.title && r.dueDate == t.dueDate && r.done == t.done
  {
    var t1 := if Lookup(t.dependencies).JNull? then t.(dependencies := Some(JList([]))) else t;
    var t2 := if Lookup(t1.importance).JNull? then t1.(importance := Some(JInt(1))) else t1;
    if Lookup(t2.estimatedHours).JNull? then t2.(estimatedHours := Some(JInt(1))) else t2
  }

  function NormalizeAll(tasks: seq<TaskDict>): (r: seq<TaskDict>)
    ensures |r| == |tasks| && forall k :: 0 <= k < |r| ==> r[k] == Normalized(tasks[k])
  {
    if tasks == [] then [] else NormalizeAll(tasks[..|tasks| - 1]) + [Normalized(tasks[|tasks| - 1])]
  }

  /** Each task of `ts` scored against `batch`; `None` if one raises. */
  function ScoreAll(ts: seq<TaskDict>, batch: seq<TaskDict>, today: int, rt: Runtime): (r: Option<seq<ScoredTask>>)
    ensures r.Some? ==> |r.value| == |ts|
  {
    if ts == [] then Some([])
    else
      match ScoreAll(ts[..|ts| - 1], batch, today, rt)
      case None => None
      case Some(init) =>
        match ScoreOf(ts[|ts| - 1], batch, today, rt)
        case None => None
        case Some(s) => Some(init + [ScoredTask(ts[|ts| - 1], s)])
  }

  /** Each scored task paired with its sort key; `None` if a key raises. */
  function KeyAll(xs: seq<ScoredTask>, rt: Runtime): (r: Option<seq<Entry>>)
    ensures r.Some? ==> |r.value| == |xs|
  {
    if xs == [] then Some([])
    else
      match KeyAll(xs[..|xs| - 1], rt)
      case None => None
      case Some(init) =>
        match KeyOf(xs[|xs| - 1], rt)
        case None => None
        case Some(k) => Some(init + [Entry(k, xs[|xs| - 1])])
  }

  lemma {:induction false} ScoreAllFailsFromPrefix(ts: seq<TaskDict>, n: nat, batch: seq<TaskDict>, today: int, rt: Runtime)
    requires n <= |ts| && ScoreAll(ts[..n], batch, today, rt).None?
    ensures ScoreAll(ts, batch, today, rt).None?
    decreases |ts| - n
  {
    if n < |ts| {
      assert ts[..n + 1][..n] == ts[..n];
      ScoreAllFailsFromPrefix(ts, n + 1, batch, today, rt);
    } else {
      assert ts[..n] == ts;
    }
  }

  lemma {:induction false} KeyAllFailsFromPrefix(xs: seq<ScoredTask>, n: nat, rt: Runtime)
    requires n <= |xs| && KeyAll(xs[..n], rt).None?
    ensures KeyAll(xs, rt).None?
    decreases |xs| - n
  {
    if n < |xs| {
      assert xs[..n + 1][..n] == xs[..n];
      KeyAllFailsFromPrefix(xs, n + 1, rt);
    } else {
      assert xs[..n] == xs;
    }
  }

  function Items(es: seq<Entry>): (r: seq<ScoredTask>)
    ensures |r| == |es| && forall k :: 0 <= k < |r| ==> r[k] == es[k].item
  {
    if es == [] then [] else Items(es[..|es| - 1]) + [es[|es| - 1].item]
  }

  /** `analyze_tasks_list(tasks)`; `None` where it raises. */
  function Analyze(tasks: seq<TaskDict>, today: int, rt: Runtime): (r: Option<seq<ScoredTask>>)
    ensures r.Some? ==> |r.value| == |tasks|
  {
    var all := NormalizeAll(tasks);
    match ScoreAll(all, all, today, rt)
    case None => None
    case Some(scored) =>
      match KeyAll(scored, rt)
      case None => None
      case Some(entries) => Some(Items(InsertionSort(entries)))
  }

  /** `[dict(t) for t in tasks]` followed by the normalisation loop, which
      updates the copies in place. */
  method CopyAndNormalize(tasks: seq<TaskDict>) returns (all: array<TaskDict>)
    ensures fresh(all) && all[..] == NormalizeAll(tasks)
  {
    all := new TaskDict[|tasks|](k requires 0 <= k < |tasks| => tasks[k]);
    for i := 0 to all.Length
      invariant forall k :: 0 <= k < i ==> all[k] == Normalized(tasks[k])
      invariant forall k :: i <= k < all.Length ==> all[k] == tasks[k]
    {
      var t := all[i];
      if t.dependencies.None? || t.dependencies == Some(JNull) {
        t := t.(dependencies := Some(JList([])));
      }
      if t.importance.None? || t.importance == Some(JNull) {
        t := t.(importance := Some(JInt(1)));
      }
      if t.estimatedHours.None? || t.estimatedHours == Some(JNull) {
        t := t.(estimatedHours := Some(JInt(1)));
      }
      all[i] := t;
    }
  }

  /** `for t in all_tasks: ... scored.append(t_copy)`: each task scored
      against the whole batch, in order; `None` as soon as one raises. */
  method ScoreEach(batch: seq<TaskDict>, today: int, rt: Runtime) returns (r: Option<seq<ScoredTask>>)
    ensures r == ScoreAll(batch, batch, today, rt)
  {
    var scored: seq<ScoredTask> := [];
    for i := 0 to |batch|
      invariant ScoreAll(batch[..i], batch, today, rt) == Some(scored)
    {
      var s := ComputeScore(batch[i], batch, today, rt);
      assert batch[..i + 1][..i] == batch[..i];
      if s.None? {
        ScoreAllFailsFromPrefix(batch, i + 1, batch, today, rt);
        return None;
      }
      scored := scored + [ScoredTask(batch[i], s.value)];
    }
    assert batch[..|batch|] == batch;
    return Some(scored);
  }

  /** The keys `list.sort(key=sort_key)` computes before it sorts, one per
      element; `ok` is false where one of them raises. */
  method KeyEach(scored: seq<ScoredTask>, rt: Runtime) returns (ok: bool, entries: array<Entry>)
    ensures fresh(entries)
    ensures ok <==> KeyAll(scored, rt).Some?
    ensures ok ==> entries[..] == KeyAll(scored, rt).value
  {
    entries := new Entry[|scored|];
    for i := 0 to |scored|
      invariant KeyAll(scored[..i], rt) == Some(entries[..i])
    {
      var key := KeyOf(scored[i], rt);
      assert scored[..i + 1][..i] == scored[..i];
      if key.None? {
        KeyAllFailsFromPrefix(scored, i + 1, rt);
        return false, entries;
      }
      ghost var done := entries[..i];
      assert KeyAll(scored[..i + 1], rt) == Some(done + [Entry(key.value, scored[i])]);
      entries[i] := Entry(key.value, scored[i]);
      assert entries[..i + 1] == done + [Entry(key.value, scored[i])];
    }
    assert scored[..|scored|] == scored;
    assert entries[..] == entries[..entries.Length];
    return true, entries;
  }

  /** analyze_tasks_list as the source runs it: normalise copies in place,
      append one scored copy per task, sort the list in place. */
  method AnalyzeTasksList(tasks: seq<TaskDict>, today: int, rt: Runtime) returns (r: Option<seq<ScoredTask>>)
    ensures r == Analyze(tasks, today, rt)
  {
    var all := CopyAndNormalize(tasks);
    var scored := ScoreEach(all[..], today, rt);
    if scored.None? {
      return None;
    }
    var ok, entries := KeyEach(scored.value, rt);
    if !ok {
      return None;
    }
    SortEntries(entries);
    return Some(Items(entries[..]));
  }
}
