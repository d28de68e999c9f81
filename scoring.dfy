// The priority score of one task (tasks/scoring.py, compute_score and the
// helpers it uses). Scores are exact reals: every term is a multiple of 0.5.

module Scoring {
  import opened Opt
  import opened Text
  import opened PyValues

  // Weights and thresholds.
  const ImportanceWeight: real := 3.0
  const UrgencyOverdueBonus: real := 50.0
  const UrgencyDueSoonBonus: real := 20.0
  const DueSoonDays: int := 3
  const FastTaskHoursThreshold: int := 1
  const FastTaskBonus: real := 5.0
  const DependencyPenalty: real := 15.0

  // Python turns the int operand of `importance * 3.0` and `estimated * 0.5`
  // into a float first, rounding to the nearest double, and raises
  // OverflowError when that is past the largest double, 2^1024 - 2^971: from
  // 2^1024 - 2^970 on, the 1024-bit number of 54 one bits followed by 970
  // zero bits.
  const FloatOverflow: int :=
    0xFFFFFFFFFFFFFC00_0000000000000000_0000000000000000_0000000000000000_0000000000000000_0000000000000000_0000000000000000_0000000000000000_0000000000000000_0000000000000000_0000000000000000_0000000000000000_0000000000000000_0000000000000000_0000000000000000_0000000000000000

  /** A task dict as the scorer reads it: each field is the value stored
      under its key, `None` when the key is missing. */
  datatype TaskDict = TaskDict(
    title: Option<Json>,
    dueDate: Option<Json>,
    importance: Option<Json>,
    estimatedHours: Option<Json>,
    dependencies: Option<Json>,
    done: Option<Json>)

  /** `_parse_date(value)`: no date for `None`, otherwise the ISO parser's
      answer on `str(value)`. */
  function ParseDate(value: Json, rt: Runtime): (r: Option<int>)
    ensures value.JNull? ==> r.None?
    ensures value.JStr? ==> r == rt.dateFromIso(value.s)
  {
    if value.JNull? then None else rt.dateFromIso(Str(value))
  }

  /** `_safe_int(val, default)`: `int(val)`, or `default` when that raises. */
  function SafeInt(val: Json, default: int): (r: int)
    ensures IntOf(val).None? ==> r == default
    ensures IntOf(val).Some? ==> r == IntOf(val).value
  {
    IntOf(val).GetOr(default)
  }

  lemma SafeIntReadsFormattedInt(n: int, default: int)
    ensures SafeInt(JStr(Show(n)), default) == n
  {
    ParseShow(n);
  }

  /** `_safe_int` reads decimal digits of any script, as `int()` does:
      Arabic-Indic seven (U+0667) is 7. */
  lemma SafeIntReadsUnicodeDigits()
    ensures SafeInt(JStr("\U{667}"), 1) == 7
  {
    var s := "\U{667}";
    assert DigitValue(s[0]) == Some(7);
    NoSpaceStripsToItself(s);
    assert !HasSeparator(s);
    assert IsDigitRun(s);
    assert DigitsValue(s) == DigitsValue([]) * 10 + 7;
    assert ParseInt(s) == Some(7);
  }

  /** `int()` does not skip a file separator (U+001C), so `_safe_int`
      falls back to its default where `str.strip()` would have removed it. */
  lemma SafeIntRejectsSeparator()
    ensures SafeInt(JStr("\U{1c}7"), 1) == 1
  {
    IntRejectsSeparator();
  }

  /** `task.get('done', False)` is truthy: a task without the key, or with
      None, is not done. */
  predicate IsDone(t: TaskDict)
    ensures t.done.None? || t.done == Some(JNull) ==> !IsDone(t)
    ensures t.done == Some(JBool(true)) ==> IsDone(t)
  {
    Truthy(Lookup(t.done))
  }

  /** `max(0, _safe_int(task.get('importance'), 1))` */
  function Importance(t: TaskDict): nat {
    var i := SafeInt(Lookup(t.importance), 1);
    if i < 0 then 0 else i
  }

  /** `max(0, _safe_int(task.get('estimated_hours'), 1))` */
  function Estimated(t: TaskDict): nat {
    var e := SafeInt(Lookup(t.estimatedHours), 1);
    if e < 0 then 0 else e
  }

  /** Converting `n` to a float raises OverflowError. */
  predicate TooLargeForFloat(n: int) {
    n >= FloatOverflow || n <= -FloatOverflow
  }

  /** compute_score raises OverflowError on the importance term, or on the
      size penalty, which it computes only above one hour. */
  predicate ScoreOverflows(t: TaskDict) {
    || TooLargeForFloat(Importance(t))
    || (Estimated(t) > FastTaskHoursThreshold && TooLargeForFloat(Estimated(t)))
  }

  function RealMax(a: real, b: real): real { if a < b then b else a }
  function RealMin(a: real, b: real): real { if a < b then a else b }

  /** Urgency bonus for a due day number, given today's day number. */
  function Urgency(due: Option<int>, today: int): (r: real)
    ensures 0.0 <= r <= UrgencyOverdueBonus
    ensures r == UrgencyOverdueBonus <==> due.Some? && due.value < today
    ensures r > 0.0 <==> due.Some? && due.value - today <= DueSoonDays
  {
    match due
    case None => 0.0
    case Some(d) =>
      if d < today then UrgencyOverdueBonus
      else
        var daysLeft := d - today;
        (if daysLeft <= DueSoonDays then UrgencyDueSoonBonus else 0.0)
        + (if daysLeft >= 0 then RealMax(0.0, (DueSoonDays - daysLeft) as real * 2.0) else 0.0)
  }

  /** Fast-task bonus or large-task penalty. */
  function SizeAdjustment(estimated: nat): (r: real)
    ensures -10.0 <= r <= FastTaskBonus
    ensures r > 0.0 <==> estimated <= FastTaskHoursThreshold
  {
    if estimated <= FastTaskHoursThreshold then FastTaskBonus
    else -RealMin(estimated as real * 0.5, 10.0)
  }

  /** The items `for dep in deps` visits, where `deps` is
      `task.get('dependencies') or []` with a dict replaced by its values;
      `None` where the loop raises TypeError (a non-zero int, `True`). */
  function DependencyItems(v: Json): (r: Option<seq<Json>>)
    ensures !Truthy(v) ==> r == Some([])
    ensures v.JList? ==> r == Some(v.items)
    ensures r.None? <==> Truthy(v) && (v.JInt? || v.JBool?)
  {
    if !Truthy(v) then Some([])
    else
      match v
      case JList(items) => Some(items)
      case JObject(members) => Some(Values(DictItems(members)))
      case JStr(s) => Some(Chars(s))
      case _ => None
  }

  /** `list(d.values())` on a dict's items. */
  function Values(members: seq<Member>): (r: seq<Json>)
    ensures |r| == |members| && forall k :: 0 <= k < |r| ==> r[k] == members[k].value
  {
    if members == [] then [] else [members[0].value] + Values(members[1..])
  }

  /** The one-character strings iterating over a string yields. */
  function Chars(s: string): (r: seq<Json>)
    ensures |r| == |s| && forall k :: 0 <= k < |r| ==> r[k] == JStr([s[k]])
  {
    if s == [] then [] else [JStr([s[0]])] + Chars(s[1..])
  }

  /** `s.strip().lower()`, the form in which titles are compared. */
  function Norm(s: string, rt: Runtime): string {
    rt.lower(Strip(s))
  }

  function TitleKey(t: TaskDict, rt: Runtime): string {
    Norm(Str(Lookup(t.title)), rt)
  }

  /** The tasks of the batch whose title, as text, stripped and lower-cased,
      equals the dependency's, in batch order. */
  function Matches(depTitle: string, batch: seq<TaskDict>, rt: Runtime): (r: seq<TaskDict>)
    ensures |r| <= |batch|
    ensures forall t :: t in r <==> t in batch && TitleKey(t, rt) == Norm(depTitle, rt)
  {
    if batch == [] then []
    else
      assert batch == [batch[0]] + batch[1..];
      var rest := Matches(depTitle, batch[1..], rt);
      if TitleKey(batch[0], rt) == Norm(depTitle, rt) then [batch[0]] + rest else rest
  }

  /** `any(bool(m.get('done', False)) for m in ms)` */
  predicate AnyDone(ms: seq<TaskDict>) {
    exists m :: m in ms && IsDone(m)
  }

  /** A dependency is met when some task of the batch whose normalised title
      equals the normalised dependency is done: exactly when the loop body
      of compute_score finds matches and one of them done. */
  predicate DependencyMet(depTitle: string, batch: seq<TaskDict>, rt: Runtime)
    ensures DependencyMet(depTitle, batch, rt) <==>
            Matches(depTitle, batch, rt) != [] && AnyDone(Matches(depTitle, batch, rt))
  {
    exists t :: t in batch && IsDone(t) && TitleKey(t, rt) == Norm(depTitle, rt)
  }

  /** Number of unmet dependencies among `deps`. */
  function UnmetCount(deps: seq<Json>, batch: seq<TaskDict>, rt: Runtime): (n: nat)
    ensures n <= |deps|
  {
    if deps == [] then 0
    else UnmetCount(deps[..|deps| - 1], batch, rt) + (if DependencyMet(Str(deps[|deps| - 1]), batch, rt) then 0 else 1)
  }

  /** The score before the clamp at zero, for a task that is not done and
      whose dependencies are `deps`. */
  function RawScore(t: TaskDict, deps: seq<Json>, batch: seq<TaskDict>, today: int, rt: Runtime): (r: real)
    ensures r <= Importance(t) as real * ImportanceWeight + UrgencyOverdueBonus + FastTaskBonus
    ensures r >= Importance(t) as real * ImportanceWeight - 10.0 - DependencyPenalty * |deps| as real
  {
    Importance(t) as real * ImportanceWeight
    + Urgency(ParseDate(Lookup(t.dueDate), rt), today)
    + SizeAdjustment(Estimated(t))
    - DependencyPenalty * UnmetCount(deps, batch, rt) as real
  }

  /** `round(x, 3)`, rounding half up (there are no halves at the scale of
      the scores this is applied to). */
  function Round3(x: real): (r: real)
    ensures x >= 0.0 ==> r >= 0.0
  {
    (x * 1000.0 + 0.5).Floor as real / 1000.0
  }

  /** `compute_score(task, all_tasks)`; `None` where it raises. */
  function ScoreOf(t: TaskDict, batch: seq<TaskDict>, today: int, rt: Runtime): (r: Option<real>)
    ensures r.Some? ==> r.value >= 0.0
  {
    if IsDone(t) then Some(0.0)
    else if ScoreOverflows(t) then None
    else
      match DependencyItems(Lookup(t.dependencies))
      case None => None
      case Some(deps) =>
        var raw := RawScore(t, deps, batch, today, rt);
        Some(Round3(if raw < 0.0 then 0.0 else raw))
  }

  /** compute_score as the source computes it: the score accumulated term by
      term, the unmet dependencies counted in a loop over `deps`. */
  method ComputeScore(t: TaskDict, batch: seq<TaskDict>, today: int, rt: Runtime) returns (r: Option<real>)
    ensures r == ScoreOf(t, batch, today, rt)
  {
    if IsDone(t) {
      return Some(0.0);
    }
    var importance := SafeInt(Lookup(t.importance), 1);
    importance := if importance < 0 then 0 else importance;
    var estimated := SafeInt(Lookup(t.estimatedHours), 1);
    estimated := if estimated < 0 then 0 else estimated;
    var dueDate := ParseDate(Lookup(t.dueDate), rt);
    assert importance == Importance(t) && estimated == Estimated(t);

    var score := 0.0;
    if TooLargeForFloat(importance) {
      assert ScoreOverflows(t);
      return None;  // OverflowError: the importance does not convert to a float
    }
    score := score + importance as real * ImportanceWeight;
    if dueDate.Some? {
      if dueDate.value < today {
        score := score + UrgencyOverdueBonus;
      } else {
        var daysLeft := dueDate.value - today;
        if daysLeft <= DueSoonDays {
          score := score + UrgencyDueSoonBonus;
        }
        if daysLeft >= 0 {
          score := score + RealMax(0.0, (DueSoonDays - daysLeft) as real * 2.0);
        }
      }
    }
    assert score == Importance(t) as real * ImportanceWeight + Urgency(dueDate, today);

    if estimated <= FastTaskHoursThreshold {
      score := score + FastTaskBonus;
    } else {
      if TooLargeForFloat(estimated) {
        assert ScoreOverflows(t);
        return None;  // OverflowError: the hours do not convert to a float
      }
      score := score - RealMin(estimated as real * 0.5, 10.0);
    }
    ghost var beforeDeps := score;
    assert beforeDeps == Importance(t) as real * ImportanceWeight + Urgency(dueDate, today) + SizeAdjustment(Estimated(t));

    assert !ScoreOverflows(t);
    var items := DependencyItems(Lookup(t.dependencies));
    if items.None? {
      return None;  // TypeError: the dependencies value is not iterable
    }
    var deps := items.value;
    var unmet := CountUnmet(deps, batch, rt);
    if unmet > 0 {
      score := score - DependencyPenalty * unmet as real;
    }
    assert score == RawScore(t, deps, batch, today, rt);
    if score < 0.0 {
      score := 0.0;
    }
    return Some(Round3(score));
  }

  /** The dependency loop of compute_score: one count per dependency that no
      done task of the batch matches by normalised title. */
  method CountUnmet(deps: seq<Json>, batch: seq<TaskDict>, rt: Runtime) returns (unmet: nat)
    ensures unmet == UnmetCount(deps, batch, rt)
  {
    unmet := 0;
    var i := 0;
    while i < |deps|
      invariant 0 <= i <= |deps|
      invariant unmet == UnmetCount(deps[..i], batch, rt)
    {
      assert deps[..i + 1][..i] == deps[..i];
      var depTitle := Str(deps[i]);
      assert UnmetCount(deps[..i + 1], batch, rt)
          == UnmetCount(deps[..i], batch, rt) + (if DependencyMet(depTitle, batch, rt) then 0 else 1);
      var matches := Matches(depTitle, batch, rt);
      if matches == [] {
        unmet := unmet + 1;
      } else if !AnyDone(matches) {
        unmet := unmet + 1;
      }
      assert unmet == UnmetCount(deps[..i + 1], batch, rt);
      i := i + 1;
    }
    assert deps[..|deps|] == deps;
  }
}
