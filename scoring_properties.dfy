// What the scoring rules of tasks/scoring.py promise, proved about ScoreOf.

module ScoringProperties {
  import opened Opt
  import opened Text
  import opened PyValues
  import opened Scoring

  /** A done task scores exactly zero, whatever its other fields hold. */
  lemma DoneScoresZero(t: TaskDict, batch: seq<TaskDict>, today: int, rt: Runtime)
    requires IsDone(t)
    ensures ScoreOf(t, batch, today, rt) == Some(0.0)
  {
  }

  /** compute_score raises exactly when the task is not done and either its
      importance or (above one hour) its hours are too large to convert to a
      float, or its `dependencies` value is a non-zero int or `True`. */
  lemma ScoreRaisesIff(t: TaskDict, batch: seq<TaskDict>, today: int, rt: Runtime)
    ensures ScoreOf(t, batch, today, rt).None? <==>
            && !IsDone(t)
            && (|| ScoreOverflows(t)
                || (Truthy(Lookup(t.dependencies))
                    && (Lookup(t.dependencies).JInt? || Lookup(t.dependencies).JBool?)))
  {
  }

  // ---------------------------------------------------------------------
  // Exact half points: every term is a multiple of 0.5, so round(score, 3)
  // changes nothing.

  function UrgencyHalfPoints(due: Option<int>, today: int): int {
    match due
    case None => 0
    case Some(d) =>
      if d < today then 100
      else (if d - today <= 3 then 40 else 0) + (if d - today <= 3 then (3 - (d - today)) * 4 else 0)
  }

  function SizeHalfPoints(estimated: nat): int {
    if estimated <= 1 then 10 else -(if estimated < 20 then estimated else 20)
  }

  /** The score counted in half points with integer arithmetic only. */
  function HalfPointScore(t: TaskDict, batch: seq<TaskDict>, today: int, rt: Runtime): Option<nat> {
    if IsDone(t) then Some(0)
    else if ScoreOverflows(t) then None
    else
      match DependencyItems(Lookup(t.dependencies))
      case None => None
      case Some(deps) =>
        var raw := Importance(t) * 6 + UrgencyHalfPoints(ParseDate(Lookup(t.dueDate), rt), today)
                   + SizeHalfPoints(Estimated(t)) - 30 * UnmetCount(deps, batch, rt);
        Some(if raw < 0 then 0 else raw)
  }

  lemma Round3OfHalfPoint(k: int)
    ensures Round3(k as real / 2.0) == k as real / 2.0
  {
    var y := k as real / 2.0 * 1000.0 + 0.5;
    assert y == (500 * k) as real + 0.5;
    assert y.Floor == 500 * k;
  }

  lemma UrgencyIsHalfPoints(due: Option<int>, today: int)
    ensures Urgency(due, today) == UrgencyHalfPoints(due, today) as real / 2.0
  {
  }

  lemma SizeIsHalfPoints(estimated: nat)
    ensures SizeAdjustment(estimated) == SizeHalfPoints(estimated) as real / 2.0
  {
  }

  /** The score is the half-point count divided by two; in particular it is
      a multiple of 0.5 and the rounding to 3 decimals leaves it unchanged. */
  lemma ScoreIsHalfPoints(t: TaskDict, batch: seq<TaskDict>, today: int, rt: Runtime)
    ensures HalfPointScore(t, batch, today, rt).None? <==> ScoreOf(t, batch, today, rt).None?
    ensures HalfPointScore(t, batch, today, rt).Some? ==>
            ScoreOf(t, batch, today, rt).value == HalfPointScore(t, batch, today, rt).value as real / 2.0
  {
    if !IsDone(t) && !ScoreOverflows(t) && DependencyItems(Lookup(t.dependencies)).Some? {
      var deps := DependencyItems(Lookup(t.dependencies)).value;
      var due := ParseDate(Lookup(t.dueDate), rt);
      var raw := Importance(t) * 6 + UrgencyHalfPoints(due, today) + SizeHalfPoints(Estimated(t)) - 30 * UnmetCount(deps, batch, rt);
      RawScoreIsHalfPoints(t, deps, batch, today, rt);
      var h := if raw < 0 then 0 else raw;
      assert HalfPointScore(t, batch, today, rt) == Some(h);
      var rs := RawScore(t, deps, batch, today, rt);
      assert ScoreOf(t, batch, today, rt) == Some(Round3(if rs < 0.0 then 0.0 else rs));
      ClampedHalfPoint(rs, h);
    } else if IsDone(t) {
      assert ScoreOf(t, batch, today, rt) == Some(0.0);
      assert HalfPointScore(t, batch, today, rt) == Some(0);
    }
  }

  /** A raw score of h/2, clamped at 0 and rounded, stays h/2. */
  lemma ClampedHalfPoint(rs: real, h: nat)
    requires (if rs < 0.0 then 0.0 else rs) == h as real / 2.0
    ensures Round3(if rs < 0.0 then 0.0 else rs) == h as real / 2.0
  {
    Round3OfHalfPoint(h);
  }

  lemma RawScoreIsHalfPoints(t: TaskDict, deps: seq<Json>, batch: seq<TaskDict>, today: int, rt: Runtime)
    ensures var raw := Importance(t) * 6 + UrgencyHalfPoints(ParseDate(Lookup(t.dueDate), rt), today)
                       + SizeHalfPoints(Estimated(t)) - 30 * UnmetCount(deps, batch, rt);
            && RawScore(t, deps, batch, today, rt) == raw as real / 2.0
            && (RawScore(t, deps, batch, today, rt) < 0.0 <==> raw < 0)
  {
    var due := ParseDate(Lookup(t.dueDate), rt);
    UrgencyIsHalfPoints(due, today);
    SizeIsHalfPoints(Estimated(t));
    var imp, u, sz, n := Importance(t), UrgencyHalfPoints(due, today), SizeHalfPoints(Estimated(t)), UnmetCount(deps, batch, rt);
    assert RawScore(t, deps, batch, today, rt) == imp as real * 3.0 + u as real / 2.0 + sz as real / 2.0 - 15.0 * n as real;
  }

  // ---------------------------------------------------------------------
  // The terms of the score.

  /** Overdue: exactly +50 and no due-soon or proximity bonus. */
  lemma OverdueBonus(d: int, today: int)
    requires d < today
    ensures Urgency(Some(d), today) == 50.0
  {
  }

  /** Due in 0..3 days: +20 plus 2 points per day short of 3. */
  lemma DueSoonBonus(d: int, today: int)
    requires 0 <= d - today <= 3
    ensures Urgency(Some(d), today) == 20.0 + (3 - (d - today)) as real * 2.0
  {
  }

  /** Due in more than 3 days, or no due date: no urgency bonus. */
  lemma NoUrgencyWhenFar(d: int, today: int)
    requires d - today > 3
    ensures Urgency(Some(d), today) == 0.0 && Urgency(None, today) == 0.0
  {
  }

  /** Urgency never falls as the due date comes closer, and an overdue task
      gets more than any task that is not overdue. */
  lemma UrgencyMonotone(d1: int, d2: int, today: int)
    requires d1 <= d2
    ensures Urgency(Some(d1), today) >= Urgency(Some(d2), today)
    ensures Urgency(Some(d2), today) >= Urgency(None, today)
    ensures d1 < today <= d2 ==> Urgency(Some(d1), today) > Urgency(Some(d2), today)
  {
  }

  /** The size term: +5 for at most one hour, otherwise a penalty of half the
      hours that never exceeds 10; more hours never score better. */
  lemma SizeAdjustmentBounds(e1: nat, e2: nat)
    requires e1 <= e2
    ensures -10.0 <= SizeAdjustment(e2) <= SizeAdjustment(e1) <= 5.0
    ensures e1 <= 1 ==> SizeAdjustment(e1) == 5.0
    ensures e2 > 1 ==> SizeAdjustment(e2) == -RealMin(e2 as real * 0.5, 10.0)
  {
  }

  // ---------------------------------------------------------------------
  // Dependencies.

  /** The normalised titles of the done tasks of a batch. */
  function DoneTitles(batch: seq<TaskDict>, rt: Runtime): set<string> {
    set t | t in batch && IsDone(t) :: TitleKey(t, rt)
  }

  lemma MetIffDoneTitle(depTitle: string, batch: seq<TaskDict>, rt: Runtime)
    ensures DependencyMet(depTitle, batch, rt) <==> Norm(depTitle, rt) in DoneTitles(batch, rt)
  {
  }

  /** One more dependency that no done task matches (in particular one that
      matches no task of the batch at all) costs exactly 15 points before
      the clamp; one that a done task matches costs nothing. */
  lemma DependencyPenaltyEach(t: TaskDict, deps: seq<Json>, dep: Json, batch: seq<TaskDict>, today: int, rt: Runtime)
    ensures !DependencyMet(Str(dep), batch, rt) ==>
            RawScore(t, deps + [dep], batch, today, rt) == RawScore(t, deps, batch, today, rt) - 15.0
    ensures DependencyMet(Str(dep), batch, rt) ==>
            RawScore(t, deps + [dep], batch, today, rt) == RawScore(t, deps, batch, today, rt)
  {
    assert (deps + [dep])[..|deps|] == deps;
  }

  lemma UnknownDependencyIsUnmet(depTitle: string, batch: seq<TaskDict>, rt: Runtime)
    requires forall u :: u in batch ==> TitleKey(u, rt) != Norm(depTitle, rt)
    ensures !DependencyMet(depTitle, batch, rt)
  {
  }

  lemma {:induction false} UnmetCountSameDoneTitles(deps: seq<Json>, b1: seq<TaskDict>, b2: seq<TaskDict>, rt: Runtime)
    requires DoneTitles(b1, rt) == DoneTitles(b2, rt)
    ensures UnmetCount(deps, b1, rt) == UnmetCount(deps, b2, rt)
  {
    if deps != [] {
      UnmetCountSameDoneTitles(deps[..|deps| - 1], b1, b2, rt);
      MetIffDoneTitle(Str(deps[|deps| - 1]), b1, rt);
      MetIffDoneTitle(Str(deps[|deps| - 1]), b2, rt);
    }
  }

  /** The batch is used only to look dependencies up: two batches with the
      same normalised titles of done tasks give every task the same score.
      In particular the order of the batch does not matter. */
  lemma ScoreDependsOnlyOnDoneTitles(t: TaskDict, b1: seq<TaskDict>, b2: seq<TaskDict>, today: int, rt: Runtime)
    requires DoneTitles(b1, rt) == DoneTitles(b2, rt)
    ensures ScoreOf(t, b1, today, rt) == ScoreOf(t, b2, today, rt)
  {
    var items := DependencyItems(Lookup(t.dependencies));
    if items.Some? {
      UnmetCountSameDoneTitles(items.value, b1, b2, rt);
      assert RawScore(t, items.value, b1, today, rt) == RawScore(t, items.value, b2, today, rt);
    }
  }

  lemma ScoreIgnoresBatchOrder(t: TaskDict, b1: seq<TaskDict>, b2: seq<TaskDict>, today: int, rt: Runtime)
    requires multiset(b1) == multiset(b2)
    ensures ScoreOf(t, b1, today, rt) == ScoreOf(t, b2, today, rt)
  {
    assert forall u :: u in b1 <==> u in b2 by {
      forall u ensures u in b1 <==> u in b2 {
        assert u in b1 <==> u in multiset(b1);
        assert u in b2 <==> u in multiset(b2);
      }
    }
    assert DoneTitles(b1, rt) == DoneTitles(b2, rt);
    ScoreDependsOnlyOnDoneTitles(t, b1, b2, today, rt);
  }

  // ---------------------------------------------------------------------
  // Worked cases.

  /** No due date, no dependencies, importance 1, one hour: 3 + 5 = 8. */
  lemma PlainTaskScoresEight(title: Option<Json>, batch: seq<TaskDict>, today: int, rt: Runtime)
    ensures ScoreOf(TaskDict(title, None, Some(JInt(1)), Some(JInt(1)), Some(JList([])), Some(JBool(false))),
                    batch, today, rt) == Some(8.0)
  {
    Round3OfHalfPoint(16);
  }

  /** Due yesterday, importance 5, one hour, no dependencies: 15 + 50 + 5 = 70. */
  lemma OverdueTaskScoresSeventy(title: Option<Json>, due: string, batch: seq<TaskDict>, today: int, rt: Runtime)
    requires rt.dateFromIso(due) == Some(today - 1)
    ensures ScoreOf(TaskDict(title, Some(JStr(due)), Some(JInt(5)), Some(JInt(1)), Some(JList([])), Some(JBool(false))),
                    batch, today, rt) == Some(70.0)
  {
    Round3OfHalfPoint(140);
  }

  /** Due today, importance 5, one hour: 15 + 20 + 6 + 5 = 46, so positive. */
  lemma DueTodayTaskScoresFortySix(title: Option<Json>, due: string, batch: seq<TaskDict>, today: int, rt: Runtime)
    requires rt.dateFromIso(due) == Some(today)
    ensures ScoreOf(TaskDict(title, Some(JStr(due)), Some(JInt(5)), Some(JInt(1)), Some(JList([])), Some(JBool(false))),
                    batch, today, rt) == Some(46.0)
  {
    Round3OfHalfPoint(92);
  }
}
