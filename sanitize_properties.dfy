// What the two sanitisation loops of tasks/views.py guarantee about the
// dicts they hand to analyze_tasks_list, proved about Strict and Lenient.

module SanitizeProperties {
  import opened Opt
  import opened Text
  import opened PyValues
  import opened Scoring
  import opened Ranking
  import opened Explain
  import opened Sanitize
  import RankingProperties
  import ExplainProperties
  import ScoringProperties

  /** The indices of the items the strict loop rejects. */
  function RejectedIndices(items: seq<Json>, rt: Runtime): set<int> {
    set i | 0 <= i < |items| && !Acceptable(items[i], rt)
  }

  lemma RejectedIndicesStep(items: seq<Json>, rt: Runtime)
    requires items != []
    ensures var n := |items| - 1;
            |RejectedIndices(items, rt)| == |RejectedIndices(items[..n], rt)| + (if Acceptable(items[n], rt) then 0 else 1)
  {
    var n := |items| - 1;
    var init := items[..n];
    var before := RejectedIndices(init, rt);
    var after := RejectedIndices(items, rt);
    var last := if Acceptable(items[n], rt) then {} else {n};
    forall i ensures i in after <==> i in before + last {
      if 0 <= i < n {
        assert init[i] == items[i];
      }
    }
    assert after == before + last;
    assert n !in before;
  }

  /** Each rejected item adds exactly one message, and each accepted item
      none: there are as many errors as rejected items. */
  lemma {:induction false} StrictErrorCount(items: seq<Json>, rt: Runtime)
    ensures |Strict(items, rt).errors| == |RejectedIndices(items, rt)|
  {
    if items != [] {
      var n := |items| - 1;
      StrictErrorCount(items[..n], rt);
      assert Strict(items, rt).errors == Strict(items[..n], rt).errors + Complaints(items[n], n, rt);
      RejectedIndicesStep(items, rt);
    }
  }

  /** The strict loop reports no error exactly when every item is an object
      whose due date is falsy or parses. */
  lemma StrictErrorsIff(items: seq<Json>, rt: Runtime)
    ensures Strict(items, rt).errors == [] <==> forall i :: 0 <= i < |items| ==> Acceptable(items[i], rt)
  {
    StrictErrorCount(items, rt);
    if exists i :: 0 <= i < |items| && !Acceptable(items[i], rt) {
      var i :| 0 <= i < |items| && !Acceptable(items[i], rt);
      assert i in RejectedIndices(items, rt);
    } else {
      assert RejectedIndices(items, rt) == {};
    }
  }

  /** An accepted item is sanitised by both loops alike. */
  lemma AcceptedAlike(item: Json, i: nat, rt: Runtime)
    requires Acceptable(item, rt)
    ensures StrictRecord(item, i, rt) == LenientRecord(item, i)
  {
  }

  /** When the strict loop reports no error it builds exactly what the
      lenient loop builds. */
  lemma {:induction false} StrictAgreesWithLenient(items: seq<Json>, rt: Runtime)
    requires Strict(items, rt).errors == []
    ensures Strict(items, rt).sanitized == Lenient(items)
  {
    if items != [] {
      var n := |items| - 1;
      var init := items[..n];
      StrictErrorsIff(items, rt);
      StrictErrorsIff(init, rt);
      forall i | 0 <= i < |init| ensures Acceptable(init[i], rt) {
        assert init[i] == items[i];
      }
      StrictAgreesWithLenient(init, rt);
      AcceptedAlike(items[n], n, rt);
    }
  }

  /** The shape every sanitised dict has: a truthy title, a `due_date` key,
      int `importance` and `estimated_hours`, a list of dependencies and a
      bool `done`. */
  predicate Clean(t: TaskDict) {
    && t.title.Some? && Truthy(t.title.value)
    && t.dueDate.Some?
    && t.importance.Some? && t.importance.value.JInt?
    && t.estimatedHours.Some? && t.estimatedHours.value.JInt?
    && t.dependencies.Some? && t.dependencies.value.JList?
    && t.done.Some? && t.done.value.JBool?
  }

  lemma RecordIsClean(members: seq<Member>, i: nat, due: Json)
    ensures Clean(Record(members, i, due))
  {
  }

  lemma {:induction false} LenientIsClean(items: seq<Json>)
    ensures forall t :: t in Lenient(items) ==> Clean(t)
  {
    if items != [] {
      var n := |items| - 1;
      LenientIsClean(items[..n]);
      if items[n].JObject? {
        var m := items[n].members;
        RecordIsClean(m, n, Field(m, "due_date"));
      }
    }
  }

  lemma {:induction false} StrictIsClean(items: seq<Json>, rt: Runtime)
    ensures forall t :: t in Strict(items, rt).sanitized ==> Clean(t)
  {
    if items != [] {
      var n := |items| - 1;
      StrictIsClean(items[..n], rt);
      if items[n].JObject? {
        var m := items[n].members;
        var due := Field(m, "due_date");
        RecordIsClean(m, n, if ValidDue(due, rt) then due else JNull);
      }
    }
  }

  /** The indices of the items that are objects. */
  function ObjectIndices(items: seq<Json>): set<int> {
    set i | 0 <= i < |items| && items[i].JObject?
  }

  lemma ObjectIndicesStep(items: seq<Json>)
    requires items != []
    ensures var n := |items| - 1;
            |ObjectIndices(items)| == |ObjectIndices(items[..n])| + (if items[n].JObject? then 1 else 0)
  {
    var n := |items| - 1;
    var init := items[..n];
    var before := ObjectIndices(init);
    var after := ObjectIndices(items);
    var last := if items[n].JObject? then {n} else {};
    forall i ensures i in after <==> i in before + last {
      if 0 <= i < n {
        assert init[i] == items[i];
      }
    }
    assert after == before + last;
    assert n !in before;
  }

  /** The lenient loop keeps one dict per object item and skips everything
      else. */
  lemma {:induction false} LenientKeepsObjects(items: seq<Json>)
    ensures |Lenient(items)| == |ObjectIndices(items)|
  {
    if items != [] {
      var n := |items| - 1;
      LenientKeepsObjects(items[..n]);
      assert Lenient(items) == Lenient(items[..n]) + LenientRecord(items[n], n);
      ObjectIndicesStep(items);
    }
  }

  /** A batch made only of objects loses nothing. */
  lemma {:induction false} LenientKeepsAllObjects(items: seq<Json>)
    requires forall i :: 0 <= i < |items| ==> items[i].JObject?
    ensures |Lenient(items)| == |items|
  {
    if items != [] {
      var n := |items| - 1;
      var init := items[..n];
      forall i | 0 <= i < |init| ensures init[i].JObject? {
        assert init[i] == items[i];
      }
      LenientKeepsAllObjects(init);
      assert Lenient(items) == Lenient(init) + LenientRecord(items[n], n);
    }
  }

  /** A falsy title becomes "Untitled N", N counting the items from 1
      (skipped non-objects included), and reading N back gives the
      position. */
  lemma UntitledNumbersFromOne(members: seq<Member>, i: nat)
    requires !Truthy(Field(members, "title"))
    ensures TitleOf(members, i) == JStr("Untitled " + Show(i + 1))
    ensures ParseInt(Str(TitleOf(members, i))[9..]) == Some(i + 1)
  {
    var s := "Untitled " + Show(i + 1);
    assert s[9..] == Show(i + 1);
    ParseShow(i + 1);
  }

  /** The sanitised dependencies are always a list compute_score can
      iterate: a non-empty string becomes one dependency (unsanitised, it
      would count one dependency per character), and an object or a number
      becomes no dependency. */
  lemma SanitizedDependencies(v: Json)
    ensures DependencyItems(DependenciesOf(v)).Some?
    ensures v.JStr? && v.s != [] ==>
            DependencyItems(DependenciesOf(v)) == Some([v]) && DependencyItems(v) == Some(Chars(v.s))
    ensures v.JList? ==> DependencyItems(DependenciesOf(v)) == DependencyItems(v)
    ensures !v.JList? && !v.JStr? ==> DependencyItems(DependenciesOf(v)) == Some([])
  {
  }

  // ---------------------------------------------------------------------
  // On sanitised batches the scorer raises only where a number overflows a
  // float, and the explanation never raises.

  lemma CleanIsNormalized(t: TaskDict)
    requires Clean(t)
    ensures Normalized(t) == t
  {
  }

  lemma {:induction false} NormalizeAllClean(tasks: seq<TaskDict>)
    requires forall t :: t in tasks ==> Clean(t)
    ensures NormalizeAll(tasks) == tasks
  {
    if tasks != [] {
      var init := tasks[..|tasks| - 1];
      assert forall t :: t in init ==> t in tasks;
      NormalizeAllClean(init);
      CleanIsNormalized(tasks[|tasks| - 1]);
      assert tasks == init + [tasks[|tasks| - 1]];
    }
  }

  /** On sanitised dicts analyze_tasks_list raises only where compute_score
      overflows: exactly when a task that is not done has an importance, or
      hours above one, too large to convert to a float. The dicts it returns
      are still sanitised ones. */
  lemma CleanAnalyzes(tasks: seq<TaskDict>, today: int, rt: Runtime)
    requires forall t :: t in tasks ==> Clean(t)
    ensures Analyze(tasks, today, rt).None? <==> exists t :: t in tasks && !IsDone(t) && ScoreOverflows(t)
    ensures Analyze(tasks, today, rt).Some? ==> forall x :: x in Analyze(tasks, today, rt).value ==> Clean(x.task)
  {
    NormalizeAllClean(tasks);
    RankingProperties.AnalyzeRaisesIff(tasks, today, rt);
    forall i | 0 <= i < |tasks|
      ensures RankingProperties.RaisesAt(tasks, i, today, rt) <==> !IsDone(tasks[i]) && ScoreOverflows(tasks[i])
    {
      assert Clean(tasks[i]);
      ScoringProperties.ScoreRaisesIff(tasks[i], tasks, today, rt);
    }
    if exists t :: t in tasks && !IsDone(t) && ScoreOverflows(t) {
      var t :| t in tasks && !IsDone(t) && ScoreOverflows(t);
      var i :| 0 <= i < |tasks| && tasks[i] == t;
      assert RankingProperties.RaisesAt(tasks, i, today, rt);
    } else {
      RankingProperties.AnalyzeScoresEach(tasks, today, rt);
    }
  }

  /** _build_explanation never raises on sanitised dicts. */
  lemma {:induction false} CleanExplains(top: seq<ScoredTask>, utcToday: int, rt: Runtime)
    requires forall x :: x in top ==> Clean(x.task)
    ensures Explanation(top, utcToday, rt).Some?
  {
    ExplainProperties.SegmentsFailIff(top, utcToday, rt);
    forall i | 0 <= i < |top| ensures Segment(top[i].task, utcToday, rt).Some? {
      assert top[i] in top;
    }
  }
}
