// What the explanation text of suggest_tasks (tasks/views.py) says about
// each suggested task, proved about Explanation and Parts.

module ExplainProperties {
  import opened Opt
  import opened Text
  import opened PyValues
  import opened Scoring
  import opened Ranking
  import opened Explain

  // ---------------------------------------------------------------------
  // Segments.

  /** One failing application makes the whole sequence fail. */
  lemma {:induction false} EachOfFailsAt<T, U>(xs: seq<T>, f: T -> Option<U>, i: nat)
    requires i < |xs| && f(xs[i]).None?
    ensures EachOf(xs, f).None?
  {
    var n := |xs| - 1;
    if i < n {
      assert xs[..n][i] == xs[i];
      EachOfFailsAt(xs[..n], f, i);
    }
  }

  /** A failing sequence has an element whose application fails. */
  lemma {:induction false} EachOfFailingIndex<T, U>(xs: seq<T>, f: T -> Option<U>) returns (i: nat)
    requires EachOf(xs, f).None?
    ensures i < |xs| && f(xs[i]).None?
  {
    var n := |xs| - 1;
    if EachOf(xs[..n], f).None? {
      i := EachOfFailingIndex(xs[..n], f);
      assert xs[..n][i] == xs[i];
    } else {
      i := n;
    }
  }

  /** Element i of the result is the application to element i. */
  lemma {:induction false} EachOfAt<T, U>(xs: seq<T>, f: T -> Option<U>, i: nat)
    requires EachOf(xs, f).Some? && i < |xs|
    ensures Some(EachOf(xs, f).value[i]) == f(xs[i])
  {
    var n := |xs| - 1;
    var init := xs[..n];
    if i < n {
      assert init[i] == xs[i];
      EachOfAt(init, f, i);
    }
  }

  /** The explanation fails exactly when one task's clauses do. */
  lemma SegmentsFailIff(top: seq<ScoredTask>, utcToday: int, rt: Runtime)
    ensures Segments(top, utcToday, rt).None? <==>
            exists i :: 0 <= i < |top| && Segment(top[i].task, utcToday, rt).None?
  {
    var f := (x: ScoredTask) => Segment(x.task, utcToday, rt);
    if EachOf(top, f).None? {
      var i := EachOfFailingIndex(top, f);
      assert f(top[i]) == Segment(top[i].task, utcToday, rt);
    } else {
      forall i | 0 <= i < |top| ensures Segment(top[i].task, utcToday, rt).Some? {
        if f(top[i]).None? {
          EachOfFailsAt(top, f, i);
        }
      }
    }
  }

  /** The explanation has one segment per task, in order, each the task's
      clauses joined by ", ". */
  lemma SegmentsValues(top: seq<ScoredTask>, utcToday: int, rt: Runtime)
    requires Segments(top, utcToday, rt).Some?
    ensures forall i :: 0 <= i < |top| ==> Some(Segments(top, utcToday, rt).value[i]) == Segment(top[i].task, utcToday, rt)
  {
    var f := (x: ScoredTask) => Segment(x.task, utcToday, rt);
    forall i | 0 <= i < |top| ensures Some(Segments(top, utcToday, rt).value[i]) == Segment(top[i].task, utcToday, rt) {
      EachOfAt(top, f, i);
    }
  }

  /** A segment fails exactly when the task's clauses do, and is then the
      clauses joined by ", ", starting with the task's title in single
      quotes. */
  lemma SegmentStartsWithTitle(t: TaskDict, utcToday: int, rt: Runtime)
    ensures Segment(t, utcToday, rt).None? <==> Parts(t, utcToday, rt).None?
    ensures Segment(t, utcToday, rt).Some? ==>
            var seg, q := Segment(t, utcToday, rt).value, QuotedTitle(t);
            && seg == Join(", ", Parts(t, utcToday, rt).value)
            && |seg| >= |q| && seg[..|q|] == q
  {
    if Parts(t, utcToday, rt).Some? {
      var parts := Parts(t, utcToday, rt).value;
      assert parts[0] == QuotedTitle(t);
    }
  }

  /** The whole explanation starts with the first task's quoted title. */
  lemma ExplanationStartsWithFirstTitle(top: seq<ScoredTask>, utcToday: int, rt: Runtime)
    requires Explanation(top, utcToday, rt).Some? && top != []
    ensures var e, q := Explanation(top, utcToday, rt).value, QuotedTitle(top[0].task);
            |e| >= |q| && e[..|q|] == q
  {
    SegmentsValues(top, utcToday, rt);
    var segs := Segments(top, utcToday, rt).value;
    SegmentStartsWithTitle(top[0].task, utcToday, rt);
    var e, q := Join(" | ", segs), QuotedTitle(top[0].task);
    assert e[..|segs[0]|] == segs[0];
    assert e[..|q|] == e[..|segs[0]|][..|q|];
  }

  // ---------------------------------------------------------------------
  // Telling the clauses apart.

  predicate IsDueSoonClause(p: string) {
    |p| >= 13 && p[..13] == "is due soon ("
  }

  predicate IsDependencyClause(p: string) {
    |p| > 4 && p[..4] == "has " && IsAsciiDigit(p[4])
  }

  lemma DependencyClauseShape(n: nat)
    ensures IsDependencyClause(DependencyClause(n))
    ensures DependencyClause(n) != HighImportance
  {
    var c := DependencyClause(n);
    assert c[4] == Show(n)[0];
    assert HighImportance[4] == 'h';
  }

  /** The day number `datetime.fromisoformat` gives for the due date, when
      it is a truthy string that parses. */
  function ParsedDue(t: TaskDict, rt: Runtime): Option<int> {
    var due := Lookup(t.dueDate);
    if Truthy(due) && due.JStr? then rt.datetimeFromIso(due.s) else None
  }

  lemma DuePartsShape(t: TaskDict, utcToday: int, rt: Runtime)
    ensures |DueParts(t, utcToday, rt)| <= 1
    ensures forall c :: c in DueParts(t, utcToday, rt) ==>
              |c| > 0 && c[0] == 'i' && (c == Overdue || IsDueSoonClause(c))
    ensures Overdue in DueParts(t, utcToday, rt) <==> ParsedDue(t, rt).Some? && ParsedDue(t, rt).value < utcToday
    ensures (exists c :: c in DueParts(t, utcToday, rt) && IsDueSoonClause(c)) <==>
            ParsedDue(t, rt).Some? && 0 <= ParsedDue(t, rt).value - utcToday <= 3
    ensures ParsedDue(t, rt).Some? && 0 <= ParsedDue(t, rt).value - utcToday <= 3 ==>
            DueParts(t, utcToday, rt) == [DueSoon(rt.isoFormat(ParsedDue(t, rt).value))]
  {
    var cs := DueParts(t, utcToday, rt);
    assert !IsDueSoonClause(Overdue);
    if ParsedDue(t, rt).Some? && 0 <= ParsedDue(t, rt).value - utcToday <= 3 {
      var c := DueSoon(rt.isoFormat(ParsedDue(t, rt).value));
      assert c[..13] == "is due soon (";
      assert c in cs;
    }
    forall c | c in cs ensures |c| > 0 && c[0] == 'i' && (c == Overdue || IsDueSoonClause(c)) {
      if c != Overdue {
        assert c[..13] == "is due soon (";
      }
    }
  }

  /** The clauses of a task, as a set of strings: its quoted title, its
      due-date clause, and the three conditional ones. */
  lemma PartsMembers(t: TaskDict, utcToday: int, rt: Runtime)
    requires Parts(t, utcToday, rt).Some?
    ensures forall p :: p in Parts(t, utcToday, rt).value <==>
              || p == QuotedTitle(t)
              || p in DueParts(t, utcToday, rt)
              || (p == HighImportance && NumberOf(ImportanceOrZero(t)).value >= 7)
              || (p == Quick && NumberOf(EstimatedOrZero(t)).value <= 1)
              || (Truthy(Lookup(t.dependencies)) && p == DependencyClause(LenOf(Lookup(t.dependencies)).value))
  {
  }

  lemma QuotedTitleShape(t: TaskDict)
    ensures |QuotedTitle(t)| > 0 && QuotedTitle(t)[0] == '\''
  {
  }

  // ---------------------------------------------------------------------
  // The clauses.

  /** "is overdue" appears exactly when the due date parses to a day before
      today. */
  lemma OverdueClause(t: TaskDict, utcToday: int, rt: Runtime)
    requires Parts(t, utcToday, rt).Some?
    ensures Overdue in Parts(t, utcToday, rt).value <==> ParsedDue(t, rt).Some? && ParsedDue(t, rt).value < utcToday
  {
    PartsMembers(t, utcToday, rt);
    DuePartsShape(t, utcToday, rt);
    QuotedTitleShape(t);
    assert Overdue[0] == 'i' && Overdue != HighImportance && Overdue != Quick;
    assert Overdue[0] != DependencyClause(0)[0];
  }

  lemma DueSoonStartsWithI(p: string)
    requires IsDueSoonClause(p)
    ensures |p| > 0 && p[0] == 'i'
  {
    assert p[0] == p[..13][0];
  }

  /** Only the due-date clause starts with an "i". */
  lemma OnlyDueClauseStartsWithI(t: TaskDict, utcToday: int, rt: Runtime, p: string)
    requires Parts(t, utcToday, rt).Some? && p in Parts(t, utcToday, rt).value
    requires |p| > 0 && p[0] == 'i'
    ensures p in DueParts(t, utcToday, rt)
  {
    PartsMembers(t, utcToday, rt);
    QuotedTitleShape(t);
    assert HighImportance[0] == 'h' && Quick[0] == 'q';
    if Truthy(Lookup(t.dependencies)) {
      assert DependencyClause(LenOf(Lookup(t.dependencies)).value)[0] == 'h';
    }
  }

  /** "is due soon (...)" appears exactly when the due date parses to today
      or one of the next three days. */
  lemma DueSoonClause(t: TaskDict, utcToday: int, rt: Runtime)
    requires Parts(t, utcToday, rt).Some?
    ensures (exists p :: p in Parts(t, utcToday, rt).value && IsDueSoonClause(p)) <==>
            ParsedDue(t, rt).Some? && 0 <= ParsedDue(t, rt).value - utcToday <= 3
  {
    var ps := Parts(t, utcToday, rt).value;
    PartsMembers(t, utcToday, rt);
    DuePartsShape(t, utcToday, rt);
    if p :| p in ps && IsDueSoonClause(p) {
      DueSoonStartsWithI(p);
      OnlyDueClauseStartsWithI(t, utcToday, rt, p);
    }
  }

  /** The two due-date clauses never both appear. */
  lemma DueClausesExclusive(t: TaskDict, utcToday: int, rt: Runtime)
    requires Parts(t, utcToday, rt).Some?
    ensures !(Overdue in Parts(t, utcToday, rt).value &&
              exists p :: p in Parts(t, utcToday, rt).value && IsDueSoonClause(p))
  {
    OverdueClause(t, utcToday, rt);
    DueSoonClause(t, utcToday, rt);
  }

  /** A due date that is absent, not a string, or not accepted by
      `datetime.fromisoformat` adds no clause and makes nothing fail: the
      clauses are those of the same task without a due date. */
  lemma UnparsedDueIsIgnored(t: TaskDict, utcToday: int, rt: Runtime)
    requires ParsedDue(t, rt).None?
    ensures Parts(t, utcToday, rt) == Parts(t.(dueDate := None), utcToday, rt)
  {
    assert DueParts(t, utcToday, rt) == [] == DueParts(t.(dueDate := None), utcToday, rt);
  }

  /** The clauses of a task, as the concatenation Parts builds. */
  lemma PartsPieces(t: TaskDict, utcToday: int, rt: Runtime)
    requires Parts(t, utcToday, rt).Some?
    ensures var imp, est := NumberOf(ImportanceOrZero(t)).value, NumberOf(EstimatedOrZero(t)).value;
            var deps := Lookup(t.dependencies);
            Parts(t, utcToday, rt).value
            == [QuotedTitle(t)] + DueParts(t, utcToday, rt)
               + (if imp >= 7 then [HighImportance] else [])
               + (if est <= 1 then [Quick] else [])
               + (if Truthy(deps) then [DependencyClause(LenOf(deps).value)] else [])
  {
  }

  /** Where a clause stands in a segment: the quoted title, the due clause,
      "has high importance", the quick-to-finish clause, the dependency clause. */
  function ClauseRank(p: string): nat {
    if |p| > 0 && p[0] == '\'' then 0
    else if |p| > 0 && p[0] == 'i' then 1
    else if p == HighImportance then 2
    else if p == Quick then 3
    else 4
  }

  /** Each later clause has a strictly higher rank. */
  predicate InSourceOrder(s: seq<string>) {
    forall i, j :: 0 <= i < j < |s| ==> ClauseRank(s[i]) < ClauseRank(s[j])
  }

  lemma AppendRanked(s: seq<string>, extra: seq<string>, r: nat)
    requires InSourceOrder(s) && forall p :: p in s ==> ClauseRank(p) < r
    requires |extra| <= 1 && forall p :: p in extra ==> ClauseRank(p) == r
    ensures InSourceOrder(s + extra) && forall p :: p in s + extra ==> ClauseRank(p) <= r
  {
    var u := s + extra;
    forall i, j | 0 <= i < j < |u| ensures ClauseRank(u[i]) < ClauseRank(u[j]) {
      if j >= |s| {
        assert u[i] in s && u[j] in extra;
      }
    }
  }

  lemma TitleRank(t: TaskDict)
    ensures ClauseRank(QuotedTitle(t)) == 0
  {
    QuotedTitleShape(t);
  }

  lemma DueRank(t: TaskDict, utcToday: int, rt: Runtime)
    ensures |DueParts(t, utcToday, rt)| <= 1
    ensures forall p :: p in DueParts(t, utcToday, rt) ==> ClauseRank(p) == 1
  {
    DuePartsShape(t, utcToday, rt);
  }

  lemma FixedClauseRanks()
    ensures ClauseRank(HighImportance) == 2 && ClauseRank(Quick) == 3
  {
    assert HighImportance[0] == 'h' && Quick[0] == 'q';
  }

  lemma DependencyRank(n: nat)
    ensures ClauseRank(DependencyClause(n)) == 4
  {
    var p := DependencyClause(n);
    DependencyClauseShape(n);
    DependencyClauseIsNotOther(p);
    assert Quick[0] == 'q';
  }

  /** Five groups of at most one clause each, of ranks 0 to 4, in order:
      the first clause is the title and the last one, when present, is the
      dependency clause. */
  lemma RankedGroups(title: seq<string>, due: seq<string>, high: seq<string>, quick: seq<string>, dc: seq<string>)
    requires |title| == 1 && |due| <= 1 && |high| <= 1 && |quick| <= 1 && |dc| <= 1
    requires ClauseRank(title[0]) == 0
    requires forall p :: p in due ==> ClauseRank(p) == 1
    requires forall p :: p in high ==> ClauseRank(p) == 2
    requires forall p :: p in quick ==> ClauseRank(p) == 3
    requires forall p :: p in dc ==> ClauseRank(p) == 4
    ensures var ps := title + due + high + quick + dc;
            && ps[0] == title[0]
            && InSourceOrder(ps)
            && (dc != [] ==> ps[|ps| - 1] == dc[0])
  {
    assert InSourceOrder(title);
    AppendRanked(title, due, 1);
    AppendRanked(title + due, high, 2);
    AppendRanked(title + due + high, quick, 3);
    AppendRanked(title + due + high + quick, dc, 4);
  }

  /** The five groups Parts concatenates. */
  lemma PartsGroups(t: TaskDict, utcToday: int, rt: Runtime)
    returns (due: seq<string>, high: seq<string>, quick: seq<string>, dc: seq<string>)
    requires Parts(t, utcToday, rt).Some?
    ensures Parts(t, utcToday, rt).value == [QuotedTitle(t)] + due + high + quick + dc
    ensures due == DueParts(t, utcToday, rt)
    ensures high == [] || high == [HighImportance]
    ensures quick == [] || quick == [Quick]
    ensures var deps := Lookup(t.dependencies);
            && (Truthy(deps) ==> dc == [DependencyClause(LenOf(deps).value)])
            && (!Truthy(deps) ==> dc == [])
  {
    PartsPieces(t, utcToday, rt);
    var imp, est := NumberOf(ImportanceOrZero(t)).value, NumberOf(EstimatedOrZero(t)).value;
    var deps := Lookup(t.dependencies);
    due := DueParts(t, utcToday, rt);
    high := if imp >= 7 then [HighImportance] else [];
    quick := if est <= 1 then [Quick] else [];
    dc := if Truthy(deps) then [DependencyClause(LenOf(deps).value)] else [];
  }

  /** The ranks of the five groups Parts concatenates. */
  lemma GroupRanks(t: TaskDict, utcToday: int, rt: Runtime,
                   due: seq<string>, high: seq<string>, quick: seq<string>, dc: seq<string>)
    requires due == DueParts(t, utcToday, rt)
    requires high == [] || high == [HighImportance]
    requires quick == [] || quick == [Quick]
    requires dc == [] || exists n: nat :: dc == [DependencyClause(n)]
    ensures ClauseRank(QuotedTitle(t)) == 0
    ensures |due| <= 1 && forall p :: p in due ==> ClauseRank(p) == 1
    ensures forall p :: p in high ==> ClauseRank(p) == 2
    ensures forall p :: p in quick ==> ClauseRank(p) == 3
    ensures forall p :: p in dc ==> ClauseRank(p) == 4
  {
    TitleRank(t);
    DueRank(t, utcToday, rt);
    FixedClauseRanks();
    if dc != [] {
      var n: nat :| dc == [DependencyClause(n)];
      DependencyRank(n);
    }
  }

  /** The clauses come in the order the source appends them: the quoted
      title first, then the due clause, "has high importance", the
      quick-to-finish clause and last the dependency clause, each at most
      once. */
  lemma PartsInSourceOrder(t: TaskDict, utcToday: int, rt: Runtime)
    requires Parts(t, utcToday, rt).Some?
    ensures var ps := Parts(t, utcToday, rt).value;
            && ps != [] && ps[0] == QuotedTitle(t)
            && InSourceOrder(ps)
            && (Truthy(Lookup(t.dependencies)) ==>
                  ps[|ps| - 1] == DependencyClause(LenOf(Lookup(t.dependencies)).value))
  {
    var due, high, quick, dc := PartsGroups(t, utcToday, rt);
    GroupRanks(t, utcToday, rt, due, high, quick, dc);
    RankedGroups([QuotedTitle(t)], due, high, quick, dc);
  }

  /** "has high importance" appears exactly when the importance, 0 when
      missing, is at least 7. */
  lemma HighImportanceClause(t: TaskDict, utcToday: int, rt: Runtime)
    requires Parts(t, utcToday, rt).Some?
    ensures HighImportance in Parts(t, utcToday, rt).value <==> NumberOf(ImportanceOrZero(t)).value >= 7
  {
    var imp, est := NumberOf(ImportanceOrZero(t)).value, NumberOf(EstimatedOrZero(t)).value;
    var deps := Lookup(t.dependencies);
    var dp := DueParts(t, utcToday, rt);
    var hi := if imp >= 7 then [HighImportance] else [];
    var qu := if est <= 1 then [Quick] else [];
    var dc := if Truthy(deps) then [DependencyClause(LenOf(deps).value)] else [];
    PartsPieces(t, utcToday, rt);
    assert Parts(t, utcToday, rt).value == [QuotedTitle(t)] + dp + hi + qu + dc;
    QuotedTitleShape(t);
    assert HighImportance != QuotedTitle(t) by { assert HighImportance[0] != QuotedTitle(t)[0]; }
    DuePartsShape(t, utcToday, rt);
    assert HighImportance !in dp by { assert HighImportance[0] != 'i'; }
    assert HighImportance !in qu by { assert HighImportance[0] != Quick[0]; }
    if Truthy(deps) {
      DependencyClauseShape(LenOf(deps).value);
    }
    assert HighImportance !in dc;
  }

  /** "quick to finish (low estimated hours)" appears exactly when the
      estimate, 0 when missing, is at most 1. */
  lemma QuickClause(t: TaskDict, utcToday: int, rt: Runtime)
    requires Parts(t, utcToday, rt).Some?
    ensures Quick in Parts(t, utcToday, rt).value <==> NumberOf(EstimatedOrZero(t)).value <= 1
  {
    var imp, est := NumberOf(ImportanceOrZero(t)).value, NumberOf(EstimatedOrZero(t)).value;
    var deps := Lookup(t.dependencies);
    var dp := DueParts(t, utcToday, rt);
    var hi := if imp >= 7 then [HighImportance] else [];
    var qu := if est <= 1 then [Quick] else [];
    var dc := if Truthy(deps) then [DependencyClause(LenOf(deps).value)] else [];
    PartsPieces(t, utcToday, rt);
    assert Parts(t, utcToday, rt).value == [QuotedTitle(t)] + dp + hi + qu + dc;
    QuotedTitleShape(t);
    assert Quick != QuotedTitle(t) by { assert Quick[0] != QuotedTitle(t)[0]; }
    DuePartsShape(t, utcToday, rt);
    assert Quick !in dp by { assert Quick[0] != 'i'; }
    assert Quick !in hi by { assert HighImportance[0] != Quick[0]; }
    if Truthy(deps) {
      assert DependencyClause(LenOf(deps).value)[0] != Quick[0];
    }
    assert Quick !in dc;
  }

  /** The dependency clause appears exactly when the dependencies value is
      truthy, and then counts its raw length (not the unmet ones). */
  lemma DependencyClauseCount(t: TaskDict, utcToday: int, rt: Runtime)
    requires Parts(t, utcToday, rt).Some?
    ensures (exists p :: p in Parts(t, utcToday, rt).value && IsDependencyClause(p)) <==> Truthy(Lookup(t.dependencies))
    ensures Truthy(Lookup(t.dependencies)) ==>
            DependencyClause(LenOf(Lookup(t.dependencies)).value) in Parts(t, utcToday, rt).value
  {
    var ps := Parts(t, utcToday, rt).value;
    PartsMembers(t, utcToday, rt);
    var deps := Lookup(t.dependencies);
    if Truthy(deps) {
      DependencyClauseShape(LenOf(deps).value);
    } else if p :| p in ps && IsDependencyClause(p) {
      DependencyClauseIsNotOther(p);
      OnlyDependencyClauseStartsWithH(t, utcToday, rt, p);
    }
  }

  lemma DependencyClauseIsNotOther(p: string)
    requires IsDependencyClause(p)
    ensures |p| > 0 && p[0] == 'h' && p != HighImportance
  {
    assert p[0] == p[..4][0];
    assert HighImportance[4] == 'h';
  }

  /** Only the dependency clause starts with an "h" and is not "has high
      importance". */
  lemma OnlyDependencyClauseStartsWithH(t: TaskDict, utcToday: int, rt: Runtime, p: string)
    requires Parts(t, utcToday, rt).Some? && p in Parts(t, utcToday, rt).value
    requires |p| > 0 && p[0] == 'h' && p != HighImportance
    ensures Truthy(Lookup(t.dependencies))
  {
    PartsMembers(t, utcToday, rt);
    QuotedTitleShape(t);
    DuePartsShape(t, utcToday, rt);
    assert Quick[0] == 'q';
  }

  /** A missing importance or estimate counts as 0, not as the 1 the scorer
      defaults to: no high-importance clause, and a quick-to-finish one. */
  lemma MissingFieldsCountAsZero(t: TaskDict, utcToday: int, rt: Runtime)
    requires t.importance.None? && t.estimatedHours.None? && !DependencyLenRaises(t)
    ensures Parts(t, utcToday, rt).Some?
    ensures HighImportance !in Parts(t, utcToday, rt).value
    ensures Quick in Parts(t, utcToday, rt).value
  {
    HighImportanceClause(t, utcToday, rt);
    QuickClause(t, utcToday, rt);
  }
}
