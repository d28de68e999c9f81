// What analyze_tasks_list (tasks/scoring.py) promises about its result,
// proved about Analyze: one scored copy per task, each with its score,
// ordered by the sort key, stable, and equal to what Python's stable
// `list.sort` returns.

module RankingProperties {
  import opened Opt
  import opened PyValues
  import opened Scoring
  import opened ScoringProperties
  import opened Ranking

  // ---------------------------------------------------------------------
  // The sort key order.

  /** `Before` is a strict total order: two keys neither of which sorts
      before the other are equal. */
  lemma BeforeTotal(a: SortKey, b: SortKey)
    ensures !Before(a, a)
    ensures Before(a, b) ==> !Before(b, a)
    ensures a == b || Before(a, b) || Before(b, a)
  {
  }

  lemma NotBeforeTransitive(a: SortKey, b: SortKey, c: SortKey)
    requires !Before(a, b) && !Before(b, c)
    ensures !Before(a, c)
  {
  }

  /** No later entry sorts strictly before an earlier one. */
  predicate Sorted(s: seq<Entry>) {
    forall i, j :: 0 <= i < j < |s| ==> !Before(s[j].key, s[i].key)
  }

  /** The entries of `s` whose key is `k`, in their order in `s`. */
  function Filter(s: seq<Entry>, k: SortKey): seq<Entry> {
    if s == [] then []
    else Filter(s[..|s| - 1], k) + (if s[|s| - 1].key == k then [s[|s| - 1]] else [])
  }

  lemma {:induction false} FilterMember(s: seq<Entry>, k: SortKey, e: Entry)
    ensures e in Filter(s, k) <==> e in s && e.key == k
  {
    if s != [] {
      FilterMember(s[..|s| - 1], k, e);
      assert s == s[..|s| - 1] + [s[|s| - 1]];
    }
  }

  lemma {:induction false} FilterConcat(a: seq<Entry>, b: seq<Entry>, k: SortKey)
    ensures Filter(a + b, k) == Filter(a, k) + Filter(b, k)
    decreases |b|
  {
    if b == [] {
      assert a + b == a;
    } else {
      assert (a + b)[..|a + b| - 1] == a + b[..|b| - 1];
      FilterConcat(a, b[..|b| - 1], k);
    }
  }

  // ---------------------------------------------------------------------
  // InsertionSort is a stable sort.

  lemma {:induction false} InsertSorted(s: seq<Entry>, e: Entry)
    requires Sorted(s)
    ensures Sorted(Insert(s, e))
    ensures multiset(Insert(s, e)) == multiset(s) + multiset{e}
  {
    if s != [] {
      var init, last := s[..|s| - 1], s[|s| - 1];
      assert s == init + [last];
      if Before(e.key, last.key) {
        InsertSorted(init, e);
        var r := Insert(init, e);
        forall i | 0 <= i < |r|
          ensures !Before(last.key, r[i].key)
        {
          assert r[i] in multiset(r);
          if r[i] == e {
            BeforeTotal(e.key, last.key);
          } else {
            assert r[i] in init;
            var j :| 0 <= j < |init| && init[j] == r[i];
            assert s[j] == r[i];
          }
        }
      } else {
        forall i | 0 <= i < |s|
          ensures !Before(e.key, s[i].key)
        {
          if i < |s| - 1 {
            NotBeforeTransitive(e.key, last.key, s[i].key);
          }
        }
      }
    }
  }

  lemma {:induction false} InsertFilter(s: seq<Entry>, e: Entry, k: SortKey)
    ensures Filter(Insert(s, e), k) == Filter(s, k) + (if e.key == k then [e] else [])
  {
    if s != [] {
      var init, last := s[..|s| - 1], s[|s| - 1];
      if Before(e.key, last.key) {
        BeforeTotal(e.key, last.key);
        InsertFilter(init, e, k);
        FilterConcat(Insert(init, e), [last], k);
      } else {
        FilterConcat(s, [e], k);
      }
    }
  }

  /** The result of the sort is ordered by key, is a permutation of its
      input, and keeps the entries of each key in their input order. */
  lemma {:induction false} SortIsStable(s: seq<Entry>)
    ensures Sorted(InsertionSort(s))
    ensures multiset(InsertionSort(s)) == multiset(s)
    ensures forall k :: Filter(InsertionSort(s), k) == Filter(s, k)
  {
    if s != [] {
      var init, last := s[..|s| - 1], s[|s| - 1];
      SortIsStable(init);
      InsertSorted(InsertionSort(init), last);
      assert s == init + [last];
      forall k ensures Filter(InsertionSort(s), k) == Filter(s, k) {
        InsertFilter(InsertionSort(init), last, k);
      }
    }
  }

  /** In a sorted sequence the last element sorts strictly before no element. */
  lemma LastSortsLast(u: seq<Entry>, x: Entry)
    requires Sorted(u) && x in u
    ensures !Before(u[|u| - 1].key, x.key)
  {
    var i :| 0 <= i < |u| && u[i] == x;
    if i == |u| - 1 {
      BeforeTotal(x.key, x.key);
    }
  }

  /** Two sorted sequences with the same entries for every key end with
      entries of the same key. */
  lemma SortedSameLastKey(t: seq<Entry>, u: seq<Entry>)
    requires Sorted(t) && Sorted(u) && t != [] && u != []
    requires forall k :: Filter(t, k) == Filter(u, k)
    ensures t[|t| - 1].key == u[|u| - 1].key
  {
    var x, y := t[|t| - 1], u[|u| - 1];
    FilterMember(t, x.key, x);
    FilterMember(u, x.key, x);
    LastSortsLast(u, x);
    FilterMember(u, y.key, y);
    FilterMember(t, y.key, y);
    LastSortsLast(t, y);
    BeforeTotal(x.key, y.key);
  }

  /** A sorted sequence whose entries of each key are those of `u`, in the
      same order, is `u` itself when `u` is sorted too. */
  lemma {:induction false} SortedUnique(t: seq<Entry>, u: seq<Entry>)
    requires Sorted(t) && Sorted(u)
    requires forall k :: Filter(t, k) == Filter(u, k)
    ensures t == u
    decreases |t|
  {
    if t == [] {
      if u != [] {
        var y := u[|u| - 1];
        FilterMember(u, y.key, y);
      }
    } else if u == [] {
      var x := t[|t| - 1];
      FilterMember(t, x.key, x);
    } else {
      SortedSameLastKey(t, u);
      var x, y := t[|t| - 1], u[|u| - 1];
      var t', u' := t[..|t| - 1], u[..|u| - 1];
      assert x == y && Filter(t', x.key) == Filter(u', x.key) by {
        var ft, fu := Filter(t, x.key), Filter(u, x.key);
        assert ft == Filter(t', x.key) + [x];
        assert fu == Filter(u', x.key) + [y];
        assert ft[|ft| - 1] == x && fu[|fu| - 1] == y;
        assert Filter(t', x.key) == ft[..|ft| - 1];
        assert Filter(u', x.key) == fu[..|fu| - 1];
      }
      forall k | k != x.key ensures Filter(t', k) == Filter(u', k) {
        assert Filter(t, k) == Filter(u, k);
        assert Filter(t, k) == Filter(t', k) + [] == Filter(t', k);
        assert Filter(u, k) == Filter(u', k) + [] == Filter(u', k);
      }
      SortedUnique(t', u');
      assert t == t' + [x] && u == u' + [y];
    }
  }

  /** Any sequence ordered by key that keeps each key's entries in input
      order is InsertionSort's result; in particular Python's stable
      `list.sort` returns exactly that sequence. */
  lemma StableSortIsUnique(s: seq<Entry>, t: seq<Entry>)
    requires Sorted(t)
    requires forall k :: Filter(t, k) == Filter(s, k)
    ensures t == InsertionSort(s)
  {
    SortIsStable(s);
    SortedUnique(t, InsertionSort(s));
  }

  // ---------------------------------------------------------------------
  // Scoring and keying every element.

  lemma {:induction false} ScoreAllEach(ts: seq<TaskDict>, batch: seq<TaskDict>, today: int, rt: Runtime)
    ensures ScoreAll(ts, batch, today, rt).None? <==>
            exists i :: 0 <= i < |ts| && ScoreOf(ts[i], batch, today, rt).None?
    ensures ScoreAll(ts, batch, today, rt).Some? ==>
            forall i :: 0 <= i < |ts| ==>
              ScoreAll(ts, batch, today, rt).value[i] == ScoredTask(ts[i], ScoreOf(ts[i], batch, today, rt).value)
  {
    if ts != [] {
      var n := |ts| - 1;
      var init, last := ts[..n], ts[n];
      ScoreAllEach(init, batch, today, rt);
      match ScoreAll(init, batch, today, rt)
      case None =>
        var i :| 0 <= i < |init| && ScoreOf(init[i], batch, today, rt).None?;
        assert ts[i] == init[i];
      case Some(pre) =>
        match ScoreOf(last, batch, today, rt)
        case None =>
          assert ScoreAll(ts, batch, today, rt).None?;
        case Some(x) =>
          var all := pre + [ScoredTask(last, x)];
          assert ScoreAll(ts, batch, today, rt) == Some(all);
          forall i | 0 <= i < |ts|
            ensures ScoreOf(ts[i], batch, today, rt).Some?
            ensures all[i] == ScoredTask(ts[i], ScoreOf(ts[i], batch, today, rt).value)
          {
            if i < n {
              assert ts[i] == init[i];
              assert all[i] == pre[i];
            }
          }
    }
  }

  lemma {:induction false} KeyAllFails(xs: seq<ScoredTask>, rt: Runtime)
    ensures KeyAll(xs, rt).None? <==> exists i :: 0 <= i < |xs| && KeyOf(xs[i], rt).None?
  {
    if xs != [] {
      var n := |xs| - 1;
      var init := xs[..n];
      KeyAllFails(init, rt);
      if KeyAll(init, rt).None? {
        var i :| 0 <= i < |init| && KeyOf(init[i], rt).None?;
        assert xs[i] == init[i];
      } else if KeyOf(xs[n], rt).Some? {
        assert forall i :: 0 <= i < n ==> xs[i] == init[i];
      }
    }
  }

  /** Every entry of `es` is its element of `xs` with that element's key. */
  predicate EntriesFor(es: seq<Entry>, xs: seq<ScoredTask>, rt: Runtime) {
    && |es| == |xs|
    && forall i :: 0 <= i < |xs| ==> KeyOf(xs[i], rt).Some? && es[i] == Entry(KeyOf(xs[i], rt).value, xs[i])
  }

  lemma EntriesForSnoc(pre: seq<Entry>, init: seq<ScoredTask>, last: ScoredTask, k: SortKey, rt: Runtime)
    requires EntriesFor(pre, init, rt) && KeyOf(last, rt) == Some(k)
    ensures EntriesFor(pre + [Entry(k, last)], init + [last], rt)
  {
    var es, xs := pre + [Entry(k, last)], init + [last];
    forall i | 0 <= i < |xs|
      ensures KeyOf(xs[i], rt).Some? && es[i] == Entry(KeyOf(xs[i], rt).value, xs[i])
    {
      if i < |init| {
        assert xs[i] == init[i] && es[i] == pre[i];
      }
    }
  }

  lemma {:induction false} KeyAllValues(xs: seq<ScoredTask>, rt: Runtime)
    requires KeyAll(xs, rt).Some?
    ensures EntriesFor(KeyAll(xs, rt).value, xs, rt)
  {
    if xs != [] {
      var n := |xs| - 1;
      var init, last := xs[..n], xs[n];
      assert xs == init + [last];
      assert KeyAll(init, rt).Some? && KeyOf(last, rt).Some?;
      KeyAllValues(init, rt);
      EntriesForSnoc(KeyAll(init, rt).value, init, last, KeyOf(last, rt).value, rt);
    }
  }

  lemma KeyAllEach(xs: seq<ScoredTask>, rt: Runtime)
    ensures KeyAll(xs, rt).None? <==> exists i :: 0 <= i < |xs| && KeyOf(xs[i], rt).None?
    ensures KeyAll(xs, rt).Some? ==>
            forall i :: 0 <= i < |xs| ==> KeyAll(xs, rt).value[i] == Entry(KeyOf(xs[i], rt).value, xs[i])
  {
    KeyAllFails(xs, rt);
    if KeyAll(xs, rt).Some? {
      KeyAllValues(xs, rt);
    }
  }

  /** Every entry carries the key `sort_key` computes for its element. */
  predicate KeyedBy(es: seq<Entry>, rt: Runtime) {
    forall e :: e in es ==> KeyOf(e.item, rt) == Some(e.key)
  }

  /** The elements of `xs` whose sort key is `k`, in their order in `xs`. */
  function WithKey(xs: seq<ScoredTask>, k: SortKey, rt: Runtime): seq<ScoredTask> {
    if xs == [] then []
    else WithKey(xs[..|xs| - 1], k, rt) + (if KeyOf(xs[|xs| - 1], rt) == Some(k) then [xs[|xs| - 1]] else [])
  }

  lemma {:induction false} ItemsWithKey(es: seq<Entry>, k: SortKey, rt: Runtime)
    requires KeyedBy(es, rt)
    ensures WithKey(Items(es), k, rt) == Items(Filter(es, k))
  {
    if es != [] {
      var init, last := es[..|es| - 1], es[|es| - 1];
      assert KeyedBy(init, rt) by {
        forall e | e in init ensures KeyOf(e.item, rt) == Some(e.key) {
          assert e in es;
        }
      }
      ItemsWithKey(init, k, rt);
      assert last in es;
      var xs := Items(es);
      assert xs[..|xs| - 1] == Items(init);
      ItemsConcat(Filter(init, k), if last.key == k then [last] else []);
    }
  }

  lemma ItemsConcat(p: seq<Entry>, q: seq<Entry>)
    ensures Items(p + q) == Items(p) + Items(q)
  {
    assert |Items(p + q)| == |Items(p) + Items(q)|;
    forall k | 0 <= k < |p + q| ensures Items(p + q)[k] == (Items(p) + Items(q))[k] {
    }
  }

  lemma SplitAt(b: seq<Entry>, i: nat)
    requires i < |b|
    ensures b == b[..i] + [b[i]] + b[i + 1..]
  {
  }

  lemma MultisetRemove(b: seq<Entry>, i: nat)
    requires i < |b|
    ensures multiset(b[..i] + b[i + 1..]) == multiset(b) - multiset{b[i]}
  {
    SplitAt(b, i);
  }

  lemma ItemsRemove(b: seq<Entry>, i: nat)
    requires i < |b|
    ensures multiset(Items(b)) == multiset(Items(b[..i] + b[i + 1..])) + multiset{b[i].item}
  {
    var l, m, r := b[..i], b[i], b[i + 1..];
    SplitAt(b, i);
    ItemsConcat(l + [m], r);
    ItemsConcat(l, [m]);
    ItemsConcat(l, r);
    assert Items([m]) == [m.item];
    var il, ir := Items(l), Items(r);
    assert Items(b) == il + [m.item] + ir;
    assert Items(l + r) == il + ir;
    assert multiset(il + [m.item] + ir) == multiset(il) + multiset{m.item} + multiset(ir);
  }

  lemma {:induction false} ItemsPermutation(a: seq<Entry>, b: seq<Entry>)
    requires multiset(a) == multiset(b)
    ensures multiset(Items(a)) == multiset(Items(b))
    decreases |a|
  {
    if a != [] {
      var n := |a| - 1;
      var x := a[n];
      assert x in multiset(a);
      var i :| 0 <= i < |b| && b[i] == x;
      MultisetRemove(a, n);
      MultisetRemove(b, i);
      assert a[..n] + a[n + 1..] == a[..n];
      ItemsPermutation(a[..n], b[..i] + b[i + 1..]);
      ItemsRemove(a, n);
      ItemsRemove(b, i);
    }
  }

  /** The entries KeyAll builds carry their elements' keys, in order. */
  lemma KeyAllKeyed(xs: seq<ScoredTask>, rt: Runtime)
    requires KeyAll(xs, rt).Some?
    ensures KeyedBy(KeyAll(xs, rt).value, rt)
    ensures Items(KeyAll(xs, rt).value) == xs
  {
    var es := KeyAll(xs, rt).value;
    KeyAllEach(xs, rt);
    forall e | e in es ensures KeyOf(e.item, rt) == Some(e.key) {
      var i :| 0 <= i < |es| && es[i] == e;
    }
  }

  lemma KeyedPermutation(a: seq<Entry>, b: seq<Entry>, rt: Runtime)
    requires KeyedBy(a, rt) && multiset(a) == multiset(b)
    ensures KeyedBy(b, rt)
  {
    forall e | e in b ensures KeyOf(e.item, rt) == Some(e.key) {
      assert e in multiset(b);
    }
  }

  // ---------------------------------------------------------------------
  // analyze_tasks_list.

  /** Scoring the `i`th normalised task raises, or `int(importance)` in its
      sort key does. */
  predicate RaisesAt(all: seq<TaskDict>, i: nat, today: int, rt: Runtime)
    requires i < |all|
  {
    ScoreOf(all[i], all, today, rt).None? || IntOf(all[i].importance.GetOr(JInt(0))).None?
  }

  /** analyze_tasks_list raises exactly when compute_score raises on one of
      the normalised tasks or `int(importance)` in the sort key raises on
      one of them. */
  lemma AnalyzeRaisesIff(tasks: seq<TaskDict>, today: int, rt: Runtime)
    ensures Analyze(tasks, today, rt).None? <==>
            exists i :: 0 <= i < |NormalizeAll(tasks)| && RaisesAt(NormalizeAll(tasks), i, today, rt)
  {
    var all := NormalizeAll(tasks);
    ScoreAllEach(all, all, today, rt);
    var scored := ScoreAll(all, all, today, rt);
    if scored.Some? {
      var xs := scored.value;
      KeyAllEach(xs, rt);
      if KeyAll(xs, rt).None? {
        var i :| 0 <= i < |xs| && KeyOf(xs[i], rt).None?;
        assert i < |NormalizeAll(tasks)| && RaisesAt(NormalizeAll(tasks), i, today, rt);
      } else {
        assert forall i :: 0 <= i < |all| ==> !RaisesAt(all, i, today, rt);
      }
    } else {
      var i :| 0 <= i < |all| && ScoreOf(all[i], all, today, rt).None?;
      assert i < |NormalizeAll(tasks)| && RaisesAt(NormalizeAll(tasks), i, today, rt);
    }
  }

  /** The lists analyze_tasks_list builds on the way when it does not raise. */
  lemma AnalyzeSteps(tasks: seq<TaskDict>, today: int, rt: Runtime) returns (scored: seq<ScoredTask>, entries: seq<Entry>)
    requires Analyze(tasks, today, rt).Some?
    ensures ScoreAll(NormalizeAll(tasks), NormalizeAll(tasks), today, rt) == Some(scored)
    ensures KeyAll(scored, rt) == Some(entries)
    ensures Analyze(tasks, today, rt) == Some(Items(InsertionSort(entries)))
  {
    var all := NormalizeAll(tasks);
    scored := ScoreAll(all, all, today, rt).value;
    entries := KeyAll(scored, rt).value;
  }

  /** When it does not raise, analyze_tasks_list returns one scored copy per
      task: a permutation of the normalised tasks scored in input order
      (ScoreAllEach says what each of those holds). */
  lemma AnalyzePermutes(tasks: seq<TaskDict>, today: int, rt: Runtime)
    requires Analyze(tasks, today, rt).Some?
    ensures ScoreAll(NormalizeAll(tasks), NormalizeAll(tasks), today, rt).Some?
    ensures |Analyze(tasks, today, rt).value| == |tasks|
    ensures multiset(Analyze(tasks, today, rt).value)
            == multiset(ScoreAll(NormalizeAll(tasks), NormalizeAll(tasks), today, rt).value)
  {
    var scored, entries := AnalyzeSteps(tasks, today, rt);
    KeyAllKeyed(scored, rt);
    SortIsStable(entries);
    ItemsPermutation(InsertionSort(entries), entries);
  }

  /** Each task of the result is a normalised task carrying its own
      compute_score against the normalised batch. */
  lemma AnalyzeScoresEach(tasks: seq<TaskDict>, today: int, rt: Runtime)
    requires Analyze(tasks, today, rt).Some?
    ensures forall x :: x in Analyze(tasks, today, rt).value ==>
              x.task in NormalizeAll(tasks) && Some(x.score) == ScoreOf(x.task, NormalizeAll(tasks), today, rt)
  {
    var all := NormalizeAll(tasks);
    AnalyzePermutes(tasks, today, rt);
    var scored := ScoreAll(all, all, today, rt).value;
    ScoreAllEach(all, all, today, rt);
    forall x | x in Analyze(tasks, today, rt).value
      ensures x.task in all && Some(x.score) == ScoreOf(x.task, all, today, rt)
    {
      assert x in multiset(scored);
      var i :| 0 <= i < |scored| && scored[i] == x;
      assert all[i] in all;
    }
  }

  /** The result is ordered by the sort key: score descending, then
      importance descending, then due date ascending with no date last. */
  lemma AnalyzeOrdered(tasks: seq<TaskDict>, today: int, rt: Runtime)
    requires Analyze(tasks, today, rt).Some?
    ensures var out := Analyze(tasks, today, rt).value;
            && (forall i :: 0 <= i < |out| ==> KeyOf(out[i], rt).Some?)
            && (forall i, j :: 0 <= i < j < |out| ==> !Before(KeyOf(out[j], rt).value, KeyOf(out[i], rt).value))
  {
    var scored, entries := AnalyzeSteps(tasks, today, rt);
    KeyAllKeyed(scored, rt);
    SortIsStable(entries);
    var sorted := InsertionSort(entries);
    KeyedPermutation(entries, sorted, rt);
    forall i | 0 <= i < |sorted| ensures KeyOf(sorted[i].item, rt) == Some(sorted[i].key) {
      assert sorted[i] in sorted;
    }
  }

  /** Tasks with equal sort keys keep their input order (`list.sort` is
      stable): for every key, the tasks carrying it appear in the result in
      the order they were scored in. */
  lemma AnalyzeStable(tasks: seq<TaskDict>, today: int, rt: Runtime)
    requires Analyze(tasks, today, rt).Some?
    ensures var all := NormalizeAll(tasks);
            && ScoreAll(all, all, today, rt).Some?
            && forall k :: WithKey(Analyze(tasks, today, rt).value, k, rt) == WithKey(ScoreAll(all, all, today, rt).value, k, rt)
  {
    var scored, entries := AnalyzeSteps(tasks, today, rt);
    KeyAllKeyed(scored, rt);
    SortIsStable(entries);
    var sorted := InsertionSort(entries);
    KeyedPermutation(entries, sorted, rt);
    forall k ensures WithKey(Items(sorted), k, rt) == WithKey(scored, k, rt) {
      ItemsWithKey(sorted, k, rt);
      ItemsWithKey(entries, k, rt);
    }
  }

  /** Scores are never negative, and a task ranked earlier never has a
      lower score than one ranked later. */
  lemma AnalyzeScoresDescending(tasks: seq<TaskDict>, today: int, rt: Runtime, i: int, j: int)
    requires Analyze(tasks, today, rt).Some?
    requires 0 <= i < j < |Analyze(tasks, today, rt).value|
    ensures Analyze(tasks, today, rt).value[i].score >= Analyze(tasks, today, rt).value[j].score >= 0.0
  {
    AnalyzeOrdered(tasks, today, rt);
    AnalyzeScoresEach(tasks, today, rt);
    var out := Analyze(tasks, today, rt).value;
    assert out[j] in out;
  }

  // ---------------------------------------------------------------------
  // The normalisation loop.

  /** Normalising twice changes nothing more. */
  lemma NormalizeIdempotent(t: TaskDict)
    ensures Normalized(Normalized(t)) == Normalized(t)
  {
  }

  /** The defaults the normalisation writes are the values compute_score
      falls back to anyway. */
  lemma NormalizedSameScore(t: TaskDict, batch: seq<TaskDict>, today: int, rt: Runtime)
    ensures ScoreOf(Normalized(t), batch, today, rt) == ScoreOf(t, batch, today, rt)
  {
    var n := Normalized(t);
    assert IsDone(n) == IsDone(t);
    assert DependencyItems(Lookup(n.dependencies)) == DependencyItems(Lookup(t.dependencies));
    assert Importance(n) == Importance(t);
    assert Estimated(n) == Estimated(t);
    assert n.dueDate == t.dueDate;
    assert ScoreOverflows(n) == ScoreOverflows(t);
    forall deps: seq<Json> ensures RawScore(n, deps, batch, today, rt) == RawScore(t, deps, batch, today, rt) {
    }
  }

  lemma NormalizedSameDoneTitle(u: TaskDict, rt: Runtime)
    ensures IsDone(Normalized(u)) == IsDone(u)
    ensures TitleKey(Normalized(u), rt) == TitleKey(u, rt)
  {
    assert Normalized(u).title == u.title && Normalized(u).done == u.done;
  }

  lemma NormalizedDoneTitlesCovered(batch: seq<TaskDict>, rt: Runtime)
    ensures DoneTitles(batch, rt) <= DoneTitles(NormalizeAll(batch), rt)
  {
    var all := NormalizeAll(batch);
    forall s | s in DoneTitles(batch, rt) ensures s in DoneTitles(all, rt) {
      var u :| u in batch && IsDone(u) && TitleKey(u, rt) == s;
      var i :| 0 <= i < |batch| && batch[i] == u;
      var n := all[i];
      NormalizedSameDoneTitle(u, rt);
      assert n in all;
    }
  }

  lemma NormalizedDoneTitlesFrom(batch: seq<TaskDict>, rt: Runtime)
    ensures DoneTitles(NormalizeAll(batch), rt) <= DoneTitles(batch, rt)
  {
    var all := NormalizeAll(batch);
    forall s | s in DoneTitles(all, rt) ensures s in DoneTitles(batch, rt) {
      var n :| n in all && IsDone(n) && TitleKey(n, rt) == s;
      var i :| 0 <= i < |all| && all[i] == n;
      var u := batch[i];
      assert n == Normalized(u);
      NormalizedSameDoneTitle(u, rt);
      assert u in batch;
    }
  }

  /** The normalisation changes no score: it writes the defaults
      compute_score falls back to, and it leaves titles and `done`, which
      the dependency lookups read, unchanged. */
  lemma NormalizeKeepsScore(t: TaskDict, batch: seq<TaskDict>, today: int, rt: Runtime)
    ensures ScoreOf(Normalized(t), NormalizeAll(batch), today, rt) == ScoreOf(t, batch, today, rt)
  {
    NormalizedSameScore(t, NormalizeAll(batch), today, rt);
    NormalizedDoneTitlesCovered(batch, rt);
    NormalizedDoneTitlesFrom(batch, rt);
    ScoreDependsOnlyOnDoneTitles(t, NormalizeAll(batch), batch, today, rt);
  }

  // ---------------------------------------------------------------------
  // The ordering test of tasks/tests.py.

  /** Task A of that test: importance 10, 5 hours, no due date. */
  function ExampleA(): TaskDict {
    TaskDict(Some(JStr("A")), Some(JNull), Some(JInt(10)), Some(JInt(5)), Some(JList([])), Some(JBool(false)))
  }

  /** Task B of that test: importance 1, 1 hour, no due date. */
  function ExampleB(): TaskDict {
    TaskDict(Some(JStr("B")), Some(JNull), Some(JInt(1)), Some(JInt(1)), Some(JList([])), Some(JBool(false)))
  }

  lemma ExampleScores(today: int, rt: Runtime)
    ensures var ab := [ExampleA(), ExampleB()];
            ScoreAll(ab, ab, today, rt) == Some([ScoredTask(ExampleA(), 27.5), ScoredTask(ExampleB(), 8.0)])
  {
    var a, b := ExampleA(), ExampleB();
    var ab := [a, b];
    var xa, xb := ScoredTask(a, 27.5), ScoredTask(b, 8.0);
    assert ScoreOf(a, ab, today, rt) == Some(27.5) by {
      assert UnmetCount([], ab, rt) == 0;
      Round3OfHalfPoint(55);
    }
    assert ScoreOf(b, ab, today, rt) == Some(8.0) by {
      assert UnmetCount([], ab, rt) == 0;
      Round3OfHalfPoint(16);
    }
    assert ab[..1] == [a] && [a][..0] == [];
    assert ScoreAll([], ab, today, rt) == Some([]);
    assert [] + [xa] == [xa] && [xa] + [xb] == [xa, xb];
    assert ScoreAll([a], ab, today, rt) == Some([xa]);
  }

  lemma ExampleKeys(rt: Runtime)
    ensures var xa, xb := ScoredTask(ExampleA(), 27.5), ScoredTask(ExampleB(), 8.0);
            KeyAll([xa, xb], rt) == Some([Entry(SortKey(27.5, 10, None), xa), Entry(SortKey(8.0, 1, None), xb)])
  {
    var xa, xb := ScoredTask(ExampleA(), 27.5), ScoredTask(ExampleB(), 8.0);
    var ea, eb := Entry(SortKey(27.5, 10, None), xa), Entry(SortKey(8.0, 1, None), xb);
    assert KeyOf(xa, rt) == Some(ea.key);
    assert KeyOf(xb, rt) == Some(eb.key);
    assert [xa, xb][..1] == [xa] && [xa][..0] == [];
    assert KeyAll([], rt) == Some([]);
    assert [] + [ea] == [ea] && [ea] + [eb] == [ea, eb];
    assert KeyAll([xa], rt) == Some([ea]);
  }

  lemma ExampleNormalized()
    ensures NormalizeAll([ExampleA(), ExampleB()]) == [ExampleA(), ExampleB()]
  {
    var ab := [ExampleA(), ExampleB()];
    assert ab[..1] == [ExampleA()] && [ExampleA()][..0] == [];
  }

  lemma ExampleSorted()
    ensures var xa, xb := ScoredTask(ExampleA(), 27.5), ScoredTask(ExampleB(), 8.0);
            Items(InsertionSort([Entry(SortKey(27.5, 10, None), xa), Entry(SortKey(8.0, 1, None), xb)])) == [xa, xb]
  {
    var xa, xb := ScoredTask(ExampleA(), 27.5), ScoredTask(ExampleB(), 8.0);
    var ea, eb := Entry(SortKey(27.5, 10, None), xa), Entry(SortKey(8.0, 1, None), xb);
    assert [ea, eb][..1] == [ea] && [ea][..0] == [];
    assert InsertionSort([ea]) == [ea];
    assert InsertionSort([ea, eb]) == [ea, eb];
    assert [ea, eb][..1] == [ea];
  }

  /** A (importance 10, 5 hours) scores 30 - 2.5 = 27.5 and B (importance 1,
      1 hour) scores 3 + 5 = 8, so A comes first. */
  lemma TaskAComesBeforeB(today: int, rt: Runtime)
    ensures Analyze([ExampleA(), ExampleB()], today, rt)
            == Some([ScoredTask(ExampleA(), 27.5), ScoredTask(ExampleB(), 8.0)])
  {
    ExampleNormalized();
    ExampleScores(today, rt);
    ExampleKeys(rt);
    ExampleSorted();
  }
}
