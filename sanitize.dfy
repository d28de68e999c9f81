// The per-task sanitisation of the request handlers (tasks/views.py): the
// strict loop of analyze_tasks, which collects an error for every item that
// is not an object or whose due date does not parse, and the lenient loop
// of suggest_tasks, which skips what is not an object and checks nothing.

module Sanitize {
  import opened Opt
  import opened Text
  import opened PyValues
  import opened Scoring

  /** `t.get(key)` on a request item that is an object. */
  function Field(members: seq<Member>, key: string): Json {
    Lookup(Get(members, key))
  }

  /** `t.get('title') or f'Untitled {i+1}'`: the title, or a placeholder
      numbering the items from 1. */
  function TitleOf(members: seq<Member>, i: nat): (r: Json)
    ensures Truthy(r)
    ensures Truthy(Field(members, "title")) ==> r == Field(members, "title")
  {
    var t := Field(members, "title");
    if Truthy(t) then t else JStr("Untitled " + Show(i + 1))
  }

  /** `t.get('dependencies') or []`, then a string wrapped in a list and
      anything else that is not a list replaced by []. */
  function DependenciesOf(v: Json): (r: Json)
    ensures r.JList?
  {
    var d := if Truthy(v) then v else JList([]);
    if d.JList? then d else if d.JStr? then JList([d]) else JList([])
  }

  /** `due_date` passes the check of the strict loop: it is falsy, or a
      string `datetime.fromisoformat` accepts (any other type makes it
      raise too). */
  predicate ValidDue(due: Json, rt: Runtime)
    ensures !Truthy(due) ==> ValidDue(due, rt)
    ensures Truthy(due) && !due.JStr? ==> !ValidDue(due, rt)
    ensures due.JStr? && due.s != [] ==> (ValidDue(due, rt) <==> rt.datetimeFromIso(due.s).Some?)
  {
    !Truthy(due) || (due.JStr? && rt.datetimeFromIso(due.s).Some?)
  }

  /** The dict both loops append for the object at index `i`, given the
      `due_date` value to store: a truthy title, the given due date, the
      numeric fields as `int()` reads them with 1 where `int()` raises, a
      list of dependencies and `done` as a bool. */
  function Record(members: seq<Member>, i: nat, due: Json): (r: TaskDict)
    ensures r.title.Some? && Truthy(r.title.value)
    ensures r.dueDate == Some(due)
    ensures var imp := IntOf(Field(members, "importance"));
            r.importance == Some(JInt(if imp.Some? then imp.value else 1))
    ensures var est := IntOf(Field(members, "estimated_hours"));
            r.estimatedHours == Some(JInt(if est.Some? then est.value else 1))
    ensures r.dependencies.Some? && r.dependencies.value.JList?
    ensures r.done == Some(JBool(Truthy(Field(members, "done"))))
  {
    TaskDict(
      Some(TitleOf(members, i)),
      Some(due),
      Some(JInt(SafeInt(Field(members, "importance"), 1))),
      Some(JInt(SafeInt(Field(members, "estimated_hours"), 1))),
      Some(DependenciesOf(Field(members, "dependencies"))),
      Some(JBool(Truthy(Field(members, "done")))))
  }

  function NotObjectError(i: nat): string {
    "Task at index " + Show(i) + " is not an object."
  }

  function DueDateError(title: Json, due: Json): string {
    "Task '" + Str(title) + "': invalid due_date '" + Str(due) + "', expected YYYY-MM-DD."
  }

  /** The item passes the checks of the strict loop: an object whose due
      date is falsy or parses. */
  predicate Acceptable(item: Json, rt: Runtime) {
    item.JObject? && ValidDue(Field(item.members, "due_date"), rt)
  }

  /** What the strict loop appends to `sanitized` for the item at index
      `i`: nothing for a non-object, and the due date dropped when it does
      not parse. */
  function StrictRecord(item: Json, i: nat, rt: Runtime): (r: seq<TaskDict>)
    ensures |r| == if item.JObject? then 1 else 0
  {
    match item
    case JObject(m) =>
      var due := Field(m, "due_date");
      [Record(m, i, if ValidDue(due, rt) then due else JNull)]
    case _ => []
  }

  /** What the strict loop appends to `errors` for the item at index `i`:
      one message for each item it does not accept. */
  function Complaints(item: Json, i: nat, rt: Runtime): (r: seq<string>)
    ensures |r| == if Acceptable(item, rt) then 0 else 1
  {
    match item
    case JObject(m) =>
      var due := Field(m, "due_date");
      if ValidDue(due, rt) then [] else [DueDateError(TitleOf(m, i), due)]
    case _ => [NotObjectError(i)]
  }

  /** What the lenient loop appends for the item at index `i`. */
  function LenientRecord(item: Json, i: nat): (r: seq<TaskDict>)
    ensures |r| == if item.JObject? then 1 else 0
  {
    match item
    case JObject(m) => [Record(m, i, Field(m, "due_date"))]
    case _ => []
  }

  /** What the strict loop has built after the items of `items`: the
      sanitised dicts and the error messages, each in item order. */
  datatype Outcome = Outcome(sanitized: seq<TaskDict>, errors: seq<string>)

  function Strict(items: seq<Json>, rt: Runtime): (r: Outcome)
    ensures |r.sanitized| <= |items| && |r.errors| <= |items|
  {
    if items == [] then Outcome([], [])
    else
      var i := |items| - 1;
      var prev := Strict(items[..i], rt);
      Outcome(prev.sanitized + StrictRecord(items[i], i, rt), prev.errors + Complaints(items[i], i, rt))
  }

  /** What the lenient loop has built after the items of `items`. */
  function Lenient(items: seq<Json>): (r: seq<TaskDict>)
    ensures |r| <= |items|
  {
    if items == [] then []
    else
      var i := |items| - 1;
      Lenient(items[..i]) + LenientRecord(items[i], i)
  }

  /** The coercion of `dependencies` both loops perform. */
  method CoerceDependencies(v: Json) returns (dependencies: Json)
    ensures dependencies == DependenciesOf(v)
  {
    dependencies := v;
    if !Truthy(dependencies) {
      dependencies := JList([]);
    }
    if !dependencies.JList? {
      if dependencies.JStr? {
        dependencies := JList([dependencies]);
      } else {
        dependencies := JList([]);
      }
    }
  }

  /** The due-date check of the strict loop: a due date that does not
      parse is reported and dropped. */
  method CheckDueDate(title: Json, due: Json, rt: Runtime) returns (kept: Json, complaints: seq<string>)
    ensures ValidDue(due, rt) ==> kept == due && complaints == []
    ensures !ValidDue(due, rt) ==> kept == JNull && complaints == [DueDateError(title, due)]
  {
    kept, complaints := due, [];
    if Truthy(kept) {
      if !kept.JStr? || rt.datetimeFromIso(kept.s).None? {
        complaints := [DueDateError(title, kept)];
        kept := JNull;
      }
    }
  }

  /** The loop of analyze_tasks (tasks/views.py:30-66). */
  method SanitizeStrict(items: seq<Json>, rt: Runtime) returns (sanitized: seq<TaskDict>, errors: seq<string>)
    ensures Outcome(sanitized, errors) == Strict(items, rt)
  {
    sanitized, errors := [], [];
    for i := 0 to |items|
      invariant Outcome(sanitized, errors) == Strict(items[..i], rt)
    {
      assert items[..i + 1][..i] == items[..i];
      ghost var before := Outcome(sanitized, errors);
      assert Strict(items[..i + 1], rt)
          == Outcome(before.sanitized + StrictRecord(items[i], i, rt), before.errors + Complaints(items[i], i, rt));
      var t := items[i];
      if !t.JObject? {
        errors := errors + [NotObjectError(i)];
        continue;
      }
      var title := Field(t.members, "title");
      if !Truthy(title) {
        title := JStr("Untitled " + Show(i + 1));
      }
      assert title == TitleOf(t.members, i);
      var importance := SafeInt(Field(t.members, "importance"), 1);
      var estimatedHours := SafeInt(Field(t.members, "estimated_hours"), 1);
      var dueDate, complaints := CheckDueDate(title, Field(t.members, "due_date"), rt);
      errors := errors + complaints;
      var dependencies := CoerceDependencies(Field(t.members, "dependencies"));
      var done := Truthy(Field(t.members, "done"));
      var record := TaskDict(Some(title), Some(dueDate), Some(JInt(importance)),
                             Some(JInt(estimatedHours)), Some(dependencies), Some(JBool(done)));
      assert [record] == StrictRecord(t, i, rt);
      sanitized := sanitized + [record];
    }
    assert items[..|items|] == items;
  }

  /** The loop of suggest_tasks (tasks/views.py:113-135). */
  method SanitizeLenient(items: seq<Json>) returns (sanitized: seq<TaskDict>)
    ensures sanitized == Lenient(items)
  {
    sanitized := [];
    for i := 0 to |items|
      invariant sanitized == Lenient(items[..i])
    {
      assert items[..i + 1][..i] == items[..i];
      var t := items[i];
      if !t.JObject? {
        continue;
      }
      var title := Field(t.members, "title");
      if !Truthy(title) {
        title := JStr("Untitled " + Show(i + 1));
      }
      var importance := SafeInt(Field(t.members, "importance"), 1);
      var estimatedHours := SafeInt(Field(t.members, "estimated_hours"), 1);
      var dueDate := Field(t.members, "due_date");
      var dependencies := CoerceDependencies(Field(t.members, "dependencies"));
      var done := Truthy(Field(t.members, "done"));
      sanitized := sanitized + [TaskDict(Some(title), Some(dueDate), Some(JInt(importance)),
                                         Some(JInt(estimatedHours)), Some(dependencies), Some(JBool(done)))];
    }
    assert items[..|items|] == items;
  }
}
