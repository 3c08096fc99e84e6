/** The task and edge tables as a value, every operation on them as a function, and what all
    runs of those operations keep (internal/graph/dag.go). */
module DagState {
  import opened Options
  import opened Text
  import opened Tasks
  import opened Reachability
  import opened Ordering

  /** The rows of `tasks` by id and the rows of `task_edges` as (from, to) pairs: `from`
      depends on `to`. */
  datatype State = State(tasks: map<string, Row>, edges: Edges)

  const EMPTY := State(map[], {})

  datatype Error =
    | ProjectRequired | IdRequired | AttemptsExhausted | NotFound
    | BadValue | NoRecognizedFields | NotUpdatable | Blocked
    | FromRequired | ToRequired | SelfLoop | CrossProject | WouldCycle

  datatype Outcome<T> = Ok(value: T) | Err(error: Error)

  // ---------------------------------------------------------------- queries

  function Deps(s: State, id: string): set<string> {
    set e | e in s.edges && e.0 == id :: e.1
  }

  function Dependents(s: State, id: string): set<string> {
    set e | e in s.edges && e.1 == id :: e.0
  }

  lemma DepsMembership(s: State, id: string)
    ensures forall d :: d in Deps(s, id) <==> (id, d) in s.edges
    ensures forall d :: d in Dependents(s, id) <==> (d, id) in s.edges
  {
    forall d ensures d in Deps(s, id) <==> (id, d) in s.edges {
      if (id, d) in s.edges { assert (id, d).1 == d; }
    }
    forall d ensures d in Dependents(s, id) <==> (d, id) in s.edges {
      if (d, id) in s.edges { assert (d, id).0 == d; }
    }
  }

  /** The dependency exists and its stored status passes the SQL terminal test. */
  predicate Resolved(s: State, d: string) {
    d in s.tasks && SqlTerminal(s.tasks[d].status)
  }

  /** What readyTransitionCheckSQL looks for: no dependency is missing or unresolved. */
  predicate Unblocked(s: State, id: string) {
    forall d :: d in Deps(s, id) ==> Resolved(s, d)
  }

  /** The WHERE clause of readyNodesSQL.  Its inner join ignores edges to missing tasks. */
  predicate InReadyQuery(s: State, project: string, id: string) {
    && id in s.tasks
    && s.tasks[id].project == project
    && ToLower(s.tasks[id].status) == READY
    && ToLower(s.tasks[id].kind) != "epic" && ToLower(s.tasks[id].kind) != "whale"
    && forall d :: d in Deps(s, id) && d in s.tasks ==> SqlTerminal(s.tasks[d].status)
  }

  function ReadySet(s: State, project: string): set<string> {
    set id | id in s.tasks && InReadyQuery(s, project, id)
  }

  function ProjectSet(s: State, project: string): set<string> {
    set id | id in s.tasks && s.tasks[id].project == project
  }

  /** The tasks a listing asks for: of the project and, if statuses are given, with one of them. */
  function ListedSet(s: State, project: string, statuses: set<string>): set<string> {
    set id | id in ProjectSet(s, project) && (statuses == {} || ToLower(s.tasks[id].status) in statuses)
  }

  function StatusFilters(raw: seq<string>): set<string> {
    set i | 0 <= i < |raw| :: NormalizeStatus(raw[i])
  }

  /** The task is a stored row with its dependencies in some order. */
  ghost predicate Presents(s: State, t: Task) {
    && t.id in s.tasks && t.row == s.tasks[t.id]
    && Distinct(t.dependsOn)
    && forall d :: d in t.dependsOn <==> d in Deps(s, t.id)
  }

  ghost predicate DistinctIds(ts: seq<Task>) {
    forall i, j :: 0 <= i < j < |ts| ==> ts[i].id != ts[j].id
  }

  /** The tasks with the given identifiers, each once, in some order. */
  ghost predicate IsListing(s: State, ids: set<string>, ts: seq<Task>) {
    && DistinctIds(ts)
    && (forall t :: t in ts ==> Presents(s, t) && t.id in ids)
    && (forall id :: id in ids ==> exists t :: t in ts && t.id == id)
  }

  // ---------------------------------------------------------------- creating tasks

  const HEX := "0123456789abcdef"

  function Hex6(n: nat): string {
    [HEX[n / 0x100000 % 16], HEX[n / 0x10000 % 16], HEX[n / 0x1000 % 16],
     HEX[n / 0x100 % 16], HEX[n / 0x10 % 16], HEX[n % 16]]
  }

  function TaskId(project: string, draw: nat): string {
    project + "-" + Hex6(draw)
  }

  /** A generated identifier has no surrounding white space. */
  lemma TaskIdTrimmed(project: string, draw: nat)
    requires project != "" && Trimmed(project)
    ensures TaskId(project, draw) != "" && Trimmed(TaskId(project, draw))
  {
    var id := TaskId(project, draw);
    assert id[|id| - 1] == HEX[draw % 16];
    assert forall i :: 0 <= i < 16 ==> !IsSpace(HEX[i]);
  }

  function StoredRow(row: Row): Row {
    row.(status := NormalizeStatus(row.status), kind := NormalizeType(row.kind), project := TrimSpace(row.project))
  }

  /** The random suffixes drawn for one call, in order; each colliding draw uses up an attempt. */
  function Create(s: State, row: Row, draws: seq<nat>): (State, Outcome<string>) {
    var project := TrimSpace(row.project);
    if project == "" then (s, Err(ProjectRequired))
    else InsertFresh(s, StoredRow(row), project, draws)
  }

  function InsertFresh(s: State, stored: Row, project: string, draws: seq<nat>): (State, Outcome<string>) {
    if draws == [] then (s, Err(AttemptsExhausted))
    else
      var id := TaskId(project, draws[0]);
      if id in s.tasks then InsertFresh(s, stored, project, draws[1..])
      else (s.(tasks := s.tasks[id := stored]), Ok(id))
  }

  // ---------------------------------------------------------------- updating tasks

  datatype Column = Status | Priority | Kind | Labels | Estimate | Project | FreeText(name: string)

  const FREE_TEXT: set<string> :=
    {"title", "description", "assignee", "parent_id", "acceptance", "design", "notes", "error_log"}

  function ParseColumn(rawKey: string): Option<Column> {
    var key := TrimSpace(ToLower(rawKey));
    if key == "status" then Some(Status)
    else if key == "priority" then Some(Priority)
    else if key == "type" then Some(Kind)
    else if key == "labels" then Some(Labels)
    else if key == "estimate_minutes" then Some(Estimate)
    else if key == "project" then Some(Project)
    else if key in FREE_TEXT then Some(FreeText(key))
    else None
  }

  /** A dynamically typed value, seen through the coercions applied to it: its printed text,
      its integer if it is a number, its labels if it is a list of strings. */
  datatype Value = Value(text: string, num: Option<int>, labels: Option<seq<string>>)

  type Fields = map<string, Value>

  /** The column each key names, if any. */
  function Columns(f: Fields): map<string, Option<Column>> {
    map k | k in f :: ParseColumn(k)
  }

  /** No two keys name the same column. */
  predicate DistinctColumns(cols: map<string, Option<Column>>) {
    forall k, l :: k in cols && l in cols && cols[k] == cols[l] && cols[k].Some? ==> k == l
  }

  predicate DistinctKeys(f: Fields) {
    DistinctColumns(Columns(f))
  }

  /** The numeric and list columns received values of the right type. */
  predicate Coercible(a: map<Column, Value>) {
    && (Priority in a ==> a[Priority].num.Some?)
    && (Estimate in a ==> a[Estimate].num.Some?)
    && (Labels in a ==> a[Labels].labels.Some?)
  }

  function Assigned(row: Row, a: map<Column, Value>): Row
    requires Coercible(a)
  {
    Row(
      if Status in a then NormalizeStatus(a[Status].text) else row.status,
      if Priority in a then a[Priority].num.value else row.priority,
      if Kind in a then NormalizeType(a[Kind].text) else row.kind,
      if Labels in a then a[Labels].labels.value else row.labels,
      if Estimate in a then a[Estimate].num.value else row.estimateMinutes,
      if Project in a then a[Project].text else row.project,
      row.texts + map c | c in a && c.FreeText? :: c.name := a[c].text)
  }

  /** The field map after its keys were matched against the updatable columns. */
  datatype Parsed = Parsed(assignments: map<Column, Value>, unrecognized: bool)

  function Parse(f: Fields): Parsed
    requires DistinctKeys(f)
  {
    ParseWith(Columns(f), f)
  }

  function ParseWith(cols: map<string, Option<Column>>, f: Fields): Parsed
    requires cols.Keys == f.Keys && DistinctColumns(cols)
  {
    Parsed(map k | k in cols && cols[k].Some? :: cols[k].value := f[k],
           exists k :: k in cols && cols[k].None?)
  }

  /** The value suits the column it is assigned to. */
  predicate Fits(c: Column, v: Value) {
    (c.Priority? || c.Estimate? ==> v.num.Some?) && (c.Labels? ==> v.labels.Some?)
  }

  /** What one pass over the keys, in any order, has to collect. */
  ghost predicate Gathers(cols: map<string, Option<Column>>, f: Fields, keys: set<string>, p: Parsed)
    requires keys <= cols.Keys == f.Keys
  {
    && (forall c :: c in p.assignments ==> exists k :: k in keys && cols[k] == Some(c))
    && (forall k :: k in keys && cols[k].Some? ==>
        cols[k].value in p.assignments && p.assignments[cols[k].value] == f[k])
    && (p.unrecognized <==> exists k :: k in keys && cols[k].None?)
  }

  lemma GathersAll(cols: map<string, Option<Column>>, f: Fields, p: Parsed)
    requires cols.Keys == f.Keys && DistinctColumns(cols) && Gathers(cols, f, cols.Keys, p)
    ensures p == ParseWith(cols, f)
  {
    assert p.assignments == ParseWith(cols, f).assignments;
  }

  lemma BadValueStops(f: Fields, bad: string)
    requires DistinctKeys(f) && bad in f && ParseColumn(bad).Some? && !Fits(ParseColumn(bad).value, f[bad])
    ensures !Coercible(Parse(f).assignments)
  {
    assert Columns(f)[bad] == ParseColumn(bad);
    assert Parse(f).assignments[ParseColumn(bad).value] == f[bad];
  }

  lemma FittingCoercible(a: map<Column, Value>)
    requires forall c :: c in a ==> Fits(c, a[c])
    ensures Coercible(a)
  {}

  predicate ToReady(a: map<Column, Value>) {
    Status in a && NormalizeStatus(NormalizeStatus(a[Status].text)) == READY
  }

  function Update(s: State, rawId: string, f: Fields): (State, Outcome<()>)
    requires DistinctKeys(f)
  {
    if TrimSpace(rawId) == "" then (s, Err(IdRequired))
    else if f == map[] then (s, Ok(()))
    else Apply(s, TrimSpace(rawId), Parse(f))
  }

  function Apply(s: State, id: string, p: Parsed): (State, Outcome<()>) {
    var a := p.assignments;
    if !Coercible(a) then (s, Err(BadValue))
    else if a == map[] then (s, Err(if id in s.tasks then NoRecognizedFields else NotFound))
    else if p.unrecognized then (s, Err(NotUpdatable))
    else if ToReady(a) && !Unblocked(s, id) then (s, Err(Blocked))
    else if id !in s.tasks then (s, Err(NotFound))
    else (s.(tasks := s.tasks[id := Assigned(s.tasks[id], a)]), Ok(()))
  }

  function StatusField(status: string): (f: Fields)
    ensures DistinctKeys(f)
  {
    map["status" := Value(status, None, None)]
  }

  function WithStatus(s: State, ids: set<string>, status: string): State {
    s.(tasks := map id | id in s.tasks :: if id in ids then s.tasks[id].(status := status) else s.tasks[id])
  }

  lemma WithStatusTwice(s: State, a: set<string>, b: set<string>, status: string)
    ensures WithStatus(WithStatus(s, a, status), b, status) == WithStatus(s, a + b, status)
  {
    assert WithStatus(WithStatus(s, a, status), b, status).tasks == WithStatus(s, a + b, status).tasks;
  }

  lemma ParseOne(key: string, v: Value, c: Column, cols: map<string, Option<Column>>, f: Fields)
    requires cols == map[key := Some(c)] && f == map[key := v]
    ensures ParseWith(cols, f) == Parsed(map[c := v], false)
  {
    assert key in cols;
    assert ParseWith(cols, f).assignments == map[c := v];
  }

  lemma ParseSingleton(key: string, v: Value, c: Column)
    requires ParseColumn(key) == Some(c)
    ensures Parse(map[key := v]) == Parsed(map[c := v], false)
  {
    assert Columns(map[key := v]) == map[key := Some(c)];
    ParseOne(key, v, c, map[key := Some(c)], map[key := v]);
  }

  lemma ParseStatusField(status: string)
    ensures Parse(StatusField(status)) == Parsed(map[Status := Value(status, None, None)], false)
    ensures StatusField(status) != map[]
  {
    assert "status" in StatusField(status);
    ParseSingleton("status", Value(status, None, None), Status);
  }

  /** Setting a stored task's status changes that one field, and is refused exactly when the new
      status is "ready" and a dependency is unresolved. */
  lemma UpdateStatus(s: State, id: string, status: string)
    requires id in s.tasks && id != "" && Trimmed(id) && Normal(status)
    ensures
      Update(s, id, StatusField(status))
      == if status == READY && !Unblocked(s, id) then (s, Err(Blocked)) else (WithStatus(s, {id}, status), Ok(()))
  {
    ParseStatusField(status);
    NormalizeNormal(status);
    TrimSpaceFacts(id);
    ApplyStatus(s, id, status, map[Status := Value(status, None, None)]);
  }

  lemma ApplyStatus(s: State, id: string, status: string, a: map<Column, Value>)
    requires id in s.tasks && NormalizeStatus(status) == status
    requires a == map[Status := Value(status, None, None)]
    ensures
      Apply(s, id, Parsed(a, false))
      == if status == READY && !Unblocked(s, id) then (s, Err(Blocked)) else (WithStatus(s, {id}, status), Ok(()))
  {
    var row := s.tasks[id];
    assert Status in a;
    assert Assigned(row, a).texts == row.texts;
    assert s.tasks[id := row.(status := status)] == WithStatus(s, {id}, status).tasks;
  }

  function Close(s: State, id: string): (State, Outcome<()>) {
    Update(s, id, StatusField(CLOSED))
  }

  // ---------------------------------------------------------------- edges

  ghost function AddEdge(s: State, rawFrom: string, rawTo: string): (State, Outcome<()>) {
    var from, to := TrimSpace(rawFrom), TrimSpace(rawTo);
    if from == "" then (s, Err(FromRequired))
    else if to == "" then (s, Err(ToRequired))
    else if from == to then (s, Err(SelfLoop))
    else if from !in s.tasks || to !in s.tasks then (s, Err(NotFound))
    else if s.tasks[from].project != s.tasks[to].project then (s, Err(CrossProject))
    else if Reaches(s.edges, to, from) then (s, Err(WouldCycle))
    else (s.(edges := s.edges + {(from, to)}), Ok(()))
  }

  function RemoveEdge(s: State, rawFrom: string, rawTo: string): (State, Outcome<()>) {
    var from, to := TrimSpace(rawFrom), TrimSpace(rawTo);
    if from == "" then (s, Err(FromRequired))
    else if to == "" then (s, Err(ToRequired))
    else (s.(edges := s.edges - {(from, to)}), Ok(()))
  }

  // ---------------------------------------------------------------- unblocking dependents

  function TerminalSet(s: State): set<string> {
    set id | id in s.tasks && IsTerminalStatus(s.tasks[id].status)
  }

  /** The direct dependents that are open and whose dependencies all exist and are terminal. */
  predicate Promotable(s: State, completed: string, id: string) {
    && id in Dependents(s, completed)
    && id in s.tasks
    && NormalizeStatus(s.tasks[id].status) == OPEN
    && Deps(s, id) <= TerminalSet(s)
  }

  function PromotableSet(s: State, completed: string): set<string> {
    set id | id in s.tasks && Promotable(s, completed, id)
  }

  function Unblock(s: State, rawCompleted: string): State {
    WithStatus(s, PromotableSet(s, TrimSpace(rawCompleted)), READY)
  }

  // ---------------------------------------------------------------- runs

  datatype Op =
    | CreateOp(row: Row, draws: seq<nat>)
    | UpdateOp(id: string, parsed: Parsed)
    | AddOp(from: string, to: string)
    | RemoveOp(from: string, to: string)
    | UnblockOp(completed: string)

  ghost function Step(s: State, op: Op): State {
    match op
    case CreateOp(row, draws) => Create(s, row, draws).0
    case UpdateOp(id, parsed) => if TrimSpace(id) == "" then s else Apply(s, TrimSpace(id), parsed).0
    case AddOp(from, to) => AddEdge(s, from, to).0
    case RemoveOp(from, to) => RemoveEdge(s, from, to).0
    case UnblockOp(completed) => Unblock(s, completed)
  }

  ghost function Run(s: State, ops: seq<Op>): State
    decreases |ops|
  {
    if ops == [] then s else Run(Step(s, ops[0]), ops[1..])
  }

  /** A field map reaches the tables only through its parsed form. */
  lemma UpdateIsStep(s: State, rawId: string, f: Fields)
    requires DistinctKeys(f)
    ensures Update(s, rawId, f).0 == Step(s, UpdateOp(rawId, Parse(f)))
  {
    if f == map[] { assert Columns(f) == map[]; }
  }

  /** What every reachable state satisfies: identifiers are trimmed and non-empty, statuses and
      types are stored in normal form, edges join existing tasks, and no task depends on itself
      through any chain. */
  ghost predicate Valid(s: State) {
    && (forall id :: id in s.tasks ==> id != "" && Trimmed(id))
    && (forall id :: id in s.tasks ==> Normal(s.tasks[id].status) && Normal(s.tasks[id].kind))
    && (forall e :: e in s.edges ==> e.0 in s.tasks && e.1 in s.tasks)
    && Acyclic(s.edges)
  }

  /** On stored rows the status filter compares normalised statuses. */
  lemma ListedMeans(s: State, project: string, raw: seq<string>, id: string)
    requires Valid(s)
    ensures
      id in ListedSet(s, project, StatusFilters(raw))
      <==> && id in ProjectSet(s, project)
           && (raw == [] || exists i :: 0 <= i < |raw| && NormalizeStatus(raw[i]) == s.tasks[id].status)
  {
    if id in s.tasks { NormalizeNormal(s.tasks[id].status); }
    if raw != [] { assert NormalizeStatus(raw[0]) in StatusFilters(raw); }
  }

  /** Creation adds at most one row, under a fresh and trimmed identifier. */
  lemma {:induction false} InsertFreshShape(s: State, stored: Row, project: string, draws: seq<nat>)
    requires project != "" && Trimmed(project)
    ensures
      var r := InsertFresh(s, stored, project, draws).0;
      r == s || exists id :: id !in s.tasks && id != "" && Trimmed(id) && r == s.(tasks := s.tasks[id := stored])
    decreases |draws|
  {
    if draws != [] {
      TaskIdTrimmed(project, draws[0]);
      InsertFreshShape(s, stored, project, draws[1..]);
    }
  }

  lemma ApplyValid(s: State, id: string, p: Parsed)
    requires Valid(s)
    ensures Valid(Apply(s, id, p).0)
  {
    var a := p.assignments;
    if Status in a { NormalizeNormal(a[Status].text); }
    if Kind in a { NormalizeNormal(a[Kind].text); }
  }

  /** An edge that passes the other checks is refused exactly when it would close a cycle, and
      an accepted edge never does. */
  lemma AddEdgeExact(s: State, rawFrom: string, rawTo: string)
    requires Valid(s)
    ensures Valid(AddEdge(s, rawFrom, rawTo).0)
    ensures
      var from, to, r := TrimSpace(rawFrom), TrimSpace(rawTo), AddEdge(s, rawFrom, rawTo);
      from in s.tasks && to in s.tasks && from != to && s.tasks[from].project == s.tasks[to].project
      ==> (r.1 == Err(WouldCycle) <==> !Acyclic(s.edges + {(from, to)}))
          && (r.1.Ok? <==> Acyclic(s.edges + {(from, to)}))
          && (r.1.Ok? ==> r.0.edges == s.edges + {(from, to)})
  {
    var from, to := TrimSpace(rawFrom), TrimSpace(rawTo);
    NewEdgeClosesCycle(s.edges, from, to);
  }

  /** Creation keeps the tables valid and touches no existing row. */
  lemma CreateKeeps(s: State, row: Row, draws: seq<nat>)
    requires Valid(s)
    ensures
      var t := Create(s, row, draws).0;
      Valid(t) && t.edges == s.edges && forall id :: id in s.tasks ==> id in t.tasks && t.tasks[id] == s.tasks[id]
  {
    var project := TrimSpace(row.project);
    TrimSpaceFacts(row.project);
    NormalizeNormal(row.status);
    NormalizeNormal(row.kind);
    if project != "" {
      InsertFreshShape(s, StoredRow(row), project, draws);
    }
  }

  lemma WithStatusValid(s: State, ids: set<string>, status: string)
    requires Valid(s) && Normal(status)
    ensures Valid(WithStatus(s, ids, status))
  {}

  lemma StepValid(s: State, op: Op)
    requires Valid(s)
    ensures Valid(Step(s, op))
  {
    match op
    case CreateOp(row, draws) => CreateKeeps(s, row, draws);
    case UpdateOp(id, parsed) => ApplyValid(s, TrimSpace(id), parsed);
    case AddOp(from, to) => AddEdgeExact(s, from, to);
    case RemoveOp(from, to) => SubsetAcyclic(RemoveEdge(s, from, to).0.edges, s.edges);
    case UnblockOp(completed) =>
      Literals();
      WithStatusValid(s, PromotableSet(s, TrimSpace(completed)), READY);
  }

  lemma {:induction false} RunKeepsValid(s: State, ops: seq<Op>)
    requires Valid(s)
    ensures Valid(Run(s, ops))
    decreases |ops|
  {
    if ops != [] {
      StepValid(s, ops[0]);
      RunKeepsValid(Step(s, ops[0]), ops[1..]);
    }
  }

  lemma EmptyValid()
    ensures Valid(EMPTY)
  {
    forall x ensures !Reaches(EMPTY.edges, x, x) {
      if Reaches(EMPTY.edges, x, x) { var z := FirstEdge(EMPTY.edges, x, x); }
    }
  }

  /** Every run from the empty tables keeps the dependency relation acyclic, and all the rest
      of `Valid` with it. */
  lemma EveryRunAcyclic(ops: seq<Op>)
    ensures Valid(Run(EMPTY, ops)) && Acyclic(Run(EMPTY, ops).edges)
  {
    EmptyValid();
    RunKeepsValid(EMPTY, ops);
  }

  // ---------------------------------------------------------------- projects

  /** Every edge joins two tasks of one project. */
  ghost predicate SameProject(s: State) {
    forall e :: e in s.edges ==>
      e.0 in s.tasks && e.1 in s.tasks && s.tasks[e.0].project == s.tasks[e.1].project
  }

  /** The operation does not assign the project column. */
  ghost predicate KeepsProjects(op: Op) {
    op.UpdateOp? ==> Project !in op.parsed.assignments
  }

  lemma {:induction false} RunKeepsSameProject(s: State, ops: seq<Op>)
    requires Valid(s) && SameProject(s)
    requires forall i :: 0 <= i < |ops| ==> KeepsProjects(ops[i])
    ensures SameProject(Run(s, ops))
    decreases |ops|
  {
    if ops != [] {
      StepValid(s, ops[0]);
      StepKeepsSameProject(s, ops[0]);
      RunKeepsSameProject(Step(s, ops[0]), ops[1..]);
    }
  }

  lemma ApplyKeepsSameProject(s: State, id: string, p: Parsed)
    requires SameProject(s) && Project !in p.assignments
    ensures SameProject(Apply(s, id, p).0)
  {}

  lemma StepKeepsSameProject(s: State, op: Op)
    requires Valid(s) && SameProject(s) && KeepsProjects(op)
    ensures SameProject(Step(s, op))
  {
    match op
    case CreateOp(row, draws) => CreateKeeps(s, row, draws);
    case UpdateOp(id, parsed) => ApplyKeepsSameProject(s, TrimSpace(id), parsed);
    case AddOp(from, to) =>
    case RemoveOp(from, to) =>
    case UnblockOp(completed) =>
  }

  // ---------------------------------------------------------------- AutoUnblockDependents

  /** Promotion neither resolves nor unresolves any dependency. */
  lemma SameTerminals(s: State, completed: string, done: set<string>)
    requires Valid(s) && done <= PromotableSet(s, completed)
    ensures TerminalSet(WithStatus(s, done, READY)) == TerminalSet(s)
  {
    Literals();
    NormalizeNormal(READY);
    forall id | id in done ensures id !in TerminalSet(s) {}
  }

  /** Promoting some promotable tasks does not block the others. */
  lemma StaysUnblocked(s: State, completed: string, done: set<string>, id: string)
    requires Valid(s) && done <= PromotableSet(s, completed) && id in PromotableSet(s, completed)
    ensures Unblocked(WithStatus(s, done, READY), id)
  {
    var t := WithStatus(s, done, READY);
    SameTerminals(s, completed, done);
    assert Normal(READY) by { Literals(); }
    forall d | d in Deps(t, id) ensures Resolved(t, d) {
      assert d in Deps(s, id) && d in TerminalSet(t);
      TerminalTestsAgree(t.tasks[d].status);
    }
  }

  /** The ready-transition guard lets every promotable task through, also after some of the
      others were promoted. */
  lemma PromotionNeverRefused(s: State, completed: string, done: set<string>, id: string)
    requires Valid(s) && done <= PromotableSet(s, completed) && id in PromotableSet(s, completed)
    ensures Update(WithStatus(s, done, READY), id, StatusField(READY)) == (WithStatus(s, done + {id}, READY), Ok(()))
  {
    var t := WithStatus(s, done, READY);
    StaysUnblocked(s, completed, done, id);
    assert id in t.tasks && id != "" && Trimmed(id);
    assert Normal(READY) by { Literals(); }
    UpdateStatus(t, id, READY);
    WithStatusTwice(s, done, {id}, READY);
  }

  /** After the call nothing is left to promote, and exactly the promotable tasks changed. */
  lemma UnblockSettles(s: State, rawCompleted: string)
    requires Valid(s)
    ensures
      var t, c := Unblock(s, rawCompleted), TrimSpace(rawCompleted);
      && PromotableSet(t, c) == {}
      && Unblock(t, rawCompleted) == t
      && t.tasks.Keys == s.tasks.Keys && t.edges == s.edges
      && forall id :: id in s.tasks ==>
           (t.tasks[id] != s.tasks[id] <==> Promotable(s, c, id))
           && (Promotable(s, c, id) ==> t.tasks[id] == s.tasks[id].(status := READY))
  {
    var t, c := Unblock(s, rawCompleted), TrimSpace(rawCompleted);
    var all := PromotableSet(s, c);
    SameTerminals(s, c, all);
    forall id | id in s.tasks ensures !Promotable(t, c, id) {
      assert Deps(t, id) == Deps(s, id) && Dependents(t, c) == Dependents(s, c);
      if id in all { NormalizeNormal(READY); Literals(); }
    }
    assert PromotableSet(t, c) == {};
    forall id | id in all ensures t.tasks[id] != s.tasks[id] {}
    assert Unblock(t, rawCompleted).tasks == t.tasks;
  }
}
