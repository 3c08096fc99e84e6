/** The DAG object: methods that update the task and edge tables in place, each proved equal
    to the corresponding function of DagState (internal/graph/dag.go). */
module Dag {
  import opened Options
  import opened Text
  import opened Tasks
  import opened Ordering
  import opened Reachability
  import opened DagState

  predicate ByPriority(a: Task, b: Task) {
    if a.row.priority != b.row.priority then a.row.priority < b.row.priority
    else a.row.estimateMinutes < b.row.estimateMinutes
  }

  lemma StrLessWeakOrder()
    ensures WeakOrder(StrLess)
  {
    forall a, b | StrLess(a, b) ensures !StrLess(b, a) { StrLessWeak(a, b, b); }
    forall a, b, c | StrLess(a, c) ensures StrLess(a, b) || StrLess(b, c) { StrLessWeak(a, b, c); }
  }

  class DAG {
    var tasks: map<string, Row>
    var edges: Edges

    ghost function St(): State
      reads this
    {
      State(tasks, edges)
    }

    constructor ()
      ensures St() == EMPTY
    {
      tasks, edges := map[], {};
    }

    /** `draws` are the random suffixes the ten attempts would use. */
    method CreateTask(row: Row, draws: seq<nat>) returns (r: Outcome<string>)
      requires Valid(St()) && |draws| == 10
      modifies this
      ensures (St(), r) == Create(old(St()), row, draws)
      ensures Valid(St())
      ensures r.Ok? ==> r.value !in old(tasks) && tasks == old(tasks)[r.value := StoredRow(row)]
      ensures r.Err? ==> tasks == old(tasks)
      ensures edges == old(edges)
    {
      var project := TrimSpace(row.project);
      if project == "" {
        return Err(ProjectRequired);
      }
      StepValid(St(), CreateOp(row, draws));
      var attempt := 0;
      while attempt < |draws|
        invariant 0 <= attempt <= |draws| && St() == old(St())
        invariant Create(St(), row, draws) == InsertFresh(St(), StoredRow(row), project, draws[attempt..])
      {
        var id := TaskId(project, draws[attempt]);
        if id !in tasks {
          tasks := tasks[id := StoredRow(row)];
          return Ok(id);
        }
        attempt := attempt + 1;
      }
      return Err(AttemptsExhausted);
    }

    method TaskDependencies(id: string) returns (deps: seq<string>)
      ensures Distinct(deps) && forall d :: d in deps <==> d in Deps(St(), id)
    {
      deps := Enumerate(Deps(State(tasks, edges), id));
    }

    method GetTask(rawId: string) returns (r: Outcome<Task>)
      ensures r == Err(IdRequired) <==> TrimSpace(rawId) == ""
      ensures r == Err(NotFound) <==> TrimSpace(rawId) != "" && TrimSpace(rawId) !in tasks
      ensures r.Ok? <==> TrimSpace(rawId) != "" && TrimSpace(rawId) in tasks
      ensures r.Ok? ==> r.value.id == TrimSpace(rawId) && Presents(St(), r.value)
    {
      var id := TrimSpace(rawId);
      if id == "" {
        return Err(IdRequired);
      }
      if id !in tasks {
        return Err(NotFound);
      }
      var deps := TaskDependencies(id);
      return Ok(Task(id, tasks[id], deps));
    }

    method LoadTasks(ids: set<string>) returns (ts: seq<Task>)
      requires ids <= tasks.Keys
      ensures IsListing(St(), ids, ts)
    {
      var order := Enumerate(ids);
      ts := [];
      for i := 0 to |order|
        invariant |ts| == i
        invariant forall j :: 0 <= j < i ==> ts[j].id == order[j] && Presents(St(), ts[j])
      {
        var deps := TaskDependencies(order[i]);
        ts := ts + [Task(order[i], tasks[order[i]], deps)];
      }
      forall id | id in ids ensures exists t :: t in ts && t.id == id {
        var i :| 0 <= i < |order| && order[i] == id;
        assert ts[i] in ts;
      }
    }

    method NormalizeStatusFilters(raw: seq<string>) returns (out: seq<string>)
      ensures Distinct(out) && Sorted(StrLess, out) && forall x :: x in out <==> x in StatusFilters(raw)
    {
      var seen: set<string> := {};
      for i := 0 to |raw|
        invariant seen == StatusFilters(raw[..i])
      {
        assert raw[..i + 1] == raw[..i] + [raw[i]];
        seen := seen + {NormalizeStatus(raw[i])};
      }
      assert raw[..|raw|] == raw;
      var unordered := Enumerate(seen);
      out := Sort(StrLess, unordered);
      StrLessWeakOrder();
      SortSorted(StrLess, unordered);
      PermutationDistinct(unordered, out);
    }

    method ListTasks(rawProject: string, statuses: seq<string>) returns (r: Outcome<seq<Task>>)
      ensures r.Err? <==> TrimSpace(rawProject) == ""
      ensures r.Ok? ==> IsListing(St(), ListedSet(St(), TrimSpace(rawProject), StatusFilters(statuses)), r.value)
    {
      var project := TrimSpace(rawProject);
      if project == "" {
        return Err(ProjectRequired);
      }
      var filters := NormalizeStatusFilters(statuses);
      var wanted := set x | x in filters;
      assert wanted == StatusFilters(statuses);
      var ts := LoadTasks(ListedSet(State(tasks, edges), project, wanted));
      return Ok(ts);
    }

    /** Reads the field map in some order; stops at the first value of the wrong type. */
    method ParseFields(cols: map<string, Option<Column>>, f: Fields) returns (p: Option<Parsed>, ghost bad: string)
      requires cols.Keys == f.Keys && DistinctColumns(cols)
      ensures p.None? ==> bad in cols && cols[bad].Some? && !Fits(cols[bad].value, f[bad])
      ensures p.Some? ==> Gathers(cols, f, cols.Keys, p.value)
      ensures p.Some? ==> forall c :: c in p.value.assignments ==> Fits(c, p.value.assignments[c])
    {
      var acc := Parsed(map[], false);
      var rest := cols.Keys;
      bad := "";
      while rest != {}
        invariant rest <= cols.Keys && Gathers(cols, f, cols.Keys - rest, acc)
        invariant forall c :: c in acc.assignments ==> Fits(c, acc.assignments[c])
      {
        var key :| key in rest;
        ghost var seen := cols.Keys - rest;
        rest := rest - {key};
        assert cols.Keys - rest == seen + {key};
        match cols[key] {
          case None => acc := acc.(unrecognized := true);
          case Some(c) =>
            if !Fits(c, f[key]) {
              bad := key;
              return None, bad;
            }
            acc := acc.(assignments := acc.assignments[c := f[key]]);
        }
      }
      assert cols.Keys - rest == cols.Keys;
      return Some(acc), bad;
    }

    method UpdateTask(rawId: string, fields: Fields) returns (r: Outcome<()>)
      requires Valid(St()) && DistinctKeys(fields)
      modifies this
      ensures (St(), r) == Update(old(St()), rawId, fields)
      ensures Valid(St()) && edges == old(edges) && tasks.Keys == old(tasks).Keys
    {
      var id := TrimSpace(rawId);
      if id == "" {
        return Err(IdRequired);
      }
      if fields == map[] {
        return Ok(());
      }
      var cols := Columns(fields);
      var parsed, bad := ParseFields(cols, fields);
      if parsed.None? {
        BadValueStops(fields, bad);
        return Err(BadValue);
      }
      GathersAll(cols, fields, parsed.value);
      FittingCoercible(parsed.value.assignments);
      r := ApplyParsed(id, parsed.value);
    }

    method ApplyParsed(id: string, p: Parsed) returns (r: Outcome<()>)
      requires Valid(St()) && Coercible(p.assignments)
      modifies this
      ensures (St(), r) == Apply(old(St()), id, p)
      ensures Valid(St()) && edges == old(edges) && tasks.Keys == old(tasks).Keys
    {
      ApplyValid(St(), id, p);
      var a := p.assignments;
      if a == map[] {
        return Err(if id in tasks then NoRecognizedFields else NotFound);
      }
      if p.unrecognized {
        return Err(NotUpdatable);
      }
      if ToReady(a) && !Unblocked(State(tasks, edges), id) {
        return Err(Blocked);
      }
      if id !in tasks {
        return Err(NotFound);
      }
      tasks := tasks[id := Assigned(tasks[id], a)];
      return Ok(());
    }

    method CloseTask(id: string) returns (r: Outcome<()>)
      requires Valid(St())
      modifies this
      ensures (St(), r) == Close(old(St()), id)
      ensures Valid(St())
    {
      r := UpdateTask(id, StatusField(CLOSED));
    }

    /** The recursive query of the cycle check: a queue of rows, no visited set. */
    method ReachesTarget(start: string, target: string) returns (found: bool)
      requires Acyclic(edges)
      ensures found <==> Reaches(edges, start, target)
    {
      ghost var st := St();
      DepsMembership(st, start);
      var queue := TaskDependencies(start);
      if Reaches(edges, start, target) { var z := FirstEdge(edges, start, target); assert z in queue; }
      while queue != []
        invariant forall q :: q in queue ==> Reaches(edges, start, q) || (start, q) in edges
        invariant Reaches(edges, start, target) ==> exists q :: q in queue && ReachesOrSame(edges, q, target)
        decreases SearchWeight(edges, queue)
      {
        var x := queue[0];
        if (start, x) in edges { EdgeReaches(edges, start, x); }
        if x == target {
          return true;
        }
        DepsMembership(st, x);
        var next := TaskDependencies(x);
        NextStillReaches(x, target, next);
        forall q | q in next ensures Reaches(edges, start, q) {
          EdgeReaches(edges, x, q);
          ReachesTransitive(edges, start, x, q);
        }
        SuccessorsFit(x, next);
        SearchProgress(edges, queue, next);
        ghost var before := queue;
        queue := queue[1..] + next;
        if Reaches(edges, start, target) {
          var q :| q in before && ReachesOrSame(edges, q, target);
          if q != x { assert q in queue; }
        }
      }
      return false;
    }

    lemma NextStillReaches(x: string, target: string, next: seq<string>)
      requires x != target && forall d :: d in next <==> (x, d) in edges
      ensures Reaches(edges, x, target) ==> exists q :: q in next && ReachesOrSame(edges, q, target)
    {
      if Reaches(edges, x, target) { var z := FirstEdge(edges, x, target); assert z in next; }
    }

    lemma SuccessorsFit(x: string, next: seq<string>)
      requires Distinct(next) && forall d :: d in next <==> (x, d) in edges
      ensures |next| <= |Targets(edges)|
    {
      forall d | d in next ensures d in Targets(edges) { assert (x, d).1 == d; }
      DistinctFits(next, Targets(edges));
    }

    method AddEdge(rawFrom: string, rawTo: string) returns (r: Outcome<()>)
      requires Valid(St())
      modifies this
      ensures (St(), r) == DagState.AddEdge(old(St()), rawFrom, rawTo)
      ensures Valid(St()) && tasks == old(tasks)
    {
      var from, to := TrimSpace(rawFrom), TrimSpace(rawTo);
      AddEdgeExact(St(), rawFrom, rawTo);
      if from == "" {
        return Err(FromRequired);
      }
      if to == "" {
        return Err(ToRequired);
      }
      if from == to {
        return Err(SelfLoop);
      }
      if from !in tasks || to !in tasks {
        return Err(NotFound);
      }
      if tasks[from].project != tasks[to].project {
        return Err(CrossProject);
      }
      var cycle := ReachesTarget(to, from);
      if cycle {
        return Err(WouldCycle);
      }
      edges := edges + {(from, to)};
      return Ok(());
    }

    method RemoveEdge(rawFrom: string, rawTo: string) returns (r: Outcome<()>)
      requires Valid(St())
      modifies this
      ensures (St(), r) == DagState.RemoveEdge(old(St()), rawFrom, rawTo)
      ensures Valid(St()) && tasks == old(tasks)
    {
      var from, to := TrimSpace(rawFrom), TrimSpace(rawTo);
      if from == "" {
        return Err(FromRequired);
      }
      if to == "" {
        return Err(ToRequired);
      }
      SubsetAcyclic(edges - {(from, to)}, edges);
      edges := edges - {(from, to)};
      return Ok(());
    }

    method GetReadyNodes(rawProject: string) returns (r: Outcome<seq<Task>>)
      ensures r.Err? <==> TrimSpace(rawProject) == ""
      ensures r.Ok? ==> IsListing(St(), ReadySet(St(), TrimSpace(rawProject)), r.value)
      ensures r.Ok? ==> forall i, j :: 0 <= i < j < |r.value| ==>
        var a, b := r.value[i].row, r.value[j].row;
        a.priority < b.priority || (a.priority == b.priority && a.estimateMinutes <= b.estimateMinutes)
    {
      var project := TrimSpace(rawProject);
      if project == "" {
        return Err(ProjectRequired);
      }
      var ts := LoadTasks(ReadySet(State(tasks, edges), project));
      var sorted := Sort(ByPriority, ts);
      SortSorted(ByPriority, ts);
      ListingPermutes(St(), ReadySet(St(), project), ts, sorted);
      return Ok(sorted);
    }

    method GetDependents(rawId: string) returns (r: Outcome<seq<string>>)
      ensures r.Err? <==> TrimSpace(rawId) == ""
      ensures r.Ok? ==> Distinct(r.value) && Sorted(StrLess, r.value)
      ensures r.Ok? ==> forall d :: d in r.value <==> d in Dependents(St(), TrimSpace(rawId))
    {
      var id := TrimSpace(rawId);
      if id == "" {
        return Err(IdRequired);
      }
      var unordered := Enumerate(Dependents(State(tasks, edges), id));
      var sorted := Sort(StrLess, unordered);
      StrLessWeakOrder();
      SortSorted(StrLess, unordered);
      PermutationDistinct(unordered, sorted);
      return Ok(sorted);
    }

    method IsTerminalTask(id: string) returns (done: bool)
      requires Valid(St()) && id in tasks
      ensures done <==> id in TerminalSet(St())
    {
      TrimSpaceFacts(id);
      var req := GetTask(id);
      done := req.Ok? && IsTerminalStatus(req.value.row.status);
    }

    method AllTerminal(deps: seq<string>, ghost terminal: set<string>) returns (allDone: bool)
      requires Valid(St()) && terminal == TerminalSet(St())
      requires forall d :: d in deps ==> d in tasks
      ensures allDone <==> forall d :: d in deps ==> d in terminal
    {
      allDone := true;
      var i := 0;
      while i < |deps| && allDone
        invariant 0 <= i <= |deps|
        invariant allDone ==> forall d :: d in deps[..i] ==> d in terminal
        invariant !allDone ==> exists d :: d in deps && d !in terminal
      {
        assert deps[i] in deps && deps[..i + 1] == deps[..i] + [deps[i]];
        allDone := IsTerminalTask(deps[i]);
        i := i + 1;
      }
      assert allDone ==> deps[..i] == deps;
    }

    /** Promotes exactly the promotable dependents, lists them in identifier order, and leaves
        every other row and all edges alone. */
    method AutoUnblockDependents(completed: string) returns (r: Outcome<seq<string>>)
      requires Valid(St())
      modifies this
      ensures r.Err? <==> TrimSpace(completed) == ""
      ensures r.Err? ==> St() == old(St())
      ensures r.Ok? ==> St() == Unblock(old(St()), completed)
      ensures r.Ok? ==> Distinct(r.value) && Sorted(StrLess, r.value)
      ensures r.Ok? ==> forall d :: d in r.value <==> d in PromotableSet(old(St()), TrimSpace(completed))
      ensures Valid(St())
    {
      var dependents := GetDependents(completed);
      if dependents.Err? {
        return Err(IdRequired);
      }
      var promoted := PromoteEach(TrimSpace(completed), dependents.value);
      ghost var all := PromotableSet(old(St()), TrimSpace(completed));
      KeepMembers(dependents.value, all);
      KeepOrder(StrLess, dependents.value, all);
      return Ok(promoted);
    }

    /** The promotion loop over the dependents in any order. */
    method PromoteEach(completed: string, dependents: seq<string>) returns (promoted: seq<string>)
      requires Valid(St()) && Distinct(dependents)
      requires forall d :: d in dependents <==> d in Dependents(St(), completed)
      modifies this
      ensures St() == WithStatus(old(St()), PromotableSet(old(St()), completed), READY)
      ensures promoted == Keep(dependents, PromotableSet(old(St()), completed))
      ensures Valid(St())
    {
      ghost var s := St();
      ghost var all := PromotableSet(s, completed);
      ghost var done: set<string> := {};
      promoted := [];
      assert WithStatus(s, done, READY).tasks == s.tasks;
      for i := 0 to |dependents|
        invariant Valid(St()) && St() == WithStatus(s, done, READY)
        invariant promoted == Keep(dependents[..i], all)
        invariant done <= all && forall d :: d in done <==> d in dependents[..i] && d in all
      {
        assert dependents[i] !in dependents[..i] && dependents[i] in Dependents(s, completed);
        assert dependents[..i + 1] == dependents[..i] + [dependents[i]];
        var promotes := PromoteOne(s, done, completed, dependents[i]);
        if promotes {
          promoted, done := promoted + [dependents[i]], done + {dependents[i]};
        }
      }
      assert dependents[..|dependents|] == dependents;
      assert done == all;
    }

    method PromoteOne(ghost s: State, ghost done: set<string>, ghost completed: string, id: string)
      returns (promotes: bool)
      requires Valid(s) && Valid(St()) && St() == WithStatus(s, done, READY)
      requires done <= PromotableSet(s, completed) && id !in done
      requires id in Dependents(s, completed)
      modifies this
      ensures promotes <==> id in PromotableSet(s, completed)
      ensures St() == WithStatus(s, if promotes then done + {id} else done, READY)
      ensures Valid(St())
    {
      promotes := IsPromotable(s, done, completed, id);
      if promotes {
        PromotionNeverRefused(s, completed, done, id);
        var updated := UpdateTask(id, StatusField(READY));
        promotes := updated.Ok?;
      }
    }

    /** The per-dependent test of the loop, made on the tables as they are by then. */
    method IsPromotable(ghost s: State, ghost done: set<string>, ghost completed: string, id: string)
      returns (promotes: bool)
      requires Valid(s) && Valid(St()) && St() == WithStatus(s, done, READY)
      requires done <= PromotableSet(s, completed) && id !in done
      requires id in Dependents(s, completed)
      ensures promotes <==> id in PromotableSet(s, completed)
    {
      assert id in tasks by { DepsMembership(s, completed); }
      TrimSpaceFacts(id);
      var task := GetTask(id);
      if task.Err? || NormalizeStatus(task.value.row.status) != OPEN {
        return false;
      }
      DepsMembership(s, id);
      assert Deps(St(), id) == Deps(s, id);
      SameTerminals(s, completed, done);
      promotes := AllTerminal(task.value.dependsOn, TerminalSet(s));
    }
  }

  lemma {:induction false} DistinctFits<T>(s: seq<T>, bound: set<T>)
    requires Distinct(s) && forall x :: x in s ==> x in bound
    ensures |s| <= |bound|
  {
    if s != [] {
      DistinctFits(s[1..], bound - {s[0]});
    }
  }

  /** Reordering a listing gives a listing. */
  lemma ListingPermutes(s: State, ids: set<string>, a: seq<Task>, b: seq<Task>)
    requires IsListing(s, ids, a) && multiset(a) == multiset(b)
    ensures IsListing(s, ids, b)
  {
    PermutationDistinct(a, b);
    forall i, j | 0 <= i < j < |b| ensures b[i].id != b[j].id {
      assert b[i] in a && b[j] in a && b[i] != b[j];
    }
  }
}
