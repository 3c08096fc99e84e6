/** The dispatchable set computed twice: by the SQL query and by the in-memory filter over the
    listed tasks of a project (internal/graph/dag.go and internal/graph/graph.go). */
module ReadySets {
  import opened Options
  import opened Text
  import opened Tasks
  import opened Ordering
  import opened Reachability
  import opened DagState
  import opened DepGraphs

  /** Identifiers the in-memory filter selects from a listing. */
  ghost function FilterIds(ts: seq<Task>): set<string> {
    Ids(Filtered(ts, t => Selected(t, Some(Graph(ts)))))
  }

  lemma FilterIdsMeans(ts: seq<Task>, id: string)
    ensures id in FilterIds(ts) <==> exists t :: t in ts && t.id == id && Selected(t, Some(Graph(ts)))
  {
    FilteredExact(ts, t => Selected(t, Some(Graph(ts))));
  }

  /** Stored dependency identifiers are already clean. */
  lemma {:induction false} StoredDepsClean(raw: seq<string>)
    requires Distinct(raw) && forall d :: d in raw ==> d != "" && Trimmed(d)
    ensures CleanDeps(raw) == raw
  {
    if raw != [] {
      var init, d := raw[..|raw| - 1], raw[|raw| - 1];
      assert forall x :: x in init ==> x in raw;
      StoredDepsClean(init);
      assert d in raw && d !in init;
      TrimSpaceFacts(d);
    }
  }

  /** A project's listing resolves a dependency exactly when the tables do and the dependency
      belongs to the project. */
  lemma ClosedInListing(s: State, project: string, ts: seq<Task>, d: string)
    requires Valid(s) && IsListing(s, ProjectSet(s, project), ts)
    ensures ClosedIn(ts, d) <==> d in ProjectSet(s, project) && SqlTerminal(s.tasks[d].status)
  {
    if i :| 0 <= i < |ts| && ts[i].id == d && IsClosedTask(ts[i].row.status) {
      assert ts[i] in ts && Presents(s, ts[i]);
      TerminalTestsAgree(s.tasks[d].status);
    }
    if d in ProjectSet(s, project) && SqlTerminal(s.tasks[d].status) {
      var t :| t in ts && t.id == d;
      var i :| 0 <= i < |ts| && ts[i] == t;
      assert Presents(s, t);
      TerminalTestsAgree(s.tasks[d].status);
    }
  }

  lemma StatusTestsAgree(row: Row)
    requires Normal(row.status) && Normal(row.kind)
    ensures IsDispatchable(row) <==> ToLower(row.status) == READY
    ensures IsContainer(row) <==> ToLower(row.kind) == "epic" || ToLower(row.kind) == "whale"
  {
    NormalizeNormal(row.status);
    NormalizeNormal(row.kind);
  }

  lemma SelectedInListing(s: State, project: string, ts: seq<Task>, t: Task)
    requires Valid(s) && IsListing(s, ProjectSet(s, project), ts) && t in ts
    ensures Selected(t, Some(Graph(ts))) <==>
      t.id in ReadySet(s, project) && Deps(s, t.id) <= ProjectSet(s, project)
  {
    assert Presents(s, t) && t.id in ProjectSet(s, project);
    DepsMembership(s, t.id);
    forall d | d in t.dependsOn ensures d in s.tasks && d != "" && Trimmed(d) { assert (t.id, d).1 in s.tasks; }
    StoredDepsClean(t.dependsOn);
    DepsClosedMeans(ts, t);
    StatusTestsAgree(s.tasks[t.id]);
    forall d ensures ClosedIn(ts, d) <==> d in ProjectSet(s, project) && SqlTerminal(s.tasks[d].status) {
      ClosedInListing(s, project, ts, d);
    }
  }

  /** What the filter returns over any listing of the project: the ready query's answer, less the
      tasks with a dependency in another project.  So the two agree exactly when the ready query
      returns no such task. */
  lemma FilterVersusQuery(s: State, project: string, ts: seq<Task>)
    requires Valid(s) && IsListing(s, ProjectSet(s, project), ts)
    ensures FilterIds(ts) == set id | id in ReadySet(s, project) && Deps(s, id) <= ProjectSet(s, project)
    ensures FilterIds(ts) == ReadySet(s, project) <==>
      forall id :: id in ReadySet(s, project) ==> Deps(s, id) <= ProjectSet(s, project)
  {
    var both := set id | id in ReadySet(s, project) && Deps(s, id) <= ProjectSet(s, project);
    forall id ensures id in FilterIds(ts) <==> id in both {
      FilterIdsMeans(ts, id);
      if id in both {
        assert id in ProjectSet(s, project);
        var t :| t in ts && t.id == id;
        SelectedInListing(s, project, ts, t);
      }
      if t :| t in ts && t.id == id && Selected(t, Some(Graph(ts))) {
        SelectedInListing(s, project, ts, t);
      }
    }
    assert FilterIds(ts) == both;
  }

  lemma SameProjectAgree(s: State, project: string, ts: seq<Task>)
    requires Valid(s) && SameProject(s) && IsListing(s, ProjectSet(s, project), ts)
    ensures FilterIds(ts) == ReadySet(s, project)
  {
    FilterVersusQuery(s, project, ts);
    forall id, d | id in ReadySet(s, project) && d in Deps(s, id) ensures d in ProjectSet(s, project) {
      DepsMembership(s, id);
      assert (id, d) in s.edges;
    }
  }

  /** In every state reached by operations that leave the project column alone, the SQL query
      and the in-memory filter return the same tasks, for every project and every listing. */
  lemma ReadySetsAgree(ops: seq<Op>, project: string, ts: seq<Task>)
    requires forall i :: 0 <= i < |ops| ==> KeepsProjects(ops[i])
    requires IsListing(Run(EMPTY, ops), ProjectSet(Run(EMPTY, ops), project), ts)
    ensures FilterIds(ts) == ReadySet(Run(EMPTY, ops), project)
  {
    EmptyValid();
    RunKeepsValid(EMPTY, ops);
    RunKeepsSameProject(EMPTY, ops);
    SameProjectAgree(Run(EMPTY, ops), project, ts);
  }

  /** The update that rewrites one task's project. */
  function Move(s: State, dep: string, moved: Value): State {
    Apply(s, dep, Parsed(map[Project := moved], false)).0
  }

  lemma MoveEffect(s: State, dep: string, moved: Value)
    requires dep in s.tasks
    ensures Move(s, dep, moved) == s.(tasks := s.tasks[dep := s.tasks[dep].(project := moved.text)])
  {
    var a := map[Project := moved];
    assert Project in a;
    assert Assigned(s.tasks[dep], a).texts == s.tasks[dep].texts;
  }

  /** Moving a dependency to another project splits the two: the query still offers the
      dependent, the filter never again selects it. */
  lemma ProjectRewriteSplits(s: State, project: string, id: string, dep: string, moved: Value)
    requires Valid(s) && id in ReadySet(s, project) && dep in Deps(s, id) && moved.text != project
    ensures id in ReadySet(Move(s, dep, moved), project)
    ensures forall ts :: IsListing(Move(s, dep, moved), ProjectSet(Move(s, dep, moved), project), ts) ==>
        id !in FilterIds(ts)
  {
    DepsMembership(s, id);
    assert (id, dep) in s.edges && (id, dep).1 in s.tasks;
    NoSelfDependency(s, id);
    MoveEffect(s, dep, moved);
    MovedOut(s, s.(tasks := s.tasks[dep := s.tasks[dep].(project := moved.text)]), project, id, dep);
  }

  lemma MovedOut(s: State, t: State, project: string, id: string, dep: string)
    requires Valid(s) && id in ReadySet(s, project) && dep in Deps(s, id) && dep in s.tasks && dep != id
    requires dep in t.tasks && t.edges == s.edges && t.tasks == s.tasks[dep := t.tasks[dep]]
    requires t.tasks[dep] == s.tasks[dep].(project := t.tasks[dep].project) && t.tasks[dep].project != project
    ensures id in ReadySet(t, project)
    ensures forall ts :: IsListing(t, ProjectSet(t, project), ts) ==> id !in FilterIds(ts)
  {
    forall ts | IsListing(t, ProjectSet(t, project), ts) ensures id !in FilterIds(ts) {
      FilterVersusQuery(t, project, ts);
      assert Deps(t, id) == Deps(s, id);
    }
  }

  lemma NoSelfDependency(s: State, id: string)
    requires Valid(s)
    ensures (id, id) !in s.edges
  {
    if (id, id) in s.edges { EdgeReaches(s.edges, id, id); }
  }
}
