/** Dependencies that name a task of another project, and the filter that honours them
    (internal/graph/cross.go). */
module CrossGraph {
  import opened Options
  import opened Text
  import opened Tasks
  import opened Ordering
  import opened DepGraphs
  import DagState

  /** Task lookups by project and identifier. */
  type Projects = map<string, map<string, Task>>

  datatype CrossDep = Local(id: string) | Cross(project: string, id: string)

  function ParseCrossDep(dep: string): CrossDep {
    var i := IndexOf(dep, ':');
    if i == |dep| then Local(dep) else Cross(dep[..i], dep[i + 1..])
  }

  /** Splitting undoes joining, for every task identifier and every project without a colon;
      and joining undoes splitting. */
  lemma CrossDepRoundTrip(project: string, id: string, dep: string)
    requires ':' !in project
    ensures ParseCrossDep(project + ":" + id) == Cross(project, id)
    ensures match ParseCrossDep(dep)
            case Local(x) => x == dep && ':' !in dep
            case Cross(p, x) => p + ":" + x == dep && ':' !in p
  {
    var joined := project + ":" + id;
    assert joined == project + (":" + id);
    IndexOfAppend(project, ':', ":" + id);
    assert joined[..|project|] == project && joined[|project| + 1..] == id;
    var i := IndexOf(dep, ':');
    NoneBefore(dep, ':');
    if i < |dep| {
      assert dep == dep[..i] + [dep[i]] + dep[i + 1..];
    } else {
      assert dep[..i] == dep;
    }
  }

  predicate IsCrossDepResolved(g: Option<Projects>, project: string, id: string) {
    g.Some? && project in g.value && id in g.value[project] && IsClosedTask(g.value[project][id].row.status)
  }

  predicate DepResolved(dep: string, local: Option<DepGraph>, cross: Option<Projects>) {
    match ParseCrossDep(dep)
    case Cross(project, id) => IsCrossDepResolved(cross, project, id)
    case Local(_) => local.Some? && ClosedNode(local.value, dep)
  }

  predicate AllDepsClosedCross(task: Task, local: Option<DepGraph>, cross: Option<Projects>) {
    forall d :: d in EffectiveDeps(task, local) ==> DepResolved(d, local, cross)
  }

  predicate SelectedCross(task: Task, local: Option<DepGraph>, cross: Option<Projects>) {
    IsDispatchable(task.row) && !IsContainer(task.row) && AllDepsClosedCross(task, local, cross)
  }

  predicate IsResolving(status: string) {
    TrimSpace(ToLower(status)) in {"closed", "completed", "escalated", "plan_failed", "canceled", "done"}
  }

  /** A dependency with a colon is looked up in the project named before its first colon, and never
      locally; without one it is looked up locally, and never elsewhere. */
  lemma DepResolvedMeans(project: string, id: string, dep: string, local: Option<DepGraph>, cross: Option<Projects>)
    requires ':' !in project && ':' !in dep
    ensures DepResolved(project + ":" + id, local, cross) <==>
      && cross.Some? && project in cross.value && id in cross.value[project]
      && IsResolving(cross.value[project][id].row.status)
    ensures DepResolved(dep, local, cross) <==>
      local.Some? && dep in local.value.nodes && IsResolving(local.value.nodes[dep].row.status)
  {
    CrossDepRoundTrip(project, id, dep);
  }

  method ComputeAllDepsClosedCross(task: Task, local: Option<DepGraph>, cross: Option<Projects>)
    returns (closed: bool)
    ensures closed == AllDepsClosedCross(task, local, cross)
  {
    var ids := EffectiveDeps(task, local);
    for i := 0 to |ids|
      invariant forall j :: 0 <= j < i ==> DepResolved(ids[j], local, cross)
    {
      if !DepResolved(ids[i], local, cross) {
        assert ids[i] in ids;
        return false;
      }
    }
    return true;
  }

  method FilterUnblockedCrossProject(tasks: seq<Task>, local: Option<DepGraph>, cross: Option<Projects>)
    returns (r: seq<Task>)
    ensures IsAnswer(tasks, t => SelectedCross(t, local, cross), r)
  {
    var pick := t => SelectedCross(t, local, cross);
    r := [];
    for i := 0 to |tasks|
      invariant r == Filtered(tasks[..i], pick)
    {
      assert tasks[..i + 1][..i] == tasks[..i];
      if !IsDispatchable(tasks[i].row) || IsContainer(tasks[i].row) {
        continue;
      }
      var closed := ComputeAllDepsClosedCross(tasks[i], local, cross);
      if !closed {
        continue;
      }
      r := r + [tasks[i]];
    }
    assert tasks[..|tasks|] == tasks;
    TaskLessWeakOrder();
    SortSorted(TaskLess, r);
    r := Sort(TaskLess, r);
  }

  lemma SameLocalTest(t: Task, local: Option<DepGraph>, cross: Option<Projects>)
    requires forall d :: d in EffectiveDeps(t, local) ==> ':' !in d
    ensures AllDepsClosed(t, local) == AllDepsClosedCross(t, local, cross)
  {
    forall d | d in EffectiveDeps(t, local) ensures ParseCrossDep(d) == Local(d) {}
    if local.None? && t.dependsOn != [] { assert t.dependsOn[0] in EffectiveDeps(t, local); }
  }

  /** With or without a graph, and whatever the other projects contain, the cross-project filter
      returns the same sequence as the local one on tasks whose dependencies have no colon. */
  lemma LocalDepsSameAnswer(tasks: seq<Task>, local: Option<DepGraph>, cross: Option<Projects>, r: seq<Task>,
      r': seq<Task>)
    requires DagState.DistinctIds(tasks)
    requires forall t, d :: t in tasks && d in EffectiveDeps(t, local) ==> ':' !in d
    requires IsAnswer(tasks, t => Selected(t, local), r)
    requires IsAnswer(tasks, t => SelectedCross(t, local, cross), r')
    ensures r == r'
  {
    forall t | t in tasks ensures Selected(t, local) == SelectedCross(t, local, cross) {
      SameLocalTest(t, local, cross);
    }
    AnswerUnique(tasks, tasks, t => Selected(t, local), t => SelectedCross(t, local, cross), r, r');
  }

  /** Resolving tasks elsewhere, or adding projects, only adds tasks to the answer. */
  lemma CrossMonotone(task: Task, local: Option<DepGraph>, before: Option<Projects>, after: Option<Projects>)
    requires forall p, id :: IsCrossDepResolved(before, p, id) ==> IsCrossDepResolved(after, p, id)
    requires SelectedCross(task, local, before)
    ensures SelectedCross(task, local, after)
  {
    forall d | d in EffectiveDeps(task, local) ensures DepResolved(d, local, after) {
      assert DepResolved(d, local, before);
    }
  }
}
