/** The in-memory dependency graph and the ready filter over it (internal/graph/graph.go). */
module DepGraphs {
  import opened Options
  import opened Text
  import opened Tasks
  import opened Ordering
  import opened DagState

  datatype DepGraph = DepGraph(
    nodes: map<string, Task>,
    forward: map<string, seq<string>>,
    reverse: map<string, seq<string>>)

  // ---------------------------------------------------------------- building the graph

  /** Dependencies trimmed, blanks dropped, first occurrences kept in order. */
  function CleanDeps(raw: seq<string>): seq<string> {
    if raw == [] then []
    else
      var init, d := CleanDeps(raw[..|raw| - 1]), TrimSpace(raw[|raw| - 1]);
      if d == "" || d in init then init else init + [d]
  }

  /** The position of the first entry that trims to `d`, or the length when there is none. */
  function FirstAt(raw: seq<string>, d: string): nat {
    if raw == [] then 0
    else if TrimSpace(raw[0]) == d then 0
    else 1 + FirstAt(raw[1..], d)
  }

  lemma {:induction false} FirstAtAppend(raw: seq<string>, x: string, d: string)
    ensures FirstAt(raw, d) <= |raw|
    ensures FirstAt(raw, d) < |raw| <==> exists i :: 0 <= i < |raw| && TrimSpace(raw[i]) == d
    ensures FirstAt(raw + [x], d) == if FirstAt(raw, d) < |raw| then FirstAt(raw, d)
        else if TrimSpace(x) == d then |raw| else |raw| + 1
  {
    if raw == [] {
      assert (raw + [x])[1..] == [];
    } else {
      FirstAtAppend(raw[1..], x, d);
      assert (raw + [x])[1..] == raw[1..] + [x];
      if TrimSpace(raw[0]) != d {
        forall i | 0 <= i < |raw| && TrimSpace(raw[i]) == d ensures raw[1..][i - 1] == raw[i] {}
      }
    }
  }

  /** Cleaning drops nothing but blanks and repeats, and keeps the order of first occurrences. */
  lemma {:induction false} CleanDepsExact(raw: seq<string>)
    ensures Distinct(CleanDeps(raw))
    ensures forall d :: d in CleanDeps(raw) <==> d != "" && FirstAt(raw, d) < |raw|
    ensures forall i, j :: 0 <= i < j < |CleanDeps(raw)| ==>
        FirstAt(raw, CleanDeps(raw)[i]) < FirstAt(raw, CleanDeps(raw)[j])
  {
    if raw != [] {
      var init, x := raw[..|raw| - 1], raw[|raw| - 1];
      CleanDepsExact(init);
      assert raw == init + [x];
      forall d ensures d in CleanDeps(raw) <==> d != "" && FirstAt(raw, d) < |raw| { FirstAtAppend(init, x, d); }
      forall i, j | 0 <= i < j < |CleanDeps(raw)|
        ensures FirstAt(raw, CleanDeps(raw)[i]) < FirstAt(raw, CleanDeps(raw)[j])
      {
        FirstAtAppend(init, x, CleanDeps(raw)[i]);
        FirstAtAppend(init, x, CleanDeps(raw)[j]);
        assert CleanDeps(raw)[i] in CleanDeps(init);
      }
    }
  }

  function NodesOf(tasks: seq<Task>): map<string, Task> {
    if tasks == [] then map[]
    else NodesOf(tasks[..|tasks| - 1])[tasks[|tasks| - 1].id := tasks[|tasks| - 1]]
  }

  function ForwardOf(tasks: seq<Task>, id: string): seq<string> {
    if tasks == [] then []
    else
      var t := tasks[|tasks| - 1];
      ForwardOf(tasks[..|tasks| - 1], id) + if t.id == id then CleanDeps(t.dependsOn) else []
  }

  function ReverseOf(tasks: seq<Task>, d: string): seq<string> {
    if tasks == [] then []
    else
      var t := tasks[|tasks| - 1];
      ReverseOf(tasks[..|tasks| - 1], d) + if d in CleanDeps(t.dependsOn) then [t.id] else []
  }

  function Ids(tasks: seq<Task>): set<string> {
    set t | t in tasks :: t.id
  }

  /** Everything that can be looked up in the reverse map: tasks and their dependencies. */
  function Mentioned(tasks: seq<Task>): set<string> {
    if tasks == [] then {}
    else Mentioned(tasks[..|tasks| - 1]) + {tasks[|tasks| - 1].id} + Elements(CleanDeps(tasks[|tasks| - 1].dependsOn))
  }

  function Graph(tasks: seq<Task>): DepGraph {
    DepGraph(NodesOf(tasks),
             map id | id in Ids(tasks) :: ForwardOf(tasks, id),
             map d | d in Mentioned(tasks) :: ReverseOf(tasks, d))
  }

  function At(m: map<string, seq<string>>, k: string): seq<string> {
    if k in m then m[k] else []
  }

  lemma IdsPrefix(tasks: seq<Task>, i: nat)
    requires i < |tasks|
    ensures tasks[..i + 1][..i] == tasks[..i] && tasks[..i + 1][i] == tasks[i]
    ensures Ids(tasks[..i + 1]) == Ids(tasks[..i]) + {tasks[i].id}
  {
    assert tasks[..i + 1] == tasks[..i] + [tasks[i]];
    assert forall x :: x in Ids(tasks[..i + 1]) ==> x in Ids(tasks[..i]) + {tasks[i].id};
    assert tasks[i] in tasks[..i + 1];
    assert forall t :: t in tasks[..i] ==> t in tasks[..i + 1];
  }

  /** The effect of one task on the forward map. */
  ghost predicate ForwardAdds(before: map<string, seq<string>>, after: map<string, seq<string>>, id: string,
      deps: seq<string>) {
    after == before[id := At(before, id) + deps]
  }

  /** The effect of one task on the reverse map. */
  ghost predicate ReverseAdds(before: map<string, seq<string>>, after: map<string, seq<string>>, id: string,
      deps: set<string>) {
    && after.Keys == before.Keys + {id} + deps
    && forall k :: k in after ==> after[k] == At(before, k) + if k in deps then [id] else []
  }

  lemma ForwardAddsOne(before: map<string, seq<string>>, mid: map<string, seq<string>>, id: string,
      deps: seq<string>, dep: string)
    requires ForwardAdds(before, mid, id, deps)
    ensures ForwardAdds(before, mid[id := At(mid, id) + [dep]], id, deps + [dep])
  {
    assert At(mid, id) + [dep] == At(before, id) + (deps + [dep]);
  }

  lemma ReverseAddsOne(before: map<string, seq<string>>, mid: map<string, seq<string>>, id: string,
      deps: set<string>, dep: string)
    requires ReverseAdds(before, mid, id, deps) && dep !in deps
    ensures ReverseAdds(before, mid[dep := At(mid, dep) + [id]], id, deps + {dep})
  {
    assert At(mid, dep) == At(before, dep) by { assert At(before, dep) + [] == At(before, dep); }
  }

  lemma CleanDepsNext(raw: seq<string>, i: nat)
    requires i < |raw|
    ensures
      var before, after, dep := CleanDeps(raw[..i]), CleanDeps(raw[..i + 1]), TrimSpace(raw[i]);
      if dep == "" || dep in Elements(before) then after == before
      else after == before + [dep] && Elements(after) == Elements(before) + {dep}
  {
    assert raw[..i + 1][..i] == raw[..i];
  }

  lemma AddsNothing(forward: map<string, seq<string>>, reverse: map<string, seq<string>>,
      f: map<string, seq<string>>, r: map<string, seq<string>>, id: string)
    requires f == if id in forward then forward else forward[id := []]
    requires r == if id in reverse then reverse else reverse[id := []]
    ensures ForwardAdds(forward, f, id, CleanDeps([])) && ReverseAdds(reverse, r, id, {})
  {
    assert At(forward, id) + CleanDeps([]) == At(forward, id);
  }

  /** Adds one task's dependencies to both maps. */
  method AddDependencies(forward: map<string, seq<string>>, reverse: map<string, seq<string>>, task: Task)
    returns (f: map<string, seq<string>>, r: map<string, seq<string>>)
    ensures ForwardAdds(forward, f, task.id, CleanDeps(task.dependsOn))
    ensures ReverseAdds(reverse, r, task.id, Elements(CleanDeps(task.dependsOn)))
  {
    f := if task.id in forward then forward else forward[task.id := []];
    r := if task.id in reverse then reverse else reverse[task.id := []];
    var raw := task.dependsOn;
    var seen: set<string> := {};
    AddsNothing(forward, reverse, f, r, task.id);
    assert raw[..0] == [];
    for i := 0 to |raw|
      invariant ForwardAdds(forward, f, task.id, CleanDeps(raw[..i]))
      invariant ReverseAdds(reverse, r, task.id, seen)
      invariant seen == Elements(CleanDeps(raw[..i]))
    {
      var dep := TrimSpace(raw[i]);
      CleanDepsNext(raw, i);
      if dep == "" || dep in seen {
        continue;
      }
      ForwardAddsOne(forward, f, task.id, CleanDeps(raw[..i]), dep);
      ReverseAddsOne(reverse, r, task.id, seen, dep);
      seen := seen + {dep};
      f := f[task.id := At(f, task.id) + [dep]];
      r := r[dep := At(r, dep) + [task.id]];
    }
    assert raw[..|raw|] == raw;
  }

  /** The maps hold what the tasks contribute. */
  ghost predicate ForwardFor(tasks: seq<Task>, forward: map<string, seq<string>>) {
    forward.Keys == Ids(tasks) && forall k :: k in forward ==> forward[k] == ForwardOf(tasks, k)
  }

  ghost predicate ReverseFor(tasks: seq<Task>, reverse: map<string, seq<string>>) {
    reverse.Keys == Mentioned(tasks) && forall k :: k in reverse ==> reverse[k] == ReverseOf(tasks, k)
  }

  lemma {:induction false} Unmentioned(tasks: seq<Task>, k: string)
    ensures k !in Ids(tasks) ==> ForwardOf(tasks, k) == []
    ensures k !in Mentioned(tasks) ==> ReverseOf(tasks, k) == []
  {
    if tasks != [] {
      var n := |tasks| - 1;
      IdsPrefix(tasks, n);
      assert tasks[..n + 1] == tasks;
      Unmentioned(tasks[..n], k);
    }
  }

  lemma ForwardNext(tasks: seq<Task>, i: nat, forward: map<string, seq<string>>, f: map<string, seq<string>>)
    requires i < |tasks| && ForwardFor(tasks[..i], forward)
    requires ForwardAdds(forward, f, tasks[i].id, CleanDeps(tasks[i].dependsOn))
    ensures ForwardFor(tasks[..i + 1], f)
  {
    IdsPrefix(tasks, i);
    Unmentioned(tasks[..i], tasks[i].id);
    forall k | k in f ensures f[k] == ForwardOf(tasks[..i + 1], k) {
      if k != tasks[i].id { assert forward[k] == ForwardOf(tasks[..i], k); }
    }
  }

  lemma ReverseNext(tasks: seq<Task>, i: nat, reverse: map<string, seq<string>>, r: map<string, seq<string>>)
    requires i < |tasks| && ReverseFor(tasks[..i], reverse)
    requires ReverseAdds(reverse, r, tasks[i].id, Elements(CleanDeps(tasks[i].dependsOn)))
    ensures ReverseFor(tasks[..i + 1], r)
  {
    IdsPrefix(tasks, i);
    forall k | k in r ensures r[k] == ReverseOf(tasks[..i + 1], k) {
      Unmentioned(tasks[..i], k);
      ReverseOfNext(tasks, i, k);
      assert At(reverse, k) == ReverseOf(tasks[..i], k);
    }
  }

  lemma ReverseOfNext(tasks: seq<Task>, i: nat, d: string)
    requires i < |tasks|
    ensures ReverseOf(tasks[..i + 1], d)
            == ReverseOf(tasks[..i], d) + if d in Elements(CleanDeps(tasks[i].dependsOn)) then [tasks[i].id] else []
  {
    assert tasks[..i + 1][..i] == tasks[..i];
  }

  method CollectNodes(tasks: seq<Task>) returns (nodes: map<string, Task>)
    ensures nodes == NodesOf(tasks)
  {
    nodes := map[];
    for i := 0 to |tasks|
      invariant nodes == NodesOf(tasks[..i])
    {
      assert tasks[..i + 1][..i] == tasks[..i];
      nodes := nodes[tasks[i].id := tasks[i]];
    }
    assert tasks[..|tasks|] == tasks;
  }

  method BuildDepGraph(tasks: seq<Task>) returns (g: DepGraph)
    ensures g == Graph(tasks)
  {
    var nodes := CollectNodes(tasks);
    var forward: map<string, seq<string>>, reverse: map<string, seq<string>> := map[], map[];
    for i := 0 to |tasks|
      invariant ForwardFor(tasks[..i], forward) && ReverseFor(tasks[..i], reverse)
    {
      var f, r := AddDependencies(forward, reverse, tasks[i]);
      ForwardNext(tasks, i, forward, f);
      ReverseNext(tasks, i, reverse, r);
      forward, reverse := f, r;
    }
    assert tasks[..|tasks|] == tasks;
    g := DepGraph(nodes, forward, reverse);
    MapsComplete(tasks, forward, reverse);
  }

  lemma MapsComplete(tasks: seq<Task>, forward: map<string, seq<string>>, reverse: map<string, seq<string>>)
    requires ForwardFor(tasks, forward) && ReverseFor(tasks, reverse)
    ensures forward == Graph(tasks).forward && reverse == Graph(tasks).reverse
  {}

  // ---------------------------------------------------------------- what the graph means

  lemma {:induction false} NodesExact(tasks: seq<Task>)
    ensures NodesOf(tasks).Keys == Ids(tasks)
    ensures forall id :: id in NodesOf(tasks) ==> NodesOf(tasks)[id] in tasks && NodesOf(tasks)[id].id == id
    ensures DistinctIds(tasks) ==> forall t :: t in tasks ==> t.id in NodesOf(tasks) && NodesOf(tasks)[t.id] == t
  {
    if tasks != [] {
      var n := |tasks| - 1;
      NodesExact(tasks[..n]);
      IdsPrefix(tasks, n);
      assert tasks[..n + 1] == tasks;
      assert tasks == tasks[..n] + [tasks[n]];
    }
  }

  lemma {:induction false} ForwardMissing(tasks: seq<Task>, id: string)
    requires forall t :: t in tasks ==> t.id != id
    ensures ForwardOf(tasks, id) == []
  {
    if tasks != [] { ForwardMissing(tasks[..|tasks| - 1], id); }
  }

  /** With distinct identifiers a task's forward entry is exactly its cleaned dependencies. */
  lemma {:induction false} ForwardExact(tasks: seq<Task>, t: Task)
    requires DistinctIds(tasks) && t in tasks
    ensures ForwardOf(tasks, t.id) == CleanDeps(t.dependsOn)
  {
    var n := |tasks| - 1;
    assert tasks == tasks[..n] + [tasks[n]];
    if t in tasks[..n] {
      ForwardExact(tasks[..n], t);
    } else {
      ForwardMissing(tasks[..n], t.id);
    }
  }

  lemma {:induction false} ReverseExact(tasks: seq<Task>, d: string)
    requires DistinctIds(tasks)
    ensures Distinct(ReverseOf(tasks, d))
    ensures forall x :: x in ReverseOf(tasks, d) <==>
        exists t :: t in tasks && t.id == x && d in CleanDeps(t.dependsOn)
  {
    if tasks != [] {
      var n := |tasks| - 1;
      var rest := ReverseOf(tasks[..n], d);
      ReverseExact(tasks[..n], d);
      assert tasks == tasks[..n] + [tasks[n]];
      forall x | x in rest ensures x != tasks[n].id {
        var t :| t in tasks[..n] && t.id == x && d in CleanDeps(t.dependsOn);
      }
      assert forall i :: 0 <= i < |rest| ==> rest[i] in rest;
      assert tasks[n] in tasks;
    }
  }

  lemma {:induction false} MentionedExact(tasks: seq<Task>)
    ensures Ids(tasks) <= Mentioned(tasks)
    ensures forall d :: d in Mentioned(tasks) <==>
        d in Ids(tasks) || exists t :: t in tasks && d in CleanDeps(t.dependsOn)
  {
    if tasks != [] {
      var n := |tasks| - 1;
      MentionedExact(tasks[..n]);
      IdsPrefix(tasks, n);
      assert tasks[..n + 1] == tasks && tasks == tasks[..n] + [tasks[n]];
    }
  }

  /** The two maps are inverse to each other, hold every pair once, and the forward map keeps
      the cleaned dependency list of each task, also for dependencies that are not nodes. */
  lemma InverseMaps(tasks: seq<Task>, t: Task, d: string)
    requires DistinctIds(tasks) && t in tasks
    ensures t.id in Graph(tasks).forward && Graph(tasks).forward[t.id] == CleanDeps(t.dependsOn)
    ensures d in Graph(tasks).forward[t.id] <==> d in Graph(tasks).reverse && t.id in Graph(tasks).reverse[d]
    ensures Distinct(Graph(tasks).forward[t.id])
    ensures d in Graph(tasks).reverse ==> Distinct(Graph(tasks).reverse[d])
  {
    ForwardExact(tasks, t);
    CleanDepsExact(t.dependsOn);
    ReverseHolds(tasks, t, d);
  }

  lemma ReverseHolds(tasks: seq<Task>, t: Task, d: string)
    requires DistinctIds(tasks) && t in tasks
    ensures d in CleanDeps(t.dependsOn) <==> d in Graph(tasks).reverse && t.id in Graph(tasks).reverse[d]
    ensures d in Graph(tasks).reverse ==> Distinct(Graph(tasks).reverse[d])
  {
    ReverseExact(tasks, d);
    MentionedExact(tasks);
    if x :| x in tasks && x.id == t.id && d in CleanDeps(x.dependsOn) { assert x == t; }
  }

  // ---------------------------------------------------------------- the ready filter

  /** The dependency list consulted for a task: the graph's if the task is a node. */
  function EffectiveDeps(task: Task, g: Option<DepGraph>): seq<string> {
    if g.Some? && task.id in g.value.nodes then At(g.value.forward, task.id) else task.dependsOn
  }

  predicate ClosedNode(g: DepGraph, d: string) {
    d in g.nodes && IsClosedTask(g.nodes[d].row.status)
  }

  predicate AllDepsClosed(task: Task, g: Option<DepGraph>) {
    if g.None? then task.dependsOn == []
    else forall d :: d in EffectiveDeps(task, g) ==> ClosedNode(g.value, d)
  }

  predicate Selected(task: Task, g: Option<DepGraph>) {
    IsDispatchable(task.row) && !IsContainer(task.row) && AllDepsClosed(task, g)
  }

  function Filtered(tasks: seq<Task>, pick: Task -> bool): seq<Task> {
    if tasks == [] then []
    else Filtered(tasks[..|tasks| - 1], pick) + if pick(tasks[|tasks| - 1]) then [tasks[|tasks| - 1]] else []
  }

  /** Stage-labelled first, then priority, estimate and identifier. */
  predicate TaskLess(a: Task, b: Task) {
    if HasStageLabel(a.row) != HasStageLabel(b.row) then HasStageLabel(a.row)
    else if a.row.priority != b.row.priority then a.row.priority < b.row.priority
    else if a.row.estimateMinutes != b.row.estimateMinutes then a.row.estimateMinutes < b.row.estimateMinutes
    else StrLess(a.id, b.id)
  }

  lemma TaskLessWeakOrder()
    ensures WeakOrder(TaskLess)
  {
    forall a, b | TaskLess(a, b) ensures !TaskLess(b, a) { StrLessWeak(a.id, b.id, a.id); }
    forall a, b, c | TaskLess(a, c) ensures TaskLess(a, b) || TaskLess(b, c) { StrLessWeak(a.id, b.id, c.id); }
  }

  /** What a correct sort of the selected tasks may return. */
  ghost predicate IsAnswer(tasks: seq<Task>, pick: Task -> bool, r: seq<Task>) {
    multiset(r) == multiset(Filtered(tasks, pick)) && Sorted(TaskLess, r)
  }

  /** Tasks with a stage label come first; among equals the lower priority number, then the shorter
      estimate, then the smaller identifier. */
  lemma AnswerOrder(tasks: seq<Task>, pick: Task -> bool, r: seq<Task>, i: nat, j: nat, staged: Task -> bool)
    requires IsAnswer(tasks, pick, r) && i < j < |r|
    requires forall t :: staged(t) <==> exists l <- t.row.labels :: "stage:" <= l
    ensures
      var a, b := r[i], r[j];
      || (staged(a) && !staged(b))
      || (staged(a) == staged(b)
          && (|| a.row.priority < b.row.priority
              || (a.row.priority == b.row.priority
                  && (|| a.row.estimateMinutes < b.row.estimateMinutes
                      || (a.row.estimateMinutes == b.row.estimateMinutes && !StrLess(b.id, a.id))))))
  {
    StagedMeans(r[i].row);
    StagedMeans(r[j].row);
    assert !TaskLess(r[j], r[i]);
  }

  lemma StagedMeans(row: Row)
    ensures HasStageLabel(row) <==> exists l <- row.labels :: "stage:" <= l
  {
    if i :| 0 <= i < |row.labels| && HasPrefix(row.labels[i], "stage:") { assert row.labels[i] in row.labels; }
    if l :| l in row.labels && "stage:" <= l { assert exists i :: 0 <= i < |row.labels| && row.labels[i] == l; }
  }

  method ComputeAllDepsClosed(task: Task, g: Option<DepGraph>) returns (closed: bool)
    ensures closed == AllDepsClosed(task, g)
  {
    if g.None? {
      return |task.dependsOn| == 0;
    }
    var ids := EffectiveDeps(task, g);
    for i := 0 to |ids|
      invariant forall j :: 0 <= j < i ==> ClosedNode(g.value, ids[j])
    {
      if !ClosedNode(g.value, ids[i]) {
        assert ids[i] in ids;
        return false;
      }
    }
    return true;
  }

  method FilterUnblockedOpen(tasks: seq<Task>, g: Option<DepGraph>) returns (r: seq<Task>)
    ensures IsAnswer(tasks, t => Selected(t, g), r)
  {
    var pick := t => Selected(t, g);
    r := [];
    for i := 0 to |tasks|
      invariant r == Filtered(tasks[..i], pick)
    {
      assert tasks[..i + 1][..i] == tasks[..i];
      if !IsDispatchable(tasks[i].row) || IsContainer(tasks[i].row) {
        continue;
      }
      var closed := ComputeAllDepsClosed(tasks[i], g);
      if !closed {
        continue;
      }
      r := r + [tasks[i]];
    }
    assert tasks[..|tasks|] == tasks;
    TaskLessWeakOrder();
    SortSorted(TaskLess, r);
    r := Sort(TaskLess, r);
  }

  // ---------------------------------------------------------------- determinism

  lemma {:induction false} FilteredExact(tasks: seq<Task>, pick: Task -> bool)
    ensures forall t :: t in Filtered(tasks, pick) <==> t in tasks && pick(t)
    ensures DistinctIds(tasks) ==> DistinctIds(Filtered(tasks, pick)) && Distinct(Filtered(tasks, pick))
  {
    if tasks != [] {
      var n := |tasks| - 1;
      FilteredExact(tasks[..n], pick);
      assert tasks == tasks[..n] + [tasks[n]];
      var rest := Filtered(tasks[..n], pick);
      if DistinctIds(tasks) {
        forall i | 0 <= i < |rest| ensures rest[i].id != tasks[n].id {
          assert rest[i] in rest && rest[i] in tasks[..n];
        }
      }
    }
  }

  /** Inputs that are permutations of each other, filtered by tests that agree on them, have
      one and the same answer, whatever the sorting algorithm. */
  lemma AnswerUnique(tasks: seq<Task>, other: seq<Task>, pick: Task -> bool, pick': Task -> bool, r: seq<Task>,
      r': seq<Task>)
    requires DistinctIds(tasks) && multiset(tasks) == multiset(other)
    requires forall t :: t in tasks ==> pick(t) == pick'(t)
    requires IsAnswer(tasks, pick, r) && IsAnswer(other, pick', r')
    ensures r == r'
  {
    PermutedDistinctIds(tasks, other);
    FilteredExact(tasks, pick);
    FilteredExact(other, pick');
    var a, b := Filtered(tasks, pick), Filtered(other, pick');
    forall t ensures t in a <==> t in b {
      assert t in tasks <==> t in multiset(tasks);
      assert t in other <==> t in multiset(other);
    }
    DistinctSameElements(a, b);
    TaskLessWeakOrder();
    forall x, y | x in r && y in r && x != y ensures TaskLess(x, y) || TaskLess(y, x) {
      assert x in multiset(a) && y in multiset(a);
      StrLessTotal(x.id, y.id);
    }
    SortedUnique(TaskLess, r, r');
  }

  lemma PermutedDistinctIds(a: seq<Task>, b: seq<Task>)
    requires DistinctIds(a) && multiset(a) == multiset(b)
    ensures DistinctIds(b)
  {
    forall i, j | 0 <= i < j < |b| ensures b[i].id != b[j].id {
      assert b[i] in multiset(a) && b[j] in multiset(a);
      assert b == b[..i] + [b[i]] + b[i + 1..j] + [b[j]] + b[j + 1..];
      if b[i] == b[j] { assert multiset(b)[b[i]] >= 2; }
      DistinctCount(a, b[i]);
    }
  }

  /** The answer over a graph built from the same tasks does not depend on the order in which
      the tasks are listed. */
  lemma FilterIgnoresOrder(tasks: seq<Task>, other: seq<Task>, r: seq<Task>, r': seq<Task>)
    requires DistinctIds(tasks) && multiset(tasks) == multiset(other)
    requires IsAnswer(tasks, t => Selected(t, Some(Graph(tasks))), r)
    requires IsAnswer(other, t => Selected(t, Some(Graph(other))), r')
    ensures r == r'
    ensures forall i, j :: 0 <= i < j < |r| ==> TaskLess(r[i], r[j])
  {
    var g, h := Graph(tasks), Graph(other);
    PermutedDistinctIds(tasks, other);
    forall t | t in tasks ensures Selected(t, Some(g)) == Selected(t, Some(h)) {
      SameSelection(tasks, other, t);
    }
    AnswerUnique(tasks, other, t => Selected(t, Some(g)), t => Selected(t, Some(h)), r, r');
    var a := Filtered(tasks, t => Selected(t, Some(g)));
    FilteredExact(tasks, t => Selected(t, Some(g)));
    PermutedDistinctIds(a, r);
    forall i, j | 0 <= i < j < |r| ensures TaskLess(r[i], r[j]) { StrLessTotal(r[i].id, r[j].id); }
  }

  predicate ClosedIn(tasks: seq<Task>, d: string) {
    exists i :: 0 <= i < |tasks| && tasks[i].id == d && IsClosedTask(tasks[i].row.status)
  }

  /** Over the graph of its own list, a task's dependencies are closed when each of them names a
      closed task of the list. */
  lemma DepsClosedMeans(tasks: seq<Task>, t: Task)
    requires DistinctIds(tasks) && t in tasks
    ensures AllDepsClosed(t, Some(Graph(tasks))) <==> forall d :: d in CleanDeps(t.dependsOn) ==> ClosedIn(tasks, d)
  {
    NodesExact(tasks);
    ForwardExact(tasks, t);
    assert t.id in Ids(tasks);
    forall d ensures ClosedNode(Graph(tasks), d) <==> ClosedIn(tasks, d) { ClosedNodeMeans(tasks, d); }
  }

  /** A task that is not in the list is judged by its own dependencies, as they are written. */
  lemma OutsiderMeans(tasks: seq<Task>, t: Task)
    requires DistinctIds(tasks) && t.id !in Ids(tasks)
    ensures AllDepsClosed(t, Some(Graph(tasks))) <==> forall d :: d in t.dependsOn ==> ClosedIn(tasks, d)
  {
    NodesExact(tasks);
    forall d ensures ClosedNode(Graph(tasks), d) <==> ClosedIn(tasks, d) { ClosedNodeMeans(tasks, d); }
  }

  lemma ClosedNodeMeans(tasks: seq<Task>, d: string)
    requires DistinctIds(tasks)
    ensures ClosedNode(Graph(tasks), d) <==> ClosedIn(tasks, d)
  {
    NodesExact(tasks);
    if d in NodesOf(tasks) { assert NodesOf(tasks)[d] in tasks; }
    if i :| 0 <= i < |tasks| && tasks[i].id == d && IsClosedTask(tasks[i].row.status) {
      assert tasks[i] in tasks;
    }
  }

  lemma SameSelection(tasks: seq<Task>, other: seq<Task>, t: Task)
    requires DistinctIds(tasks) && DistinctIds(other) && multiset(tasks) == multiset(other) && t in tasks
    ensures Selected(t, Some(Graph(tasks))) == Selected(t, Some(Graph(other)))
  {
    forall x ensures x in tasks <==> x in other { assert x in tasks <==> x in multiset(other); }
    DepsClosedMeans(tasks, t);
    DepsClosedMeans(other, t);
    forall d ensures ClosedIn(tasks, d) == ClosedIn(other, d) {
      if i :| 0 <= i < |tasks| && tasks[i].id == d && IsClosedTask(tasks[i].row.status) { assert tasks[i] in other; }
      if i :| 0 <= i < |other| && other[i].id == d && IsClosedTask(other[i].row.status) { assert other[i] in tasks; }
    }
  }

  // ---------------------------------------------------------------- monotonicity

  function Resolve(tasks: seq<Task>, id: string, status: string): (r: seq<Task>)
    ensures |r| == |tasks|
    ensures forall i :: 0 <= i < |tasks| ==> r[i] == Resolved(tasks[i], id, status)
  {
    seq(|tasks|, i requires 0 <= i < |tasks| => Resolved(tasks[i], id, status))
  }

  function Resolved(t: Task, id: string, status: string): Task {
    if t.id == id then t.(row := t.row.(status := status)) else t
  }

  /** Moving a task to a terminal status removes no other task from the answer. */
  lemma ResolvingOnlyUnblocks(tasks: seq<Task>, id: string, status: string, t: Task)
    requires DistinctIds(tasks) && IsClosedTask(status) && t in tasks && t.id != id
    requires Selected(t, Some(Graph(tasks)))
    ensures t in Resolve(tasks, id, status) && Selected(t, Some(Graph(Resolve(tasks, id, status))))
  {
    var later := Resolve(tasks, id, status);
    var i :| 0 <= i < |tasks| && tasks[i] == t;
    assert later[i] == t;
    DepsClosedMeans(tasks, t);
    DepsClosedMeans(later, t);
    forall d | ClosedIn(tasks, d) ensures ClosedIn(later, d) {
      var k :| 0 <= k < |tasks| && tasks[k].id == d && IsClosedTask(tasks[k].row.status);
      assert later[k].id == d;
    }
  }
}
