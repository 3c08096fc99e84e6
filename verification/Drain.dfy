/** The dispatch loop: take any task from GetReadyNodes, close it, unblock its dependents.
    When it runs every task to completion, and when it cannot (internal/graph/dag.go). */
module Drain {
  import opened Text
  import opened Tasks
  import opened Reachability
  import opened Ordering
  import opened DagState

  function NonTerminalSet(s: State): set<string> {
    s.tasks.Keys - TerminalSet(s)
  }

  /** A task of the project of an executable type, with no status other than open, ready or a
      terminal one. */
  predicate Executable(row: Row, project: string) {
    && row.project == project
    && row.kind != "epic" && row.kind != "whale"
    && (row.status == OPEN || row.status == READY || Terminal(row.status))
  }

  ghost predicate Drainable(s: State, project: string) {
    Valid(s) && forall id :: id in s.tasks ==> Executable(s.tasks[id], project)
  }

  /** An open task with nothing left to wait for: no later completion will promote it. */
  predicate Stranded(s: State, id: string) {
    id in s.tasks && s.tasks[id].status == "open" && Deps(s, id) <= TerminalSet(s)
  }

  ghost predicate NoneStranded(s: State) {
    forall id :: !Stranded(s, id)
  }

  function Complete(s: State, id: string): State {
    Unblock(Close(s, id).0, id)
  }

  ghost function After(s: State, ids: seq<string>): State
    decreases |ids|
  {
    if ids == [] then s else After(Complete(s, ids[0]), ids[1..])
  }

  /** Each identifier is in the ready query's answer when its turn comes. */
  ghost predicate IsRun(s: State, project: string, ids: seq<string>)
    decreases |ids|
  {
    ids == [] || (ids[0] in ReadySet(s, project) && IsRun(Complete(s, ids[0]), project, ids[1..]))
  }

  lemma OpenNotTerminal(s: State, id: string)
    requires Valid(s) && id in s.tasks
    ensures id in TerminalSet(s) <==> Terminal(s.tasks[id].status)
    ensures s.tasks[id].status == OPEN || s.tasks[id].status == READY ==> id !in TerminalSet(s)
  {
    TerminalTestsAgree(s.tasks[id].status);
    Literals();
  }

  /** The ready query, read on a drainable state. */
  lemma ReadyMeans(s: State, project: string, id: string)
    requires Drainable(s, project) && id in s.tasks
    ensures id in ReadySet(s, project) <==> s.tasks[id].status == READY && Deps(s, id) <= TerminalSet(s)
  {
    NormalizeNormal(s.tasks[id].status);
    NormalizeNormal(s.tasks[id].kind);
    DepsMembership(s, id);
    forall d | d in Deps(s, id) ensures d in s.tasks && (SqlTerminal(s.tasks[d].status) <==> d in TerminalSet(s)) {
      assert (id, d).1 in s.tasks;
      TerminalTestsAgree(s.tasks[d].status);
    }
  }

  lemma ClosedTerminalSet(s: State, id: string)
    requires id in s.tasks
    ensures TerminalSet(WithStatus(s, {id}, CLOSED)) == TerminalSet(s) + {id}
  {
    assert IsTerminalStatus(CLOSED) by { Literals(); NormalizeNormal(CLOSED); }
  }

  lemma CloseEffect(s: State, id: string)
    requires Valid(s) && id in s.tasks
    ensures Close(s, id) == (WithStatus(s, {id}, CLOSED), Ok(()))
    ensures Valid(WithStatus(s, {id}, CLOSED))
  {
    UpdateStatus(s, id, CLOSED);
    WithStatusValid(s, {id}, CLOSED);
  }

  /** `x` waits for `closed` and, beyond it, only for terminal tasks. */
  predicate Promotes(s: State, closed: string, x: string) {
    && x in Dependents(s, closed) && x in s.tasks
    && s.tasks[x].status == "open" && Deps(s, x) <= TerminalSet(s) + {closed}
  }

  /** Exactly `id` became terminal, and every other row was either kept or moved from open to
      ready because all its dependencies are terminal now. */
  ghost predicate CompletesTo(s: State, id: string, t: State) {
    && Valid(t) && t.tasks.Keys == s.tasks.Keys && t.edges == s.edges
    && TerminalSet(t) == TerminalSet(s) + {id}
    && id in s.tasks && t.tasks[id] == s.tasks[id].(status := "closed")
    && forall x :: x in s.tasks && x != id ==>
         t.tasks[x] == if Promotes(s, id, x) then s.tasks[x].(status := "ready") else s.tasks[x]
  }

  /** Closing `id` makes `x` promotable, unless it is `id`, exactly when `id` was all it waited for. */
  lemma PromotedByClosingAt(s: State, c: State, id: string, x: string)
    requires Valid(s) && id in s.tasks && x in s.tasks && x != id && c == WithStatus(s, {id}, CLOSED)
    requires TerminalSet(c) == TerminalSet(s) + {id}
    ensures x in PromotableSet(c, id) <==> Promotes(s, id, x)
  {
    assert Deps(c, x) == Deps(s, x) && Dependents(c, id) == Dependents(s, id);
    assert c.tasks[x] == s.tasks[x];
    NormalizeNormal(s.tasks[x].status);
  }

  lemma PromotedByClosing(s: State, id: string)
    requires Valid(s) && id in s.tasks
    ensures
      var c := WithStatus(s, {id}, CLOSED);
      forall x :: x in s.tasks ==> (x in PromotableSet(c, id) <==> x != id && Promotes(s, id, x))
  {
    var c := WithStatus(s, {id}, CLOSED);
    ClosedTerminalSet(s, id);
    forall x | x in s.tasks ensures x in PromotableSet(c, id) <==> x != id && Promotes(s, id, x) {
      if x != id { PromotedByClosingAt(s, c, id, x); }
    }
  }

  lemma CompleteEffect(s: State, id: string)
    requires Valid(s) && id in s.tasks
    ensures CompletesTo(s, id, Complete(s, id))
  {
    var c := WithStatus(s, {id}, CLOSED);
    CloseEffect(s, id);
    ClosedTerminalSet(s, id);
    TrimSpaceFacts(id);
    PromotedByClosing(s, id);
    SameTerminals(c, id, PromotableSet(c, id));
    assert Normal(READY) by { Literals(); }
    WithStatusValid(c, PromotableSet(c, id), READY);
  }

  lemma ReadyNotTerminal(s: State, project: string, id: string)
    requires Drainable(s, project) && id in ReadySet(s, project)
    ensures id in NonTerminalSet(s)
  {
    ReadyMeans(s, project, id);
    OpenNotTerminal(s, id);
  }

  lemma KeepsExecutable(s: State, project: string, id: string, t: State, x: string)
    requires Drainable(s, project) && CompletesTo(s, id, t) && x in s.tasks
    ensures Executable(t.tasks[x], project)
  {
    Literals();
    assert Executable(s.tasks[x], project);
  }

  lemma KeepsDrainable(s: State, project: string, id: string, t: State)
    requires Drainable(s, project) && CompletesTo(s, id, t)
    ensures Drainable(t, project)
    ensures NonTerminalSet(t) == NonTerminalSet(s) - {id}
  {
    forall x | x in t.tasks ensures Executable(t.tasks[x], project) { KeepsExecutable(s, project, id, t, x); }
  }

  /** A task stranded after a completion was stranded before it. */
  lemma StrandedBefore(s: State, id: string, t: State, x: string)
    requires Valid(s) && CompletesTo(s, id, t) && id in s.tasks && Stranded(t, x)
    ensures Stranded(s, x)
  {
    assert Deps(t, x) == Deps(s, x);
    if x != id && s.tasks[x].status == OPEN && Deps(s, x) <= TerminalSet(s) + {id} {
      DepsMembership(s, x);
      DepsMembership(s, id);
      assert id in Deps(s, x) ==> Promotes(s, id, x);
    }
  }

  /** No task becomes stranded by a completion. */
  lemma StrandsNone(s: State, id: string, t: State)
    requires Valid(s) && NoneStranded(s) && CompletesTo(s, id, t) && id in s.tasks
    ensures NoneStranded(t)
  {
    forall x ensures !Stranded(t, x) {
      if Stranded(t, x) { StrandedBefore(s, id, t, x); }
    }
  }

  /** A stranded task stays stranded through every completion of other work. */
  lemma StrandedStays(s: State, project: string, id: string, t: State, x: string)
    requires Drainable(s, project) && id in ReadySet(s, project) && CompletesTo(s, id, t)
    requires Stranded(s, x)
    ensures Stranded(t, x)
  {
    ReadyMeans(s, project, id);
    OpenNotTerminal(s, id);
    DepsMembership(s, x);
    DepsMembership(s, id);
    assert id !in Deps(s, x) && x !in Dependents(s, id);
    assert Deps(t, x) == Deps(s, x);
  }

  /** No deadlock: while some task is not terminal, the ready query has an answer. */
  lemma SomeTaskReady(s: State, project: string)
    requires Drainable(s, project) && NoneStranded(s) && NonTerminalSet(s) != {}
    ensures ReadySet(s, project) != {}
  {
    var x :| x in NonTerminalSet(s);
    var m := SinkWithin(s.edges, NonTerminalSet(s), x);
    DepsMembership(s, m);
    forall d | d in Deps(s, m) ensures d in TerminalSet(s) {
      assert (m, d) in s.edges && (m, d).1 in s.tasks;
    }
    if m !in ReadySet(s, project) { SinkStranded(s, project, m); }
  }

  lemma RemoveOne<T>(all: set<T>, x: T, rest: set<T>, left: set<T>, later: set<T>)
    requires x in all && rest == all - {x} && left == rest - later
    ensures |rest| + 1 == |all| && left == all - ({x} + later)
  {}

  /** Whatever is picked, each step completes one task that was not terminal before. */
  lemma {:induction false} RunCounts(s: State, project: string, ids: seq<string>)
    requires Drainable(s, project) && IsRun(s, project, ids)
    ensures Drainable(After(s, ids), project)
    ensures |ids| + |NonTerminalSet(After(s, ids))| == |NonTerminalSet(s)|
    ensures NonTerminalSet(After(s, ids)) == NonTerminalSet(s) - Elements(ids)
    decreases |ids|
  {
    if ids != [] {
      var t := Complete(s, ids[0]);
      CompleteEffect(s, ids[0]);
      KeepsDrainable(s, project, ids[0], t);
      ReadyNotTerminal(s, project, ids[0]);
      RunCounts(t, project, ids[1..]);
      ElementsCons(ids);
      RemoveOne(NonTerminalSet(s), ids[0], NonTerminalSet(t), NonTerminalSet(After(s, ids)), Elements(ids[1..]));
    }
  }

  /** Runs neither strand a task nor rescue a stranded one. */
  lemma {:induction false} RunStranding(s: State, project: string, ids: seq<string>)
    requires Drainable(s, project) && IsRun(s, project, ids)
    ensures NoneStranded(s) ==> NoneStranded(After(s, ids))
    ensures forall x :: Stranded(s, x) ==> Stranded(After(s, ids), x)
    decreases |ids|
  {
    if ids != [] {
      var t := Complete(s, ids[0]);
      CompleteEffect(s, ids[0]);
      KeepsDrainable(s, project, ids[0], t);
      if NoneStranded(s) { StrandsNone(s, ids[0], t); }
      forall x | Stranded(s, x) ensures Stranded(t, x) { StrandedStays(s, project, ids[0], t, x); }
      RunStranding(t, project, ids[1..]);
    }
  }

  /** Full drain: from a state with no stranded task every run that has nothing left to pick
      completed all tasks, in exactly as many steps as there were non-terminal tasks. */
  lemma FullDrain(s: State, project: string, ids: seq<string>)
    requires Drainable(s, project) && NoneStranded(s) && IsRun(s, project, ids)
    ensures |ids| <= |NonTerminalSet(s)|
    ensures ReadySet(After(s, ids), project) == {} <==> |ids| == |NonTerminalSet(s)|
    ensures |ids| == |NonTerminalSet(s)| <==> NonTerminalSet(After(s, ids)) == {}
  {
    var t := After(s, ids);
    RunCounts(s, project, ids);
    RunStranding(s, project, ids);
    if NonTerminalSet(t) != {} {
      SomeTaskReady(t, project);
    } else {
      forall x | x in ReadySet(t, project) ensures x in NonTerminalSet(t) {
        ReadyNotTerminal(t, project, x);
      }
    }
  }

  /** Some run goes on until nothing is ready. */
  lemma {:induction false} MaximalRun(s: State, project: string) returns (ids: seq<string>)
    requires Drainable(s, project)
    ensures IsRun(s, project, ids) && ReadySet(After(s, ids), project) == {}
    decreases |NonTerminalSet(s)|
  {
    if ReadySet(s, project) == {} {
      ids := [];
    } else {
      var id :| id in ReadySet(s, project);
      CompleteEffect(s, id);
      KeepsDrainable(s, project, id, Complete(s, id));
      ReadyNotTerminal(s, project, id);
      var rest := MaximalRun(Complete(s, id), project);
      ids := [id] + rest;
      assert ids[1..] == rest;
    }
  }

  /** Every run that has nothing left to pick completed everything. */
  ghost predicate AlwaysDrains(s: State, project: string) {
    forall ids :: IsRun(s, project, ids) && ReadySet(After(s, ids), project) == {} ==>
        NonTerminalSet(After(s, ids)) == {}
  }

  /** The loop drains a project exactly when no task is stranded at the start. */
  lemma DrainsIffNoneStranded(s: State, project: string)
    requires Drainable(s, project)
    ensures AlwaysDrains(s, project) <==> NoneStranded(s)
  {
    if NoneStranded(s) {
      forall ids | IsRun(s, project, ids) && ReadySet(After(s, ids), project) == {}
        ensures NonTerminalSet(After(s, ids)) == {}
      {
        FullDrain(s, project, ids);
      }
    } else {
      var x :| Stranded(s, x);
      var ids := MaximalRun(s, project);
      RunCounts(s, project, ids);
      RunStranding(s, project, ids);
      OpenNotTerminal(After(s, ids), x);
      assert x in NonTerminalSet(After(s, ids));
    }
  }

  // ---------------------------------------------------------------- what is left

  /** The dependencies between tasks that are not terminal. */
  function LiveEdges(s: State): Edges {
    set e | e in s.edges && e.0 in NonTerminalSet(s) && e.1 in NonTerminalSet(s)
  }

  /** The task is stranded, or waits for a stranded one through tasks that are not terminal. */
  ghost predicate Held(s: State, x: string) {
    exists y :: Stranded(s, y) && ReachesOrSame(LiveEdges(s), x, y)
  }

  ghost function HeldSet(s: State): set<string> {
    set x | x in s.tasks && Held(s, x)
  }

  lemma ReadyHasNoLiveEdge(s: State, project: string, id: string)
    requires Drainable(s, project) && id in ReadySet(s, project)
    ensures forall y :: (id, y) !in LiveEdges(s)
    ensures !Stranded(s, id)
  {
    ReadyMeans(s, project, id);
    DepsMembership(s, id);
    forall y ensures (id, y) !in LiveEdges(s) {
      if (id, y) in s.edges { assert y in Deps(s, id); }
    }
  }

  /** A walk to another task does not touch one without successors, so it survives its removal. */
  lemma {:induction false} WalkAvoids(e: Edges, f: Edges, id: string, x: string, y: string, n: nat)
    requires ReachesIn(e, x, y, n) && y != id && forall z :: (id, z) !in e
    requires forall p :: p in e && p.0 != id && p.1 != id ==> p in f
    ensures ReachesIn(f, x, y, n)
    decreases n
  {
    if n > 0 {
      var z :| (x, z) in e && ReachesIn(e, z, y, n - 1);
      if z == id { NoWalkFrom(e, id, y, n - 1); }
      WalkAvoids(e, f, id, z, y, n - 1);
      assert (x, z) in f;
    }
  }

  lemma NoWalkFrom(e: Edges, id: string, y: string, n: nat)
    requires forall z :: (id, z) !in e
    ensures !ReachesIn(e, id, y, n)
  {}

  lemma LiveAfter(s: State, id: string, t: State)
    requires t.edges == s.edges && NonTerminalSet(t) == NonTerminalSet(s) - {id}
    ensures LiveEdges(t) <= LiveEdges(s)
    ensures forall p :: p in LiveEdges(s) && p.0 != id && p.1 != id ==> p in LiveEdges(t)
  {}

  /** A completion neither frees a held task nor holds another one. */
  lemma HeldStays(s: State, project: string, id: string, t: State, x: string)
    requires Drainable(s, project) && id in ReadySet(s, project) && CompletesTo(s, id, t)
    ensures Held(s, x) <==> Held(t, x)
  {
    KeepsDrainable(s, project, id, t);
    LiveAfter(s, id, t);
    ReadyHasNoLiveEdge(s, project, id);
    if Held(s, x) {
      var y :| Stranded(s, y) && ReachesOrSame(LiveEdges(s), x, y);
      StrandedStays(s, project, id, t, y);
      if x != y {
        var n: nat :| ReachesIn(LiveEdges(s), x, y, n);
        WalkAvoids(LiveEdges(s), LiveEdges(t), id, x, y, n);
        assert Reaches(LiveEdges(t), x, y);
      }
    }
    if Held(t, x) {
      var y :| Stranded(t, y) && ReachesOrSame(LiveEdges(t), x, y);
      StrandedBefore(s, id, t, y);
      if x != y { ReachesMonotone(LiveEdges(t), LiveEdges(s), x, y); }
    }
  }

  lemma {:induction false} RunHolds(s: State, project: string, ids: seq<string>)
    requires Drainable(s, project) && IsRun(s, project, ids)
    ensures HeldSet(After(s, ids)) == HeldSet(s)
    decreases |ids|
  {
    if ids != [] {
      var t := Complete(s, ids[0]);
      CompleteEffect(s, ids[0]);
      KeepsDrainable(s, project, ids[0], t);
      forall x ensures Held(s, x) <==> Held(t, x) { HeldStays(s, project, ids[0], t, x); }
      assert HeldSet(t) == HeldSet(s);
      RunHolds(t, project, ids[1..]);
    }
  }

  /** A held task is not terminal. */
  lemma HeldNotTerminal(s: State, x: string)
    requires Valid(s) && x in s.tasks && Held(s, x)
    ensures x in NonTerminalSet(s)
  {
    var y :| Stranded(s, y) && ReachesOrSame(LiveEdges(s), x, y);
    OpenNotTerminal(s, y);
    if x != y { var z := FirstEdge(LiveEdges(s), x, y); }
  }

  lemma SinkStranded(s: State, project: string, m: string)
    requires Drainable(s, project) && m in NonTerminalSet(s) && m !in ReadySet(s, project)
    requires Deps(s, m) <= TerminalSet(s)
    ensures Stranded(s, m)
  {
    OpenNotTerminal(s, m);
    ReadyMeans(s, project, m);
    assert Executable(s.tasks[m], project);
  }

  /** With nothing ready, every task that is not terminal is held. */
  lemma NothingReadyHeld(s: State, project: string, x: string)
    requires Drainable(s, project) && ReadySet(s, project) == {} && x in NonTerminalSet(s)
    ensures Held(s, x)
  {
    var live := LiveEdges(s);
    SubsetAcyclic(live, s.edges);
    var m := SinkWithin(live, {x} + ReachSet(live, x), x);
    if m != x { LiveTarget(s, x, m); }
    forall d | d in Deps(s, m) ensures d in TerminalSet(s) {
      if d !in TerminalSet(s) { NextLive(s, x, m, d); }
    }
    SinkStranded(s, project, m);
  }

  lemma LiveTarget(s: State, x: string, m: string)
    requires Reaches(LiveEdges(s), x, m)
    ensures m in NonTerminalSet(s)
  {
    ReachSetExact(LiveEdges(s), x, m);
  }

  lemma NextLive(s: State, x: string, m: string, d: string)
    requires Valid(s) && ReachesOrSame(LiveEdges(s), x, m) && m in NonTerminalSet(s)
    requires d in Deps(s, m) && d !in TerminalSet(s)
    ensures (m, d) in LiveEdges(s) && d in ReachSet(LiveEdges(s), x)
  {
    DepsMembership(s, m);
    assert (m, d).1 in s.tasks;
    EdgeReaches(LiveEdges(s), m, d);
    if m != x { ReachesTransitive(LiveEdges(s), x, m, d); }
    ReachSetExact(LiveEdges(s), x, d);
  }

  /** Whatever is picked, a run with nothing left to pick leaves exactly the tasks that were held at
      the start: the stranded ones and those that wait for one. */
  lemma Residue(s: State, project: string, ids: seq<string>)
    requires Drainable(s, project) && IsRun(s, project, ids) && ReadySet(After(s, ids), project) == {}
    ensures NonTerminalSet(After(s, ids)) == HeldSet(s)
  {
    RunCounts(s, project, ids);
    RunHolds(s, project, ids);
    LeftIsHeld(After(s, ids), project);
  }

  lemma LeftIsHeld(t: State, project: string)
    requires Drainable(t, project) && ReadySet(t, project) == {}
    ensures NonTerminalSet(t) == HeldSet(t)
  {
    forall x | x in NonTerminalSet(t) ensures x in HeldSet(t) { NothingReadyHeld(t, project, x); }
    forall x | x in HeldSet(t) ensures x in NonTerminalSet(t) { HeldNotTerminal(t, x); }
  }

  /** A reachable project with a stranded task: one open task without dependencies, just created. */
  lemma StrandedReachable(row: Row, draw: nat)
    requires row.project != "" && Trimmed(row.project) && NormalizeStatus(row.status) == OPEN
    requires NormalizeType(row.kind) != "epic" && NormalizeType(row.kind) != "whale"
    ensures
      var s := Run(EMPTY, [CreateOp(row, [draw])]);
      Drainable(s, row.project) && Stranded(s, TaskId(row.project, draw)) && !AlwaysDrains(s, row.project)
  {
    EveryRunAcyclic([CreateOp(row, [draw])]);
    LoneTaskStranded(State(map[TaskId(row.project, draw) := StoredRow(row)], {}), TaskId(row.project, draw), row);
  }

  lemma LoneTaskStranded(s: State, id: string, row: Row)
    requires Valid(s) && s == State(map[id := StoredRow(row)], {}) && Trimmed(row.project)
    requires Executable(StoredRow(row), row.project) && NormalizeStatus(row.status) == OPEN
    ensures Drainable(s, row.project) && Stranded(s, id) && !AlwaysDrains(s, row.project)
  {
    DrainsIffNoneStranded(s, row.project);
    assert Stranded(s, id);
  }
}
