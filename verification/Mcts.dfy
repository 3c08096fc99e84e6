/** Planner statistics: a log of rollouts, the aggregates kept beside it, and the graph both refer to
    (internal/store/mcts.go). */
module Mcts {
  import opened Options
  import opened Text

  datatype Rollout = Rollout(
    taskId: string,
    project: string,
    species: string,
    parent: string,
    action: string,
    outcome: string,
    reward: real,
    cost: real,
    duration: real,
    metadata: string)

  datatype Stat = Stat(visits: int, wins: int, reward: real, cost: real, duration: real, outcome: string)

  /** The primary key of the aggregates. */
  datatype Key = Key(parent: string, species: string, action: string)

  datatype Tables = Tables(
    nodes: map<string, string>,
    edges: map<(string, string), string>,
    rollouts: seq<Rollout>,
    stats: map<Key, Stat>)

  const EMPTY_TABLES := Tables(map[], map[], [], map[])

  // ---------------------------------------------------------------- what is stored

  function Species(species: string): string {
    if TrimSpace(species) == "" then "*" else TrimSpace(species)
  }

  function OrElse(text: string, fallback: string): string {
    if TrimSpace(text) == "" then fallback else TrimSpace(text)
  }

  function AtLeastZero(x: real): real {
    if x < 0.0 then 0.0 else x
  }

  function StoredRow(r: Rollout): Rollout {
    Rollout(TrimSpace(r.taskId), TrimSpace(r.project), Species(r.species), TrimSpace(r.parent), TrimSpace(r.action),
            OrElse(r.outcome, "unknown"), r.reward, AtLeastZero(r.cost), AtLeastZero(r.duration),
            OrElse(r.metadata, "{}"))
  }

  function StoredKey(k: Key): Key {
    Key(TrimSpace(k.parent), Species(k.species), TrimSpace(k.action))
  }

  function Clamped(x: int, low: int, high: int): int {
    if x < low then low else if x > high then high else x
  }

  function StoredStat(s: Stat): Stat {
    var visits := if s.visits < 0 then 0 else s.visits;
    Stat(visits, Clamped(s.wins, 0, visits), s.reward, AtLeastZero(s.cost), AtLeastZero(s.duration),
        TrimSpace(s.outcome))
  }

  function KeyOf(r: Rollout): Key {
    Key(r.parent, r.species, r.action)
  }

  predicate Won(r: Rollout) {
    r.reward > 0.0 || EqualFold(r.outcome, "success") || EqualFold(r.outcome, "started")
  }

  function ChildKey(parent: string, action: string): string {
    parent + "::" + action
  }

  // ---------------------------------------------------------------- what one call does

  function Ensure(nodes: map<string, string>, key: string, kind: string): map<string, string> {
    if key in nodes then nodes else nodes[key := kind]
  }

  function WithEdge(t: Tables, parent: string, action: string): Tables {
    var child := ChildKey(parent, action);
    t.(nodes := Ensure(Ensure(t.nodes, parent, "root"), child, "action"), edges := t.edges[(parent, action) := child])
  }

  function Single(r: Rollout): Stat {
    Stat(1, if Won(r) then 1 else 0, r.reward, r.cost, r.duration, r.outcome)
  }

  function Plus(a: Stat, b: Stat): Stat {
    Stat(a.visits + b.visits, a.wins + b.wins, a.reward + b.reward, a.cost + b.cost, a.duration + b.duration,
        b.outcome)
  }

  /** The aggregate after one more row under its key. */
  function Counted(stats: map<Key, Stat>, row: Rollout): Stat {
    var k := KeyOf(row);
    if k in stats then Plus(stats[k], Single(row)) else Single(row)
  }

  /** The tables after one aggregate and the graph under it were written. */
  function Put(t: Tables, k: Key, s: Stat, rows: seq<Rollout>): Tables {
    WithEdge(t, k.parent, k.action).(stats := t.stats[k := s], rollouts := rows)
  }

  function Recorded(t: Tables, row: Rollout): Tables {
    Put(t, KeyOf(row), Counted(t.stats, row), t.rollouts + [row])
  }

  function Replaced(t: Tables, k: Key, s: Stat): Tables {
    Put(t, k, s, t.rollouts)
  }

  /** A call, with the number of its database statements that succeed before one fails. */
  datatype Call =
    | Record(rollout: Rollout, statements: nat)
    | Upsert(key: Key, stat: Stat, statements: nat)

  const RECORD_STATEMENTS := 7
  const UPSERT_STATEMENTS := 6

  predicate Succeeds(c: Call) {
    match c
    case Record(r, n) => StoredRow(r).parent != "" && StoredRow(r).action != "" && n >= RECORD_STATEMENTS
    case Upsert(k, _, n) => StoredKey(k).parent != "" && StoredKey(k).action != "" && n >= UPSERT_STATEMENTS
  }

  function Step(t: Tables, c: Call): Tables {
    if !Succeeds(c) then t
    else match c
      case Record(r, _) => Recorded(t, StoredRow(r))
      case Upsert(k, s, _) => Replaced(t, StoredKey(k), StoredStat(s))
  }

  function Run(t: Tables, calls: seq<Call>): Tables {
    if calls == [] then t else Step(Run(t, calls[..|calls| - 1]), calls[|calls| - 1])
  }

  // ---------------------------------------------------------------- the store

  datatype Result<T> = Ok(value: T) | NoParent | NoAction | StoreFailed

  method NormalizeRow(rollout: Rollout) returns (row: Rollout)
    ensures row == StoredRow(rollout)
  {
    var species, outcome, metadata :=
        TrimSpace(rollout.species), TrimSpace(rollout.outcome), TrimSpace(rollout.metadata);
    if species == "" { species := "*"; }
    if outcome == "" { outcome := "unknown"; }
    if metadata == "" { metadata := "{}"; }
    var cost, duration := rollout.cost, rollout.duration;
    if cost < 0.0 { cost := 0.0; }
    if duration < 0.0 { duration := 0.0; }
    return Rollout(TrimSpace(rollout.taskId), TrimSpace(rollout.project), species, TrimSpace(rollout.parent),
                   TrimSpace(rollout.action), outcome, rollout.reward, cost, duration, metadata);
  }

  class MctsStore {
    var nodes: map<string, string>
    var edges: map<(string, string), string>
    var rollouts: seq<Rollout>
    var stats: map<Key, Stat>

    ghost function Value(): Tables
      reads this
    {
      Tables(nodes, edges, rollouts, stats)
    }

    constructor ()
      ensures Value() == EMPTY_TABLES
    {
      nodes, edges, rollouts, stats := map[], map[], [], map[];
    }

    /** Undoes an open transaction. */
    method Rollback(n: map<string, string>, e: map<(string, string), string>, r: seq<Rollout>, s: map<Key, Stat>)
      modifies this
      ensures Value() == Tables(n, e, r, s)
    {
      nodes, edges, rollouts, stats := n, e, r, s;
    }

    method EnsureGraph(parent: string, action: string, statements: nat) returns (ok: bool)
      modifies this`nodes, this`edges
      ensures ok <==> statements >= 3
      ensures ok ==> Value() == WithEdge(old(Value()), parent, action)
    {
      var child := ChildKey(parent, action);
      if statements < 1 { return false; }
      if parent !in nodes { nodes := nodes[parent := "root"]; }
      if statements < 2 { return false; }
      if child !in nodes { nodes := nodes[child := "action"]; }
      if statements < 3 { return false; }
      edges := edges[(parent, action) := child];
      ok := true;
    }

    method CountRow(row: Rollout)
      modifies this`stats
      ensures stats == old(stats)[KeyOf(row) := Counted(old(stats), row)]
    {
      var k := KeyOf(row);
      var win := 0;
      if row.reward > 0.0 || EqualFold(row.outcome, "success") || EqualFold(row.outcome, "started") {
        win := 1;
      }
      if k in stats {
        var was := stats[k];
        stats := stats[k := Stat(was.visits + 1, was.wins + win, was.reward + row.reward, was.cost + row.cost,
                                 was.duration + row.duration, row.outcome)];
      } else {
        stats := stats[k := Stat(1, win, row.reward, row.cost, row.duration, row.outcome)];
      }
    }

    /** Records a rollout and updates its aggregate, both or neither. */
    method RecordRollout(rollout: Rollout, statements: nat) returns (r: Result<nat>)
      modifies this
      ensures Value() == Step(old(Value()), Record(rollout, statements))
      ensures r.Ok? <==> Succeeds(Record(rollout, statements))
      ensures r.Ok? ==> r.value == |rollouts| && rollouts == old(rollouts) + [StoredRow(rollout)]
      ensures r.NoParent? <==> TrimSpace(rollout.parent) == ""
      ensures r.NoAction? <==> TrimSpace(rollout.parent) != "" && TrimSpace(rollout.action) == ""
    {
      var row := NormalizeRow(rollout);
      if row.parent == "" { return NoParent; }
      if row.action == "" { return NoAction; }
      var ok := InsertAndCount(row, statements);
      return if ok then Ok(|rollouts|) else StoreFailed;
    }

    /** The transaction: begin, three graph statements, the row, the aggregate, commit. */
    method InsertAndCount(row: Rollout, statements: nat) returns (ok: bool)
      modifies this
      ensures ok <==> statements >= RECORD_STATEMENTS
      ensures Value() == if ok then Recorded(old(Value()), row) else old(Value())
    {
      if statements < 1 { return false; }
      var n, e, l, s := nodes, edges, rollouts, stats;
      ok := EnsureGraph(row.parent, row.action, statements - 1);
      if ok && statements >= 5 {
        rollouts := rollouts + [row];
        if statements >= 6 { CountRow(row); }
      }
      ok := statements >= RECORD_STATEMENTS;
      if !ok { Rollback(n, e, l, s); }
    }

    /** Replaces an aggregate, within its bounds. */
    method UpsertEdgeStat(key: Key, stat: Stat, statements: nat) returns (r: Result<()>)
      modifies this
      ensures Value() == Step(old(Value()), Upsert(key, stat, statements))
      ensures r.Ok? <==> Succeeds(Upsert(key, stat, statements))
      ensures r.NoParent? <==> TrimSpace(key.parent) == ""
      ensures r.NoAction? <==> TrimSpace(key.parent) != "" && TrimSpace(key.action) == ""
    {
      var k := StoredKey(key);
      if k.parent == "" { return NoParent; }
      if k.action == "" { return NoAction; }
      var visits := if stat.visits < 0 then 0 else stat.visits;
      var wins := if stat.wins < 0 then 0 else stat.wins;
      if wins > visits { wins := visits; }
      var n, e, l, s := nodes, edges, rollouts, stats;
      if statements < 1 { return StoreFailed; }
      var ok := EnsureGraph(k.parent, k.action, statements - 1);
      if !ok || statements < 5 {
        Rollback(n, e, l, s);
        return StoreFailed;
      }
      stats := stats[k := Stat(visits, wins, stat.reward, AtLeastZero(stat.cost), AtLeastZero(stat.duration),
                               TrimSpace(stat.outcome))];
      if statements < 6 {
        Rollback(n, e, l, s);
        return StoreFailed;
      }
      return Ok(());
    }
  }

  // ---------------------------------------------------------------- aggregates against the log

  /** The row belongs to the edge and the species of the key. */
  predicate IsUnder(row: Rollout, k: Key) {
    row.parent == k.parent && row.species == k.species && row.action == k.action
  }

  /** The log's rows of one aggregate. */
  function RowsOf(rows: seq<Rollout>, k: Key): seq<Rollout> {
    if rows == [] then []
    else RowsOf(rows[..|rows| - 1], k) + if IsUnder(rows[|rows| - 1], k) then [rows[|rows| - 1]] else []
  }

  function Wins(rows: seq<Rollout>): nat {
    if rows == [] then 0 else Wins(rows[..|rows| - 1]) + if Won(rows[|rows| - 1]) then 1 else 0
  }

  function Sum(rows: seq<Rollout>, f: Rollout -> real): real {
    if rows == [] then 0.0 else Sum(rows[..|rows| - 1], f) + f(rows[|rows| - 1])
  }

  function Reward(r: Rollout): real { r.reward }

  function Cost(r: Rollout): real { r.cost }

  function Duration(r: Rollout): real { r.duration }

  /** What the aggregate of some rows must be: how many, how many won, the sums, the last outcome. */
  function Totals(rows: seq<Rollout>): Stat
    requires rows != []
  {
    Stat(|rows|, Wins(rows), Sum(rows, Reward), Sum(rows, Cost), Sum(rows, Duration), rows[|rows| - 1].outcome)
  }

  function StatOf(t: Tables, k: Key): Option<Stat> {
    if k in t.stats then Some(t.stats[k]) else None
  }

  /** An aggregate carried on over further rows. */
  function Advanced(before: Option<Stat>, rows: seq<Rollout>): Option<Stat> {
    if rows == [] then before
    else if before.None? then Some(Totals(rows))
    else Some(Plus(before.value, Totals(rows)))
  }

  /** An aggregate, if any, after one more row. */
  function Next(was: Option<Stat>, row: Rollout): Option<Stat> {
    Some(if was.None? then Single(row) else Plus(was.value, Single(row)))
  }

  lemma SumNext(rows: seq<Rollout>, row: Rollout, f: Rollout -> real)
    ensures Sum(rows + [row], f) == Sum(rows, f) + f(row)
  {
    assert (rows + [row])[..|rows|] == rows;
  }

  lemma WinsNext(rows: seq<Rollout>, row: Rollout)
    ensures Wins(rows + [row]) == Wins(rows) + if Won(row) then 1 else 0
  {
    assert (rows + [row])[..|rows|] == rows;
  }

  lemma TotalsNext(rows: seq<Rollout>, row: Rollout)
    ensures Totals(rows + [row]) == if rows == [] then Single(row) else Plus(Totals(rows), Single(row))
  {
    WinsNext(rows, row);
    SumNext(rows, row, Reward);
    SumNext(rows, row, Cost);
    SumNext(rows, row, Duration);
  }

  lemma AdvancedNext(before: Option<Stat>, rows: seq<Rollout>, row: Rollout)
    ensures Advanced(before, rows + [row]) == Next(Advanced(before, rows), row)
  {
    TotalsNext(rows, row);
  }

  predicate Replaces(c: Call, k: Key) {
    c.Upsert? && Succeeds(c) && StoredKey(c.key) == k
  }

  /** From any tables and through any calls that do not replace it, interleaved with whatever else
      and whichever calls fail, an aggregate advances by exactly the rows logged under its key. */
  lemma {:induction false} AggregateFollowsLog(t: Tables, calls: seq<Call>, k: Key)
    requires forall i :: 0 <= i < |calls| ==> !Replaces(calls[i], k)
    ensures |t.rollouts| <= |Run(t, calls).rollouts|
    ensures StatOf(Run(t, calls), k) == Advanced(StatOf(t, k), RowsOf(Run(t, calls).rollouts[|t.rollouts|..], k))
  {
    if calls != [] {
      var n := |calls| - 1;
      var mid, end, from := Run(t, calls[..n]), Run(t, calls), |t.rollouts|;
      AggregateFollowsLog(t, calls[..n], k);
      assert !Replaces(calls[n], k);
      if Succeeds(calls[n]) && calls[n].Record? {
        RecordAdvances(mid, StoredRow(calls[n].rollout), from, StatOf(t, k), k);
      }
    }
  }

  lemma RowsNext(rows: seq<Rollout>, row: Rollout, k: Key)
    ensures RowsOf(rows + [row], k) == if KeyOf(row) == k then RowsOf(rows, k) + [row] else RowsOf(rows, k)
  {
    assert (rows + [row])[..|rows|] == rows;
    assert RowsOf(rows, k) + [] == RowsOf(rows, k);
  }

  lemma RecordAdvances(t: Tables, row: Rollout, from: nat, before: Option<Stat>, k: Key)
    requires from <= |t.rollouts| && StatOf(t, k) == Advanced(before, RowsOf(t.rollouts[from..], k))
    ensures StatOf(Recorded(t, row), k) == Advanced(before, RowsOf(Recorded(t, row).rollouts[from..], k))
  {
    assert (t.rollouts + [row])[from..] == t.rollouts[from..] + [row];
    RowsAdvance(t.rollouts[from..], row, before, k);
  }

  lemma RowsAdvance(rows: seq<Rollout>, row: Rollout, before: Option<Stat>, k: Key)
    ensures
      var was := Advanced(before, RowsOf(rows, k));
      Advanced(before, RowsOf(rows + [row], k)) == if KeyOf(row) == k then Next(was, row) else was
  {
    RowsNext(rows, row, k);
    AdvancedNext(before, RowsOf(rows, k), row);
  }

  /** Without replacements every aggregate is the fold of its rows, and there is one only where
      there are rows. */
  lemma AggregatesAgreeWithLog(calls: seq<Call>, k: Key)
    requires forall i :: 0 <= i < |calls| ==> calls[i].Record?
    ensures
      var t := Run(EMPTY_TABLES, calls);
      var rows := RowsOf(t.rollouts, k);
      StatOf(t, k) == if rows == [] then None else Some(Totals(rows))
  {
    AggregateFollowsLog(EMPTY_TABLES, calls, k);
    var t := Run(EMPTY_TABLES, calls);
    assert t.rollouts[0..] == t.rollouts;
  }

  lemma {:induction false} RunAppend(t: Tables, a: seq<Call>, b: seq<Call>)
    ensures Run(t, a + b) == Run(Run(t, a), b)
  {
    if b == [] {
      assert a + b == a;
    } else {
      assert (a + b)[..|a + b| - 1] == a + b[..|b| - 1];
      RunAppend(t, a, b[..|b| - 1]);
    }
  }

  /** After a replacement the aggregate is the value it was given, within its bounds, plus the rows
      logged since. */
  lemma ReplacementRestartsFold(t: Tables, before: seq<Call>, c: Call, after: seq<Call>, k: Key)
    requires Replaces(c, k) && forall i :: 0 <= i < |after| ==> !Replaces(after[i], k)
    ensures
      var mid, end := Run(t, before), Run(t, before + [c] + after);
      |mid.rollouts| <= |end.rollouts|
      && StatOf(end, k) == Advanced(Some(StoredStat(c.stat)), RowsOf(end.rollouts[|mid.rollouts|..], k))
  {
    RunAppend(t, before + [c], after);
    assert (before + [c])[..|before|] == before;
    AggregateFollowsLog(Run(t, before + [c]), after, k);
  }

  // ---------------------------------------------------------------- what one call changes

  lemma RowExact(r: Rollout, k: Key, outcome: string)
    requires k.parent == TrimSpace(r.parent) && k.action == TrimSpace(r.action)
    requires k.species == if TrimSpace(r.species) == "" then "*" else TrimSpace(r.species)
    requires outcome == if TrimSpace(r.outcome) == "" then "unknown" else TrimSpace(r.outcome)
    ensures
      StoredRow(r) == Rollout(TrimSpace(r.taskId), TrimSpace(r.project), k.species, k.parent, k.action, outcome,
          r.reward,
                              if r.cost < 0.0 then 0.0 else r.cost, if r.duration < 0.0 then 0.0 else r.duration,
                              if TrimSpace(r.metadata) == "" then "{}" else TrimSpace(r.metadata))
  {}

  lemma WonMeans(row: Rollout)
    ensures Won(row) <==> row.reward > 0.0 || ToLower(row.outcome) == "success" || ToLower(row.outcome) == "started"
  {
    assert ToLower("success") == "success" && ToLower("started") == "started";
  }

  /** Counting a row changes the aggregate of its own edge and species, and no other. */
  lemma CountedExact(t: Tables, row: Rollout, k: Key, win: int)
    requires IsUnder(row, k)
    requires win ==
      if row.reward > 0.0 || ToLower(row.outcome) == "success" || ToLower(row.outcome) == "started" then 1 else 0
    ensures
      var u := Recorded(t, row);
      && u.rollouts == t.rollouts + [row]
      && StatOf(u, k) == Some(if k in t.stats then
                                Stat(t.stats[k].visits + 1, t.stats[k].wins + win, t.stats[k].reward + row.reward,
                                     t.stats[k].cost + row.cost, t.stats[k].duration + row.duration, row.outcome)
                              else Stat(1, win, row.reward, row.cost, row.duration, row.outcome))
      && (forall j :: j != k ==> StatOf(u, j) == StatOf(t, j))
      && GraphGains(t, u, k.parent, k.action)
  {
    WonMeans(row);
    assert KeyOf(row) == k;
    PutGains(t, k, Counted(t.stats, row), t.rollouts + [row]);
  }

  /** A successful rollout is logged as given but for trimming, defaults and negative amounts, and
      counted in the aggregate of its own edge and species, and in no other. */
  lemma RolloutExact(t: Tables, r: Rollout, statements: nat, row: Rollout)
    requires row.parent == TrimSpace(r.parent) != "" && row.action == TrimSpace(r.action) != "" && statements >= 7
    requires row.species == if TrimSpace(r.species) == "" then "*" else TrimSpace(r.species)
    requires row.outcome == if TrimSpace(r.outcome) == "" then "unknown" else TrimSpace(r.outcome)
    requires row.taskId == TrimSpace(r.taskId) && row.project == TrimSpace(r.project) && row.reward == r.reward
    requires row.cost == (if r.cost < 0.0 then 0.0 else r.cost)
    requires row.duration == (if r.duration < 0.0 then 0.0 else r.duration)
    requires row.metadata == if TrimSpace(r.metadata) == "" then "{}" else TrimSpace(r.metadata)
    ensures
      var u, k := Step(t, Record(r, statements)), Key(row.parent, row.species, row.action);
      u == Recorded(t, row) && forall j :: j != k ==> StatOf(u, j) == StatOf(t, j)
  {
    RowExact(r, Key(row.parent, row.species, row.action), row.outcome);
    var win := if row.reward > 0.0 || ToLower(row.outcome) == "success" || ToLower(row.outcome) == "started" then 1
        else 0;
    CountedExact(t, row, Key(row.parent, row.species, row.action), win);
  }

  /** A successful replacement writes the given values, within their bounds, under its own key only,
      and logs nothing. */
  lemma UpsertExact(t: Tables, key: Key, s: Stat, statements: nat, k: Key, visits: int, wins: int)
    requires k.parent == TrimSpace(key.parent) != "" && k.action == TrimSpace(key.action) != "" && statements >= 6
    requires k.species == if TrimSpace(key.species) == "" then "*" else TrimSpace(key.species)
    requires visits == if s.visits < 0 then 0 else s.visits
    requires wins == if s.wins < 0 then 0 else if s.wins > visits then visits else s.wins
    ensures
      var u := Step(t, Upsert(key, s, statements));
      && u.rollouts == t.rollouts
      && StatOf(u, k) == Some(Stat(visits, wins, s.reward, if s.cost < 0.0 then 0.0 else s.cost,
                                   if s.duration < 0.0 then 0.0 else s.duration, TrimSpace(s.outcome)))
      && (forall j :: j != k ==> StatOf(u, j) == StatOf(t, j))
      && GraphGains(t, u, k.parent, k.action)
  {
    PutGains(t, k, StoredStat(s), t.rollouts);
  }

  /** A call without a parent or an action, or with a failing statement, changes nothing. */
  lemma FailureExact(t: Tables, c: Call)
    requires match c
             case Record(r, n) => TrimSpace(r.parent) == "" || TrimSpace(r.action) == "" || n < 7
             case Upsert(k, _, n) => TrimSpace(k.parent) == "" || TrimSpace(k.action) == "" || n < 6
    ensures Step(t, c) == t
  {}

  /** The graph gains the edge to `parent::action` and its two ends, and keeps the rest as it is. */
  ghost predicate GraphGains(t: Tables, u: Tables, parent: string, action: string) {
    var child := parent + "::" + action;
    && u.edges == t.edges[(parent, action) := child]
    && u.nodes.Keys == t.nodes.Keys + {parent, child}
    && (forall n <- t.nodes :: u.nodes[n] == t.nodes[n])
    && (parent !in t.nodes ==> u.nodes[parent] == "root")
    && (child !in t.nodes && child != parent ==> u.nodes[child] == "action")
  }

  lemma PutGains(t: Tables, k: Key, s: Stat, rows: seq<Rollout>)
    ensures GraphGains(t, Put(t, k, s, rows), k.parent, k.action)
  {}

  // ---------------------------------------------------------------- what every run keeps

  ghost predicate EdgePresent(t: Tables, parent: string, action: string) {
    && (parent, action) in t.edges && t.edges[(parent, action)] == ChildKey(parent, action)
    && parent in t.nodes && ChildKey(parent, action) in t.nodes
  }

  ghost predicate InBounds(s: Stat) {
    0 <= s.wins <= s.visits && s.cost >= 0.0 && s.duration >= 0.0
  }

  ghost predicate StatsSound(t: Tables) {
    forall k <- t.stats :: InBounds(t.stats[k]) && EdgePresent(t, k.parent, k.action)
  }

  ghost predicate LogSound(t: Tables) {
    forall i :: 0 <= i < |t.rollouts| ==>
        KeyOf(t.rollouts[i]) in t.stats && t.rollouts[i].cost >= 0.0 && t.rollouts[i].duration >= 0.0
  }

  predicate IsEndpoint(n: string, e: (string, string)) {
    n == e.0 || n == ChildKey(e.0, e.1)
  }

  ghost predicate EdgesSound(t: Tables) {
    forall e <- t.edges :: EdgePresent(t, e.0, e.1) && exists k <- t.stats :: k.parent == e.0 && k.action == e.1
  }

  ghost predicate NodesSound(t: Tables) {
    forall n <- t.nodes :: exists e <- t.edges :: IsEndpoint(n, e)
  }

  ghost predicate Sound(t: Tables) {
    StatsSound(t) && LogSound(t) && EdgesSound(t) && NodesSound(t)
  }

  lemma PutStats(t: Tables, k: Key, s: Stat, rows: seq<Rollout>)
    requires StatsSound(t) && InBounds(s)
    ensures StatsSound(Put(t, k, s, rows))
  {
    var after := Put(t, k, s, rows);
    forall j | j in after.stats ensures InBounds(after.stats[j]) && EdgePresent(after, j.parent, j.action) {
      if j != k { assert j in t.stats; }
    }
  }

  lemma PutEdges(t: Tables, k: Key, s: Stat, rows: seq<Rollout>)
    requires EdgesSound(t)
    ensures EdgesSound(Put(t, k, s, rows))
  {
    var after := Put(t, k, s, rows);
    forall e | e in after.edges
      ensures EdgePresent(after, e.0, e.1) && exists j <- after.stats :: j.parent == e.0 && j.action == e.1
    {
      if e == (k.parent, k.action) {
        assert k in after.stats && k.parent == e.0 && k.action == e.1;
      } else {
        var j :| j in t.stats && j.parent == e.0 && j.action == e.1;
        assert j in after.stats;
      }
    }
  }

  lemma PutNodes(t: Tables, k: Key, s: Stat, rows: seq<Rollout>)
    requires NodesSound(t)
    ensures NodesSound(Put(t, k, s, rows))
  {
    var after := Put(t, k, s, rows);
    forall n | n in after.nodes ensures exists e <- after.edges :: IsEndpoint(n, e) {
      if n in t.nodes {
        var e :| e in t.edges && IsEndpoint(n, e);
        assert e in after.edges && IsEndpoint(n, e);
      } else {
        assert (k.parent, k.action) in after.edges && IsEndpoint(n, (k.parent, k.action));
      }
    }
  }

  /** Whatever calls are made and whichever fail: wins stay between 0 and visits, every row has its
      aggregate, every aggregate its nodes and its edge to the child `parent::action`, and there is
      no edge without an aggregate and no node without an edge. */
  lemma {:induction false} EveryRunSound(calls: seq<Call>)
    ensures Sound(Run(EMPTY_TABLES, calls))
  {
    if calls != [] {
      EveryRunSound(calls[..|calls| - 1]);
      StepSound(Run(EMPTY_TABLES, calls[..|calls| - 1]), calls[|calls| - 1]);
    }
  }

  lemma PutSound(t: Tables, k: Key, s: Stat, rows: seq<Rollout>, after: Tables)
    requires Sound(t) && InBounds(s) && after == Put(t, k, s, rows) && LogSound(after)
    ensures Sound(after)
  {
    PutStats(t, k, s, rows);
    PutEdges(t, k, s, rows);
    PutNodes(t, k, s, rows);
  }

  lemma CountedInBounds(t: Tables, row: Rollout)
    requires StatsSound(t) && row.cost >= 0.0 && row.duration >= 0.0
    ensures InBounds(Counted(t.stats, row))
  {}

  lemma LogStaysSound(t: Tables, row: Rollout, after: Tables)
    requires LogSound(t) && row.cost >= 0.0 && row.duration >= 0.0
    requires after.rollouts == t.rollouts + [row] && after.stats.Keys == t.stats.Keys + {KeyOf(row)}
    ensures LogSound(after)
  {}

  lemma RecordSound(t: Tables, row: Rollout)
    requires Sound(t) && row.cost >= 0.0 && row.duration >= 0.0
    ensures Sound(Recorded(t, row))
  {
    CountedInBounds(t, row);
    AppendSound(t, KeyOf(row), Counted(t.stats, row), row, t.rollouts + [row], Recorded(t, row));
  }

  lemma AppendSound(t: Tables, k: Key, s: Stat, row: Rollout, rows: seq<Rollout>, after: Tables)
    requires Sound(t) && InBounds(s) && k == KeyOf(row) && row.cost >= 0.0 && row.duration >= 0.0
    requires rows == t.rollouts + [row] && after == Put(t, k, s, rows)
    ensures Sound(after)
  {
    LogStaysSound(t, row, after);
    PutSound(t, k, s, rows, after);
  }

  lemma LogKeptSound(t: Tables, after: Tables)
    requires LogSound(t) && after.rollouts == t.rollouts && t.stats.Keys <= after.stats.Keys
    ensures LogSound(after)
  {}

  lemma ReplaceSound(t: Tables, k: Key, s: Stat)
    requires Sound(t) && InBounds(s)
    ensures Sound(Replaced(t, k, s))
  {
    LogKeptSound(t, Put(t, k, s, t.rollouts));
    PutSound(t, k, s, t.rollouts, Put(t, k, s, t.rollouts));
  }

  lemma StepSound(t: Tables, c: Call)
    requires Sound(t)
    ensures Sound(Step(t, c))
  {
    if Succeeds(c) {
      match c
      case Record(r, _) => RecordSound(t, StoredRow(r));
      case Upsert(k, s, _) => ReplaceSound(t, StoredKey(k), StoredStat(s));
    }
  }

  /** The rows that the successful calls among these record, in order. */
  function Logged(calls: seq<Call>): seq<Rollout> {
    if calls == [] then []
    else
      var c := calls[|calls| - 1];
      Logged(calls[..|calls| - 1]) + if c.Record? && Succeeds(c) then [StoredRow(c.rollout)] else []
  }

  lemma {:induction false} LogIsExact(t: Tables, calls: seq<Call>)
    ensures Run(t, calls).rollouts == t.rollouts + Logged(calls)
  {
    if calls != [] { LogIsExact(t, calls[..|calls| - 1]); }
  }

  ghost predicate Extends(t: Tables, u: Tables) {
    && (forall n <- t.nodes :: n in u.nodes && u.nodes[n] == t.nodes[n])
    && |t.rollouts| <= |u.rollouts| && u.rollouts[..|t.rollouts|] == t.rollouts
  }

  lemma PutExtends(t: Tables, k: Key, s: Stat, rows: seq<Rollout>)
    requires |t.rollouts| <= |rows| && rows[..|t.rollouts|] == t.rollouts
    ensures Extends(t, Put(t, k, s, rows))
  {}

  lemma StepExtends(t: Tables, c: Call)
    ensures Extends(t, Step(t, c))
  {
    if Succeeds(c) {
      match c
      case Record(r, _) =>
        var row := StoredRow(r);
        PutExtends(t, KeyOf(row), Counted(t.stats, row), t.rollouts + [row]);
      case Upsert(k, s, _) => PutExtends(t, StoredKey(k), StoredStat(s), t.rollouts);
    }
  }

  /** A node keeps the kind it was first inserted with, and no row of the log is lost or altered. */
  lemma {:induction false} NothingRewritten(t: Tables, calls: seq<Call>)
    ensures Extends(t, Run(t, calls))
  {
    if calls != [] {
      var mid := Run(t, calls[..|calls| - 1]);
      NothingRewritten(t, calls[..|calls| - 1]);
      StepExtends(mid, calls[|calls| - 1]);
    }
  }
}
