/** Task rows, their status and type vocabulary, and the normalisation applied to both
    (internal/graph/task.go, and the helpers of internal/graph/dag.go and graph.go). */
module Tasks {
  import opened Text

  /** A stored row.  `texts` holds the free-text columns by name; timestamps are not modelled. */
  datatype Row = Row(
    status: string,
    priority: int,
    kind: string,
    labels: seq<string>,
    estimateMinutes: int,
    project: string,
    texts: map<string, string>)

  /** A row as handed to callers: its key and the targets of its outgoing edges. */
  datatype Task = Task(id: string, row: Row, dependsOn: seq<string>)

  const OPEN := "open"
  const READY := "ready"
  const CLOSED := "closed"

  /** The statuses that resolve a dependency. */
  predicate Terminal(s: string) {
    s == "closed" || s == "completed" || s == "escalated" || s == "plan_failed" || s == "canceled" || s == "done"
  }

  function NormalizeStatus(status: string): string {
    var s := TrimSpace(ToLower(status));
    if s == "" then OPEN else s
  }

  function NormalizeType(kind: string): string {
    var k := TrimSpace(ToLower(kind));
    if k == "" then "task" else k
  }

  /** The form in which statuses and types are stored. */
  predicate Normal(s: string) {
    s != "" && Trimmed(s) && AllLower(s)
  }

  /** Normalisation produces normal strings and leaves them alone, as does SQL's lower(). */
  lemma NormalizeNormal(s: string)
    ensures Normal(NormalizeStatus(s)) && Normal(NormalizeType(s))
    ensures Normal(s) ==> NormalizeStatus(s) == s && NormalizeType(s) == s && ToLower(s) == s && TrimSpace(s) == s
  {
    TrimSpaceFacts(s);
    TrimSpaceFacts(ToLower(s));
    assert AllLower(TrimSpace(ToLower(s)));
  }

  lemma Literals()
    ensures Normal(OPEN) && Normal(READY) && Normal(CLOSED)
    ensures !Terminal(OPEN) && !Terminal(READY) && Terminal(CLOSED)
  {}

  /** The SQL form of the test: no trimming. */
  predicate SqlTerminal(status: string) {
    Terminal(ToLower(status))
  }

  /** The form AutoUnblockDependents uses. */
  predicate IsTerminalStatus(status: string) {
    Terminal(NormalizeStatus(status))
  }

  /** The form the in-memory filter uses. */
  predicate IsClosedTask(status: string) {
    var s := NormalizeStatus(status);
    s == "closed" || s == "completed" || s == "escalated" || s == "plan_failed" || s == "canceled" || s == "done"
  }

  predicate IsDispatchable(row: Row) {
    NormalizeStatus(row.status) == READY
  }

  predicate IsContainer(row: Row) {
    var k := ToLower(TrimSpace(row.kind));
    k == "epic" || k == "whale"
  }

  /** The three spellings of "terminal" agree on stored statuses. */
  lemma TerminalTestsAgree(status: string)
    requires Normal(status)
    ensures SqlTerminal(status) == IsTerminalStatus(status) == IsClosedTask(status) == Terminal(status)
  {
    NormalizeNormal(status);
  }

  /** On any status at all, SQL's test and the others agree exactly when there is no surrounding
      white space to trim, or nothing terminal inside it. */
  lemma TerminalTestsAgreeIff(status: string)
    ensures IsTerminalStatus(status) == IsClosedTask(status)
    ensures SqlTerminal(status) == IsTerminalStatus(status)
            <==> Trimmed(ToLower(status)) || !Terminal(TrimSpace(ToLower(status)))
  {
    TrimSpaceFacts(ToLower(status));
    TerminalTrimmed(ToLower(status));
  }

  lemma TerminalTrimmed(s: string)
    ensures Terminal(s) ==> Trimmed(s)
    ensures !Terminal("") && !Terminal(OPEN)
  {}

  /** A status on which they do not. */
  lemma TerminalTestsDisagree()
    ensures IsClosedTask(" done") && IsTerminalStatus(" done") && !SqlTerminal(" done")
  {
    assert ToLower(" done") == " done";
    assert TrimLeft(" done") == TrimLeft("done") by { assert " done"[1..] == "done"; }
  }

  predicate HasStageLabel(row: Row) {
    exists i :: 0 <= i < |row.labels| && HasPrefix(row.labels[i], "stage:")
  }
}
