/** What creating, updating and unlinking tasks changes in the tables and what it leaves alone, column
    by column, and what the ready query reads from them (internal/graph/dag.go). */
module TableLaws {
  import opened Options
  import opened Text
  import opened Tasks
  import opened DagState

  const COLUMNS: set<string> :=
    {"title", "description", "status", "priority", "type", "assignee", "labels", "estimate_minutes", "parent_id",
     "acceptance", "design", "notes", "project", "error_log"}

  const TEXTS: set<string> :=
    {"title", "description", "assignee", "parent_id", "acceptance", "design", "notes", "error_log"}

  function KeyName(k: string): string {
    TrimSpace(ToLower(k))
  }

  /** Some key names the column, in any case and with white space around it. */
  ghost predicate Sets(f: Fields, column: string) {
    exists k :: k in f && KeyName(k) == column
  }

  lemma KeyOfColumn(k: string)
    ensures
      match ParseColumn(k)
      case None => KeyName(k) !in COLUMNS
      case Some(Status) => KeyName(k) == "status"
      case Some(Priority) => KeyName(k) == "priority"
      case Some(Kind) => KeyName(k) == "type"
      case Some(Labels) => KeyName(k) == "labels"
      case Some(Estimate) => KeyName(k) == "estimate_minutes"
      case Some(Project) => KeyName(k) == "project"
      case Some(FreeText(name)) => KeyName(k) == name && name in TEXTS
  {}

  lemma ParsedAt(f: Fields, k: string)
    requires DistinctKeys(f) && k in f && ParseColumn(k).Some?
    ensures ParseColumn(k).value in Parse(f).assignments && Parse(f).assignments[ParseColumn(k).value] == f[k]
  {
    assert Columns(f)[k] == ParseColumn(k);
  }

  lemma ParsedOnly(f: Fields, c: Column) returns (k: string)
    requires DistinctKeys(f) && c in Parse(f).assignments
    ensures k in f && ParseColumn(k) == Some(c)
  {
    k :| k in Columns(f) && Columns(f)[k].Some? && Columns(f)[k].value == c;
  }

  lemma RecognizedMeans(f: Fields)
    requires DistinctKeys(f)
    ensures Parse(f).unrecognized <==> exists k :: k in f && KeyName(k) !in COLUMNS
  {
    forall k | k in f ensures Columns(f)[k].None? <==> KeyName(k) !in COLUMNS { KeyOfColumn(k); }
  }

  /** A successful update replaces one row by its assignment. */
  lemma UpdateRow(s: State, rawId: string, f: Fields)
    requires DistinctKeys(f) && f != map[] && Update(s, rawId, f).1.Ok?
    ensures
      var id, a := TrimSpace(rawId), Parse(f).assignments;
      && id in s.tasks && Coercible(a)
      && Update(s, rawId, f).0 == s.(tasks := s.tasks[id := Assigned(s.tasks[id], a)])
  {}

  /** The row holds the value under the column it was given for. */
  predicate Holds(row: Row, key: string, v: Value) {
    && (key == "status" ==> row.status == NormalizeStatus(v.text))
    && (key == "priority" ==> v.num == Some(row.priority))
    && (key == "type" ==> row.kind == NormalizeType(v.text))
    && (key == "labels" ==> v.labels == Some(row.labels))
    && (key == "estimate_minutes" ==> v.num == Some(row.estimateMinutes))
    && (key == "project" ==> row.project == v.text)
    && (key in TEXTS ==> key in row.texts && row.texts[key] == v.text)
  }

  lemma AssignedHolds(row: Row, a: map<Column, Value>, k: string, c: Column)
    requires Coercible(a) && ParseColumn(k) == Some(c) && c in a
    ensures Holds(Assigned(row, a), KeyName(k), a[c])
  {
    KeyOfColumn(k);
    var now := Assigned(row, a);
    if c.FreeText? {
      AssignedFreeText(row, a, c.name);
      TextHolds(now, c.name, a[c]);
    } else {
      assert KeyName(k) !in TEXTS;
    }
  }

  lemma TextHolds(row: Row, name: string, v: Value)
    requires name in TEXTS && name in row.texts && row.texts[name] == v.text
    ensures Holds(row, name, v)
  {}

  lemma AssignedFreeText(row: Row, a: map<Column, Value>, name: string)
    requires Coercible(a) && FreeText(name) in a
    ensures name in Assigned(row, a).texts && Assigned(row, a).texts[name] == a[FreeText(name)].text
  {}

  /** Each column that the fields name holds afterwards the value given for it. */
  lemma UpdateSets(s: State, rawId: string, f: Fields, k: string)
    requires DistinctKeys(f) && k in f && Update(s, rawId, f).1.Ok?
    ensures
      var id, t := TrimSpace(rawId), Update(s, rawId, f).0;
      id in s.tasks && id in t.tasks && Holds(t.tasks[id], KeyName(k), f[k])
  {
    UpdateRow(s, rawId, f);
    KeyOfColumn(k);
    if ParseColumn(k).Some? {
      ParsedAt(f, k);
      AssignedHolds(s.tasks[TrimSpace(rawId)], Parse(f).assignments, k, ParseColumn(k).value);
    }
  }

  lemma NotSet(f: Fields, c: Column, column: string)
    requires DistinctKeys(f) && !Sets(f, column)
    requires column == match c
                       case Status => "status"
                       case Priority => "priority"
                       case Kind => "type"
                       case Labels => "labels"
                       case Estimate => "estimate_minutes"
                       case Project => "project"
                       case FreeText(name) => name
    ensures c !in Parse(f).assignments
  {
    if c in Parse(f).assignments {
      var k := ParsedOnly(f, c);
      KeyOfColumn(k);
    }
  }

  /** Both rows hold the same text, or none, under the name. */
  predicate SameText(row: Row, now: Row, name: string) {
    (name in now.texts <==> name in row.texts) && (name in row.texts ==> now.texts[name] == row.texts[name])
  }

  /** The columns that the fields do not name are the same in both rows. */
  ghost predicate KeepsUnnamed(row: Row, now: Row, f: Fields) {
    && (!Sets(f, "status") ==> now.status == row.status)
    && (!Sets(f, "priority") ==> now.priority == row.priority)
    && (!Sets(f, "type") ==> now.kind == row.kind)
    && (!Sets(f, "labels") ==> now.labels == row.labels)
    && (!Sets(f, "estimate_minutes") ==> now.estimateMinutes == row.estimateMinutes)
    && (!Sets(f, "project") ==> now.project == row.project)
    && forall name :: !Sets(f, name) ==> SameText(row, now, name)
  }

  lemma AssignedText(row: Row, a: map<Column, Value>, name: string)
    requires Coercible(a) && FreeText(name) !in a
    ensures SameText(row, Assigned(row, a), name)
  {}

  lemma AssignedKeeps(row: Row, f: Fields)
    requires DistinctKeys(f) && Coercible(Parse(f).assignments)
    ensures KeepsUnnamed(row, Assigned(row, Parse(f).assignments), f)
  {
    var a := Parse(f).assignments;
    NotSetAny(f, a);
    forall name | !Sets(f, name) ensures SameText(row, Assigned(row, a), name) {
      NotSet(f, FreeText(name), name);
      AssignedText(row, a, name);
    }
  }

  lemma NotSetAny(f: Fields, a: map<Column, Value>)
    requires DistinctKeys(f) && a == Parse(f).assignments
    ensures Sets(f, "status") || Status !in a
    ensures Sets(f, "priority") || Priority !in a
    ensures Sets(f, "type") || Kind !in a
    ensures Sets(f, "labels") || Labels !in a
    ensures Sets(f, "estimate_minutes") || Estimate !in a
    ensures Sets(f, "project") || Project !in a
  {
    if !Sets(f, "status") { NotSet(f, Status, "status"); }
    if !Sets(f, "priority") { NotSet(f, Priority, "priority"); }
    if !Sets(f, "type") { NotSet(f, Kind, "type"); }
    if !Sets(f, "labels") { NotSet(f, Labels, "labels"); }
    if !Sets(f, "estimate_minutes") { NotSet(f, Estimate, "estimate_minutes"); }
    if !Sets(f, "project") { NotSet(f, Project, "project"); }
  }

  lemma KeepsSame(row: Row, f: Fields)
    ensures KeepsUnnamed(row, row, f)
  {}

  /** An update that fails, or has nothing to do, changes nothing. */
  lemma UpdateNothing(s: State, rawId: string, f: Fields)
    requires DistinctKeys(f) && (f == map[] || Update(s, rawId, f).1.Err?)
    ensures Update(s, rawId, f).0 == s
  {}

  /** Whatever it answers, an update leaves the edges and all other rows alone, and the row it is for
      either as it was or assigned. */
  lemma UpdateOneRow(s: State, rawId: string, f: Fields, x: string)
    requires DistinctKeys(f) && x in s.tasks
    ensures
      var (t, a) := (Update(s, rawId, f).0, Parse(f).assignments);
      && t.edges == s.edges && t.tasks.Keys == s.tasks.Keys && x in t.tasks
      && (t.tasks[x] == s.tasks[x]
          || (x == TrimSpace(rawId) && Coercible(a) && t.tasks[x] == Assigned(s.tasks[x], a)))
  {
    if f != map[] && Update(s, rawId, f).1.Ok? {
      UpdateRow(s, rawId, f);
    } else {
      UpdateNothing(s, rawId, f);
    }
  }

  lemma EitherKeeps(row: Row, now: Row, f: Fields)
    requires DistinctKeys(f)
    requires
      var a := Parse(f).assignments;
      now == row || (Coercible(a) && now == Assigned(row, a))
    ensures KeepsUnnamed(row, now, f)
  {
    if now == row { KeepsSame(row, f); } else { AssignedKeeps(row, f); }
  }

  /** Every other column, every other row and all edges stay as they are. */
  lemma UpdateKeeps(s: State, rawId: string, f: Fields, x: string)
    requires DistinctKeys(f) && x in s.tasks
    ensures
      var t := Update(s, rawId, f).0;
      && t.edges == s.edges && t.tasks.Keys == s.tasks.Keys && x in t.tasks
      && (x != TrimSpace(rawId) ==> t.tasks[x] == s.tasks[x])
      && KeepsUnnamed(s.tasks[x], t.tasks[x], f)
  {
    UpdateOneRow(s, rawId, f, x);
    EitherKeeps(s.tasks[x], Update(s, rawId, f).0.tasks[x], f);
  }

  /** The value can be stored under the column. */
  predicate Suits(key: string, v: Value) {
    && (key == "priority" || key == "estimate_minutes" ==> v.num.Some?)
    && (key == "labels" ==> v.labels.Some?)
  }

  /** The values of the fields suit their columns. */
  ghost predicate AllSuit(f: Fields) {
    forall k :: k in f ==> Suits(KeyName(k), f[k])
  }

  lemma SuitsParsed(f: Fields, a: map<Column, Value>, k: string)
    requires DistinctKeys(f) && a == Parse(f).assignments && Coercible(a) && k in f
    ensures Suits(KeyName(k), f[k])
  {
    KeyOfColumn(k);
    if ParseColumn(k).Some? { ParsedAt(f, k); }
  }

  lemma ParsedSuits(f: Fields, a: map<Column, Value>, c: Column)
    requires DistinctKeys(f) && a == Parse(f).assignments && AllSuit(f) && c in a
    ensures Fits(c, a[c])
  {
    var k := ParsedOnly(f, c);
    KeyOfColumn(k);
    ParsedAt(f, k);
  }

  lemma CoercibleMeans(f: Fields)
    requires DistinctKeys(f)
    ensures Coercible(Parse(f).assignments) <==> AllSuit(f)
  {
    var a := Parse(f).assignments;
    if Coercible(a) {
      forall k | k in f ensures Suits(KeyName(k), f[k]) { SuitsParsed(f, a, k); }
    }
    if AllSuit(f) {
      if Priority in a { ParsedSuits(f, a, Priority); }
      if Estimate in a { ParsedSuits(f, a, Estimate); }
      if Labels in a { ParsedSuits(f, a, Labels); }
    }
  }

  /** A dependency of the task is missing or not terminal. */
  ghost predicate HasOpenDependency(s: State, id: string) {
    exists d :: (id, d) in s.edges
      && (d !in s.tasks
          || ToLower(s.tasks[d].status) !in {"closed", "completed", "escalated", "plan_failed", "canceled", "done"})
  }

  lemma UnblockedMeans(s: State, id: string)
    ensures Unblocked(s, id) <==> !HasOpenDependency(s, id)
  {
    DepsMembership(s, id);
  }

  /** In a valid state the ready query answers the ready tasks of the project that are no containers
      and wait for nothing. */
  lemma ReadyMeans(s: State, project: string, id: string)
    requires Valid(s)
    ensures id in ReadySet(s, project) <==>
      && id in s.tasks && s.tasks[id].project == project && s.tasks[id].status == "ready"
      && s.tasks[id].kind !in {"epic", "whale"} && !HasOpenDependency(s, id)
  {
    if id in s.tasks {
      NormalizeNormal(s.tasks[id].status);
      NormalizeNormal(s.tasks[id].kind);
      DepsMembership(s, id);
      forall d | (id, d) in s.edges ensures d in s.tasks { assert (id, d).1 in s.tasks; }
      assert InReadyQuery(s, project, id) <==>
        s.tasks[id].project == project && s.tasks[id].status == "ready"
        && s.tasks[id].kind !in {"epic", "whale"} && Unblocked(s, id);
      UnblockedMeans(s, id);
    }
  }

  lemma ToReadyMeans(f: Fields)
    requires DistinctKeys(f)
    ensures ToReady(Parse(f).assignments) <==>
      exists k :: k in f && KeyName(k) == "status" && NormalizeStatus(f[k].text) == "ready"
  {
    if Status in Parse(f).assignments {
      var k := ParsedOnly(f, Status);
      KeyOfColumn(k);
      ParsedAt(f, k);
      NormalizeNormal(f[k].text);
      NormalizeNormal(NormalizeStatus(f[k].text));
    }
    if k :| k in f && KeyName(k) == "status" && NormalizeStatus(f[k].text) == "ready" {
      KeyOfColumn(k);
      ParsedAt(f, k);
      NormalizeNormal(NormalizeStatus(f[k].text));
    }
  }

  /** An update succeeds exactly when there is an id and either nothing to do or a stored task, only
      known columns, suitable values, and no open dependency in the way of a ready status. */
  lemma UpdateSucceedsIff(s: State, rawId: string, f: Fields)
    requires DistinctKeys(f)
    ensures Update(s, rawId, f).1.Ok? <==>
      && TrimSpace(rawId) != ""
      && (f == map[]
          || (&& TrimSpace(rawId) in s.tasks
              && AllSuit(f) && (forall k :: k in f ==> KeyName(k) in COLUMNS)
              && !((exists k :: k in f && KeyName(k) == "status" && NormalizeStatus(f[k].text) == "ready")
                   && HasOpenDependency(s, TrimSpace(rawId)))))
  {
    if f != map[] {
      RecognizedMeans(f);
      CoercibleMeans(f);
      ToReadyMeans(f);
      UnblockedMeans(s, TrimSpace(rawId));
      SomethingToSet(f);
    }
  }

  lemma SomethingToSet(f: Fields)
    requires DistinctKeys(f) && f != map[]
    ensures (forall k :: k in f ==> KeyName(k) in COLUMNS) ==> Parse(f).assignments != map[]
  {
    var k :| k in f;
    KeyOfColumn(k);
    if KeyName(k) in COLUMNS { ParsedAt(f, k); }
  }

  /** Closing a stored task writes "closed" into its status and nothing else. */
  lemma CloseExact(s: State, rawId: string)
    requires TrimSpace(rawId) != "" && TrimSpace(rawId) in s.tasks
    ensures
      var id := TrimSpace(rawId);
      Close(s, rawId) == (s.(tasks := s.tasks[id := s.tasks[id].(status := "closed")]), Ok(()))
  {
    var id := TrimSpace(rawId);
    TrimSpaceFacts(rawId);
    TrimSpaceFacts(id);
    CloseTrimmed(s, id, rawId);
    OneStatus(s, id, CLOSED);
  }

  lemma CloseTrimmed(s: State, id: string, rawId: string)
    requires id == TrimSpace(rawId) == TrimSpace(id) && id != "" && Trimmed(id) && id in s.tasks
    ensures Close(s, rawId) == (WithStatus(s, {id}, CLOSED), Ok(()))
  {
    Literals();
    UpdateStatus(s, id, CLOSED);
    assert Update(s, rawId, StatusField(CLOSED)) == Update(s, id, StatusField(CLOSED));
  }

  lemma OneStatus(s: State, id: string, status: string)
    requires id in s.tasks
    ensures WithStatus(s, {id}, status) == s.(tasks := s.tasks[id := s.tasks[id].(status := status)])
  {
    assert WithStatus(s, {id}, status).tasks == s.tasks[id := s.tasks[id].(status := status)];
  }

  // ---------------------------------------------------------------- creating and unlinking

  lemma {:induction false} InsertExact(s: State, stored: Row, project: string, draws: seq<nat>, k: nat)
    requires k <= |draws| && forall i :: 0 <= i < k ==> project + "-" + Hex6(draws[i]) in s.tasks
    requires k < |draws| ==> project + "-" + Hex6(draws[k]) !in s.tasks
    ensures
      InsertFresh(s, stored, project, draws) ==
      if k == |draws| then (s, Err(AttemptsExhausted))
      else
        var id := project + "-" + Hex6(draws[k]);
        (s.(tasks := s.tasks[id := stored]), Ok(id))
    decreases |draws|
  {
    if k > 0 {
      assert forall i :: 0 <= i < k - 1 ==> draws[1..][i] == draws[i + 1];
      InsertExact(s, stored, project, draws[1..], k - 1);
    }
  }

  /** The first draw that does not collide gives the id, and the row is stored with its status and
      type normalised and its project trimmed. */
  lemma CreateExact(s: State, row: Row, draws: seq<nat>, k: nat)
    requires TrimSpace(row.project) != "" && k <= |draws|
    requires forall i :: 0 <= i < k ==> TrimSpace(row.project) + "-" + Hex6(draws[i]) in s.tasks
    requires k < |draws| ==> TrimSpace(row.project) + "-" + Hex6(draws[k]) !in s.tasks
    ensures
      var (t, r) := Create(s, row, draws);
      if k == |draws| then t == s && r == Err(AttemptsExhausted)
      else
        var id := TrimSpace(row.project) + "-" + Hex6(draws[k]);
        && r == Ok(id) && t.edges == s.edges
        && t.tasks == s.tasks[id := Row(NormalizeStatus(row.status), row.priority, NormalizeType(row.kind),
            row.labels,
                                        row.estimateMinutes, TrimSpace(row.project), row.texts)]
  {
    InsertExact(s, StoredRow(row), TrimSpace(row.project), draws, k);
  }

  function HexDigit(c: char): int {
    if '0' <= c <= '9' then (c - '0') as int else if 'a' <= c <= 'f' then (c - 'a') as int + 10 else 0
  }

  function HexValue(s: string): int {
    if s == "" then 0 else 16 * HexValue(s[..|s| - 1]) + HexDigit(s[|s| - 1])
  }

  lemma HexDigitMeans(d: nat)
    requires d < 16
    ensures HexDigit(HEX[d]) == d
  {}

  lemma HexSnoc(s: string, d: nat)
    requires d < 16
    ensures HexValue(s + [HEX[d]]) == 16 * HexValue(s) + d
  {
    assert (s + [HEX[d]])[..|s|] == s;
    HexDigitMeans(d);
  }

  lemma HexStep(s: string, n: nat)
    requires HexValue(s) == n / 16
    ensures HexValue(s + [HEX[n % 16]]) == n
  {
    HexSnoc(s, n % 16);
  }

  lemma Quotients(n: nat)
    ensures n / 0x10 / 16 == n / 0x100 && n / 0x100 / 16 == n / 0x1000 && n / 0x1000 / 16 == n / 0x10000
    ensures n / 0x10000 / 16 == n / 0x100000
  {}

  lemma HexHigh(n: nat)
    requires n < 0x1000000
    ensures |Hex6(n)| == 6 && HexValue(Hex6(n)[..3]) == n / 0x1000
  {
    var a, b, c, s := n / 0x100000, n / 0x10000, n / 0x1000, Hex6(n);
    Quotients(n);
    assert [] + [HEX[a % 16]] == s[..1];
    HexStep([], a);
    assert s[..1] + [HEX[b % 16]] == s[..2];
    HexStep(s[..1], b);
    assert s[..2] + [HEX[c % 16]] == s[..3];
    HexStep(s[..2], c);
  }

  /** The suffix is six hexadecimal digits, most significant first. */
  lemma HexMeans(n: nat)
    requires n < 0x1000000
    ensures |Hex6(n)| == 6 && HexValue(Hex6(n)) == n
  {
    var d, e, s := n / 0x100, n / 0x10, Hex6(n);
    HexHigh(n);
    Quotients(n);
    assert s[..3] + [HEX[d % 16]] == s[..4];
    HexStep(s[..3], d);
    assert s[..4] + [HEX[e % 16]] == s[..5];
    HexStep(s[..4], e);
    assert s[..5] + [HEX[n % 16]] == s;
    HexStep(s[..5], n);
  }

  /** Removing an edge removes that one and nothing else. */
  lemma RemoveEdgeExact(s: State, from: string, to: string)
    ensures
      var (t, r) := RemoveEdge(s, from, to);
      && t.tasks == s.tasks && (r.Ok? <==> TrimSpace(from) != "" && TrimSpace(to) != "")
      && forall a, b :: (a, b) in t.edges <==>
           (a, b) in s.edges && !(r.Ok? && a == TrimSpace(from) && b == TrimSpace(to))
  {}

  /** A status is read without surrounding white space and in lower case; a blank one means open, and a
      blank type means task. */
  lemma NormalizeMeans(a: string, x: string, b: string)
    requires AllSpace(a) && AllSpace(b) && Trimmed(x)
    ensures NormalizeStatus(a + x + b) == if x == "" then "open" else ToLower(x)
    ensures NormalizeType(a + x + b) == if x == "" then "task" else ToLower(x)
  {
    var la, lx, lb := ToLower(a), ToLower(x), ToLower(b);
    assert ToLower(a + x + b) == la + lx + lb;
    forall i | 0 <= i < |a| ensures IsSpace(la[i]) { LowerKeepsSpace(a[i]); }
    forall i | 0 <= i < |b| ensures IsSpace(lb[i]) { LowerKeepsSpace(b[i]); }
    if x != "" {
      LowerKeepsSpace(x[0]);
      LowerKeepsSpace(x[|x| - 1]);
    }
    TrimPadded(la, lx, lb);
  }
}
