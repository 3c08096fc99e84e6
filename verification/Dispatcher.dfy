/** Dispatched agent processes and the temporary files they own
    (internal/dispatch/dispatch.go). */
module Dispatching {
  import opened Options
  import opened Ordering

  type File = string

  datatype RunState = Running | Exited

  /** A tracked process.  The prompt and parameter files go once its end was seen. */
  datatype Proc = Proc(state: RunState, exitCode: int, output: File, tmp: Option<File>, temps: seq<File>)

  /** A Dispatch call under way: creating its files, removing them after a failure, or with its
      process started but not yet tracked. */
  datatype Flight =
    | Creating(created: seq<File>)
    | Aborting(left: seq<File>)
    | Started(created: seq<File>, pid: int)

  /** A monitor of a process: not yet looked it up, or waiting for it to end. */
  datatype Watch = Spawned | Waiting

  datatype System = System(
    files: set<File>,
    procs: map<int, Proc>,
    flights: map<nat, Flight>,
    watches: map<int, Watch>)

  const IDLE := System({}, map[], map[], map[])

  const MAX_ARG := 128 * 1024

  /** Prompt, output, agent, thinking and provider file. */
  const FILES := 5

  datatype Event =
    | Begin(id: nat, agentSize: nat)
    | Create(id: nat, file: File)
    | CreateFails(id: nat)
    | WriteFails(id: nat)
    | StartFails(id: nat)
    | RemoveNext(id: nat)
    | Start(id: nat, pid: int)
    | Register(id: nat)
    | Look(pid: int)
    | WaitDone(pid: int, exitCode: int)
    | Kill(pid: int)
    | Cleanup(pid: int)

  /** The order in which a failing Dispatch removes what it created before. */
  function RemovalOrder(created: seq<File>): seq<File> {
    if |created| <= 2 then created else created[2..] + created[..2]
  }

  /** A pid the operating system may hand out: not of a process that is tracked, started or waited for. */
  predicate FreshPid(s: System, pid: int) {
    && pid !in s.procs && pid !in s.watches
    && forall i <- s.flights :: s.flights[i].Started? ==> s.flights[i].pid != pid
  }

  predicate Enabled(s: System, e: Event) {
    match e
    case Begin(id, _) => id !in s.flights
    case Create(id, f) => id in s.flights && s.flights[id].Creating? && |s.flights[id].created| < FILES
        && f !in s.files
    case CreateFails(id) => id in s.flights && s.flights[id].Creating? && |s.flights[id].created| < FILES
    case WriteFails(id) => id in s.flights && s.flights[id].Creating? && |s.flights[id].created| in {1, 3, 4, 5}
    case StartFails(id) => id in s.flights && s.flights[id].Creating? && |s.flights[id].created| == FILES
    case RemoveNext(id) => id in s.flights && s.flights[id].Aborting?
    case Start(id, pid) => id in s.flights && s.flights[id].Creating? && |s.flights[id].created| == FILES
        && FreshPid(s, pid)
    case Register(id) => id in s.flights && s.flights[id].Started? && |s.flights[id].created| == FILES
    case Look(pid) => pid in s.watches && s.watches[pid].Spawned?
    case WaitDone(pid, _) => pid in s.watches && s.watches[pid].Waiting?
    case Kill(_) => true
    case Cleanup(_) => true
  }

  // ---------------------------------------------------------------- the steps

  function Temps(p: Proc): seq<File> {
    (if p.tmp.Some? then [p.tmp.value] else []) + p.temps
  }

  function ProcFiles(p: Proc): seq<File> {
    [p.output] + Temps(p)
  }

  function FlightFiles(f: Flight): seq<File> {
    match f
    case Creating(created) => created
    case Aborting(left) => left
    case Started(created, _) => created
  }

  function Tracked(created: seq<File>): Proc
    requires |created| == FILES
  {
    Proc(Running, -1, created[1], Some(created[0]), created[2..])
  }

  function Killed(procs: map<int, Proc>, pid: int): map<int, Proc> {
    if pid in procs && procs[pid].state == Running then
      procs[pid := procs[pid].(state := Exited, exitCode := -1)]
    else procs
  }

  function Ended(p: Proc, exitCode: int): Proc {
    Proc(Exited, exitCode, p.output, None, [])
  }

  function Apply(s: System, e: Event): System
    requires Enabled(s, e)
  {
    match e
    case Begin(id, size) => if size > MAX_ARG then s else s.(flights := s.flights[id := Creating([])])
    case Create(id, f) =>
      s.(files := s.files + {f}, flights := s.flights[id := Creating(s.flights[id].created + [f])])
    case CreateFails(id) => s.(flights := s.flights[id := Aborting(RemovalOrder(s.flights[id].created))])
    case WriteFails(id) =>
      var c := s.flights[id].created;
      var n := |c| - 1;
      s.(flights := s.flights[id := Aborting([c[n]] + RemovalOrder(c[..n]))])
    case StartFails(id) => s.(flights := s.flights[id := Aborting(s.flights[id].created)])
    case RemoveNext(id) =>
      var left := s.flights[id].left;
      if left == [] then s.(flights := s.flights - {id})
      else s.(files := s.files - {left[0]}, flights := s.flights[id := Aborting(left[1..])])
    case Start(id, pid) => s.(flights := s.flights[id := Started(s.flights[id].created, pid)])
    case Register(id) =>
      var f := s.flights[id];
      s.(procs := s.procs[f.pid := Tracked(f.created)], flights := s.flights - {id},
         watches := s.watches[f.pid := Spawned])
    case Look(pid) => s.(watches := if pid in s.procs then s.watches[pid := Waiting] else s.watches - {pid})
    case WaitDone(pid, code) =>
      if pid in s.procs then
        s.(files := s.files - Elements(Temps(s.procs[pid])), procs := s.procs[pid := Ended(s.procs[pid], code)],
           watches := s.watches - {pid})
      else s.(watches := s.watches - {pid})
    case Kill(pid) => s.(procs := Killed(s.procs, pid))
    case Cleanup(pid) =>
      if pid in s.procs then s.(files := s.files - Elements(ProcFiles(s.procs[pid])), procs := s.procs - {pid}) else s
  }

  // ---------------------------------------------------------------- the dispatcher

  /** What the file system does to a file that is to be written. */
  datatype Outcome = Written | NotCreated | NotWritten

  class Dispatcher {
    var files: set<File>
    var processes: map<int, Proc>

    ghost function Value(flights: map<nat, Flight>, watches: map<int, Watch>): System
      reads this
    {
      System(files, processes, flights, watches)
    }

    constructor ()
      ensures Value(map[], map[]) == IDLE
    {
      files, processes := {}, map[];
    }

    method WriteToTempFile(name: File, outcome: Outcome) returns (ok: bool)
      requires name !in files
      modifies this`files
      ensures ok <==> outcome.Written?
      ensures files == if ok then old(files) + {name} else old(files)
    {
      if outcome.NotCreated? { return false; }
      files := files + {name};
      if outcome.NotWritten? {
        files := files - {name};
        return false;
      }
      return true;
    }

    method RemoveAll(names: seq<File>)
      modifies this`files
      ensures files == old(files) - Elements(names)
    {
      for i := 0 to |names|
        invariant files == old(files) - Elements(names[..i])
      {
        files := files - {names[i]};
        assert names[..i + 1] == names[..i] + [names[i]];
      }
      assert names[..|names|] == names;
    }

    /** The three parameter files, all or none. */
    method CommandArgs(names: seq<File>, outcomes: seq<Outcome>) returns (ok: bool)
      requires |names| == |outcomes| == 3 && Distinct(names) && forall n <- names :: n !in files
      modifies this`files
      ensures ok <==> forall o <- outcomes :: o.Written?
      ensures files == if ok then old(files) + Elements(names) else old(files)
    {
      assert names == [names[0], names[1], names[2]] && outcomes == [outcomes[0], outcomes[1], outcomes[2]];
      ok := WriteToTempFile(names[0], outcomes[0]);
      if !ok { return; }
      ok := WriteToTempFile(names[1], outcomes[1]);
      if !ok {
        files := files - {names[0]};
        return;
      }
      ok := WriteToTempFile(names[2], outcomes[2]);
      if !ok {
        files := files - {names[0]};
        files := files - {names[1]};
      }
    }

    /** The prompt and output files and then the parameter files, all or none. */
    method CreateFiles(prompt: File, output: File, params: seq<File>, written: Outcome, outputCreated: bool,
        outcomes: seq<Outcome>)
      returns (ok: bool)
      requires |params| == |outcomes| == 3 && Distinct(params) && forall n <- params :: n !in files
      requires prompt !in files && output !in files && prompt != output && prompt !in params && output !in params
      modifies this`files
      ensures ok <==> written.Written? && outputCreated && forall o <- outcomes :: o.Written?
      ensures files == if ok then old(files) + {prompt, output} + Elements(params) else old(files)
    {
      ok := WriteToTempFile(prompt, written);
      if !ok { return; }
      if !outputCreated {
        files := files - {prompt};
        return false;
      }
      files := files + {output};
      ok := CommandArgs(params, outcomes);
      if !ok {
        files := files - {prompt};
        files := files - {output};
      }
    }

    /** A Dispatch call on its own: a process tracked with its five files, or nothing left behind.
        Whatever else is in flight, that is where the steps of the call lead. */
    method Dispatch(agentSize: nat, prompt: File, output: File, params: seq<File>, written: Outcome,
                    outputCreated: bool, outcomes: seq<Outcome>, starts: bool, pid: int,
                    ghost id: nat, ghost flights: map<nat, Flight>, ghost watches: map<int, Watch>)
      returns (r: Option<int>)
      requires |params| == |outcomes| == 3 && Distinct(params) && forall n <- params :: n !in files
      requires prompt !in files && output !in files && prompt != output && prompt !in params && output !in params
      modifies this
      ensures r.Some? <==>
        agentSize <= 128 * 1024 && written.Written? && outputCreated && starts && forall o <- outcomes :: o.Written?
      ensures r.None? ==> files == old(files) && processes == old(processes)
      ensures r.Some? ==> r.value == pid && files == old(files) + {prompt, output} + Elements(params)
      ensures r.Some? ==> processes == old(processes)[pid := Proc(Running, -1, output, Some(prompt), params)]
      ensures
        id !in flights && FreshPid(old(Value(flights, watches)), pid) ==>
          Leads(old(Value(flights, watches)),
                CallEvents(id, agentSize, [prompt, output] + params,
                           FateOf(agentSize, written, outputCreated, outcomes, starts), pid),
                Value(flights, if r.Some? then watches[pid := Spawned] else watches))
    {
      ghost var fate, names := FateOf(agentSize, written, outputCreated, outcomes, starts), [prompt, output] + params;
      ghost var before := Value(flights, watches);
      if id !in flights && FreshPid(before, pid) { CallLeads(before, id, agentSize, names, fate, pid); }
      assert Elements(names) == {prompt, output} + Elements(params);
      if agentSize > MAX_ARG { return None; }
      var ok := CreateFiles(prompt, output, params, written, outputCreated, outcomes);
      if !ok { return None; }
      if !starts {
        files := files - {prompt};
        files := files - {output};
        RemoveAll(params);
        return None;
      }
      processes := processes[pid := Proc(Running, -1, output, Some(prompt), params)];
      return Some(pid);
    }

    /** What a monitor does under the lock once its process has ended. */
    method MonitorDone(pid: int, exitCode: int, ghost flights: map<nat, Flight>, ghost watches: map<int, Watch>)
      requires pid in watches && watches[pid].Waiting?
      modifies this
      ensures Value(flights, watches - {pid}) == Apply(old(Value(flights, watches)), WaitDone(pid, exitCode))
    {
      if pid !in processes { return; }
      var p := processes[pid];
      if p.tmp.Some? { files := files - {p.tmp.value}; }
      RemoveAll(p.temps);
      processes := processes[pid := Proc(Exited, exitCode, p.output, None, [])];
    }

    method KillHandle(pid: int, ghost flights: map<nat, Flight>, ghost watches: map<int, Watch>)
      modifies this`processes
      ensures Value(flights, watches) == Apply(old(Value(flights, watches)), Kill(pid))
    {
      if pid in processes && processes[pid].state == Running {
        processes := processes[pid := processes[pid].(state := Exited, exitCode := -1)];
      }
    }

    method CleanupProcess(pid: int, ghost flights: map<nat, Flight>, ghost watches: map<int, Watch>)
      modifies this
      ensures Value(flights, watches) == Apply(old(Value(flights, watches)), Cleanup(pid))
    {
      if pid in processes {
        var p := processes[pid];
        files := files - {p.output};
        if p.tmp.Some? { files := files - {p.tmp.value}; }
        RemoveAll(p.temps);
        processes := processes - {pid};
      }
    }
  }

  // ---------------------------------------------------------------- the steps of one call

  /** How a Dispatch call ends: refused, at the file that could not be created or written, at the
      process that did not start, or with a running process. */
  datatype Fate = TooLarge | NotCreatedAt(k: nat) | NotWrittenAt(k: nat) | NotStarted | Runs

  function FateOf(agentSize: nat, written: Outcome, outputCreated: bool, outcomes: seq<Outcome>, starts: bool): Fate
    requires |outcomes| == 3
  {
    if agentSize > MAX_ARG then TooLarge
    else if !written.Written? then Failed(written, 0)
    else if !outputCreated then NotCreatedAt(1)
    else if !outcomes[0].Written? then Failed(outcomes[0], 2)
    else if !outcomes[1].Written? then Failed(outcomes[1], 3)
    else if !outcomes[2].Written? then Failed(outcomes[2], 4)
    else if !starts then NotStarted
    else Runs
  }

  function Failed(o: Outcome, k: nat): Fate {
    if o.NotCreated? then NotCreatedAt(k) else NotWrittenAt(k)
  }

  predicate PossibleFate(agentSize: nat, f: Fate) {
    && (f.TooLarge? <==> agentSize > MAX_ARG)
    && (f.NotCreatedAt? ==> f.k < FILES)
    && (f.NotWrittenAt? ==> f.k in {0, 2, 3, 4})
  }

  function Creations(id: nat, names: seq<File>): seq<Event> {
    if names == [] then [] else [Create(id, names[0])] + Creations(id, names[1..])
  }

  /** Removing `n` files one by one, and returning. */
  function Removals(id: nat, n: nat): seq<Event> {
    if n == 0 then [RemoveNext(id)] else [RemoveNext(id)] + Removals(id, n - 1)
  }

  function CallEvents(id: nat, agentSize: nat, names: seq<File>, f: Fate, pid: int): seq<Event>
    requires |names| == FILES && PossibleFate(agentSize, f)
  {
    match f
    case TooLarge => [Begin(id, agentSize)]
    case NotCreatedAt(k) => [Begin(id, agentSize)] + Creations(id, names[..k]) + ([CreateFails(id)] + Removals(id, k))
    case NotWrittenAt(k) => [Begin(id, agentSize)] + Creations(id, names[..k + 1])
        + ([WriteFails(id)] + Removals(id, k + 1))
    case NotStarted => [Begin(id, agentSize)] + Creations(id, names) + ([StartFails(id)] + Removals(id, FILES))
    case Runs => [Begin(id, agentSize)] + Creations(id, names) + ([Start(id, pid)] + [Register(id)])
  }

  /** The events can happen from `s` on, and lead to `t`. */
  ghost predicate Leads(s: System, events: seq<Event>, t: System) {
    IsRun(s, events) && After(s, events) == t
  }

  lemma {:induction false} LeadsThen(s: System, a: seq<Event>, t: System, b: seq<Event>, u: System)
    requires Leads(s, a, t) && Leads(t, b, u)
    ensures Leads(s, a + b, u)
    decreases |a|
  {
    if a == [] {
      assert a + b == b;
    } else {
      assert (a + b)[1..] == a[1..] + b;
      LeadsThen(Apply(s, a[0]), a[1..], t, b, u);
    }
  }

  lemma LeadsOne(s: System, e: Event)
    requires Enabled(s, e)
    ensures Leads(s, [e], Apply(s, e))
  {
    assert [e][1..] == [];
  }

  lemma {:induction false} CreationsLead(s: System, id: nat, created: seq<File>, names: seq<File>)
    requires id in s.flights && s.flights[id] == Creating(created) && |created| + |names| <= FILES
    requires Distinct(names) && forall n <- names :: n !in s.files
    ensures Leads(s, Creations(id, names), With(s, id, created + names, Elements(names)))
    decreases |names|
  {
    if names == [] {
      assert created + names == created;
      assert With(s, id, created, {}) == s;
    } else {
      var e, rest := Create(id, names[0]), names[1..];
      var t := Apply(s, e);
      LeadsOne(s, e);
      CreationsLead(t, id, created + [names[0]], rest);
      assert created + [names[0]] + rest == created + names;
      ElementsCons(names);
      assert With(t, id, created + names, Elements(rest)) == With(s, id, created + names, Elements(names));
      LeadsThen(s, [e], t, Creations(id, rest), With(s, id, created + names, Elements(names)));
    }
  }

  /** The system with the call's files created. */
  function With(s: System, id: nat, created: seq<File>, files: set<File>): System {
    s.(files := s.files + files, flights := s.flights[id := Creating(created)])
  }

  lemma {:induction false} RemovalsLead(s: System, id: nat, left: seq<File>)
    requires id in s.flights && s.flights[id] == Aborting(left)
    ensures Leads(s, Removals(id, |left|), s.(files := s.files - Elements(left), flights := s.flights - {id}))
    decreases |left|
  {
    var t := Apply(s, RemoveNext(id));
    var end := s.(files := s.files - Elements(left), flights := s.flights - {id});
    LeadsOne(s, RemoveNext(id));
    if left == [] {
      assert t == end;
    } else {
      RemovalsLead(t, id, left[1..]);
      ElementsCons(left);
      assert t.(files := t.files - Elements(left[1..]), flights := t.flights - {id}) == end;
      LeadsThen(s, [RemoveNext(id)], t, Removals(id, |left| - 1), end);
    }
  }

  /** A failure after some files were created removes them all and leaves no trace. */
  lemma AbortLeads(s: System, t: System, id: nat, e: Event, created: seq<File>, left: seq<File>)
    requires id !in s.flights && t == With(s, id, created, Elements(created)) && forall f <- created :: f !in s.files
    requires Enabled(t, e) && Apply(t, e) == t.(flights := t.flights[id := Aborting(left)])
    requires |left| == |created| && forall f :: f in left <==> f in created
    ensures Leads(t, [e] + Removals(id, |left|), s)
  {
    var u := Apply(t, e);
    LeadsOne(t, e);
    RemovalsLead(u, id, left);
    assert Elements(left) == Elements(created);
    assert u.(files := u.files - Elements(left), flights := u.flights - {id}) == s;
    LeadsThen(t, [e], u, Removals(id, |left|), s);
  }

  lemma BeginLeads(s: System, id: nat, agentSize: nat, names: seq<File>)
    requires id !in s.flights && agentSize <= MAX_ARG && |names| <= FILES
    requires Distinct(names) && forall n <- names :: n !in s.files
    ensures Leads(s, [Begin(id, agentSize)] + Creations(id, names), With(s, id, names, Elements(names)))
  {
    var t := Apply(s, Begin(id, agentSize));
    LeadsOne(s, Begin(id, agentSize));
    CreationsLead(t, id, [], names);
    assert [] + names == names;
    assert With(t, id, names, Elements(names)) == With(s, id, names, Elements(names));
    LeadsThen(s, [Begin(id, agentSize)], t, Creations(id, names), With(s, id, names, Elements(names)));
  }

  function CallResult(s: System, names: seq<File>, f: Fate, pid: int): System
    requires |names| == FILES
  {
    if f.Runs? then
      s.(files := s.files + Elements(names), procs := s.procs[pid := Tracked(names)],
         watches := s.watches[pid := Spawned])
    else s
  }

  /** Every way a call can end is a run of its steps, and leads where the call on its own does. */
  lemma CallLeads(s: System, id: nat, agentSize: nat, names: seq<File>, f: Fate, pid: int)
    requires |names| == FILES && PossibleFate(agentSize, f) && id !in s.flights && FreshPid(s, pid)
    requires Distinct(names) && forall n <- names :: n !in s.files
    ensures Leads(s, CallEvents(id, agentSize, names, f, pid), CallResult(s, names, f, pid))
  {
    match f
    case TooLarge => LeadsOne(s, Begin(id, agentSize));
    case NotCreatedAt(k) => NotCreatedLeads(s, id, agentSize, names, k);
    case NotWrittenAt(k) => NotWrittenLeads(s, id, agentSize, names, k);
    case NotStarted => NotStartedLeads(s, id, agentSize, names);
    case Runs => RunsLeads(s, id, agentSize, names, pid);
  }

  lemma NotCreatedLeads(s: System, id: nat, agentSize: nat, names: seq<File>, k: nat)
    requires |names| == FILES && k < FILES && agentSize <= MAX_ARG && id !in s.flights
    requires Distinct(names) && forall n <- names :: n !in s.files
    ensures Leads(s, [Begin(id, agentSize)] + Creations(id, names[..k]) + ([CreateFails(id)] + Removals(id, k)), s)
  {
    var created := names[..k];
    var t := With(s, id, created, Elements(created));
    BeginLeads(s, id, agentSize, created);
    AbortLeads(s, t, id, CreateFails(id), created, RemovalOrder(created));
    LeadsThen(s, [Begin(id, agentSize)] + Creations(id, created), t, [CreateFails(id)] + Removals(id, k), s);
  }

  lemma NotWrittenLeads(s: System, id: nat, agentSize: nat, names: seq<File>, k: nat)
    requires |names| == FILES && k in {0, 2, 3, 4} && agentSize <= MAX_ARG && id !in s.flights
    requires Distinct(names) && forall n <- names :: n !in s.files
    ensures Leads(s, [Begin(id, agentSize)] + Creations(id, names[..k + 1])
        + ([WriteFails(id)] + Removals(id, k + 1)), s)
  {
    var created := names[..k + 1];
    var t := With(s, id, created, Elements(created));
    BeginLeads(s, id, agentSize, created);
    WriteFailsDistinct(created);
    AbortLeads(s, t, id, WriteFails(id), created, [created[k]] + RemovalOrder(created[..k]));
    LeadsThen(s, [Begin(id, agentSize)] + Creations(id, created), t, [WriteFails(id)] + Removals(id, k + 1), s);
  }

  lemma NotStartedLeads(s: System, id: nat, agentSize: nat, names: seq<File>)
    requires |names| == FILES && agentSize <= MAX_ARG && id !in s.flights
    requires Distinct(names) && forall n <- names :: n !in s.files
    ensures Leads(s, [Begin(id, agentSize)] + Creations(id, names) + ([StartFails(id)] + Removals(id, FILES)), s)
  {
    var t := With(s, id, names, Elements(names));
    BeginLeads(s, id, agentSize, names);
    AbortLeads(s, t, id, StartFails(id), names, names);
    LeadsThen(s, [Begin(id, agentSize)] + Creations(id, names), t, [StartFails(id)] + Removals(id, FILES), s);
  }

  lemma RunsLeads(s: System, id: nat, agentSize: nat, names: seq<File>, pid: int)
    requires |names| == FILES && agentSize <= MAX_ARG && id !in s.flights && FreshPid(s, pid)
    requires Distinct(names) && forall n <- names :: n !in s.files
    ensures
      Leads(s, [Begin(id, agentSize)] + Creations(id, names) + ([Start(id, pid)] + [Register(id)]),
            CallResult(s, names, Runs, pid))
  {
    var t := With(s, id, names, Elements(names));
    BeginLeads(s, id, agentSize, names);
    var u := Apply(t, Start(id, pid));
    var end := CallResult(s, names, Runs, pid);
    LeadsOne(t, Start(id, pid));
    LeadsOne(u, Register(id));
    assert Apply(u, Register(id)).flights == s.flights;
    LeadsThen(t, [Start(id, pid)], u, [Register(id)], end);
    LeadsThen(s, [Begin(id, agentSize)] + Creations(id, names), t, [Start(id, pid)] + [Register(id)], end);
  }

  // ---------------------------------------------------------------- ownership

  datatype Owner = Process(pid: int) | Call(id: nat)

  function Holds(s: System, o: Owner): seq<File> {
    match o
    case Process(pid) => if pid in s.procs then ProcFiles(s.procs[pid]) else []
    case Call(id) => if id in s.flights then FlightFiles(s.flights[id]) else []
  }

  /** Every existing file has an owner, every owned file exists, and no file is owned twice. */
  ghost predicate Owned(s: System) {
    && (forall f <- s.files :: exists o: Owner :: f in Holds(s, o))
    && (forall o: Owner, f <- Holds(s, o) :: f in s.files)
    && (forall o: Owner, q: Owner, f: File :: f in Holds(s, o) && f in Holds(s, q) ==> o == q)
    && (forall o: Owner :: Distinct(Holds(s, o)))
  }

  ghost predicate OthersSame(s: System, t: System, o: Owner) {
    forall q: Owner :: q != o ==> Holds(t, q) == Holds(s, q)
  }

  /** One owner gives up files, and exactly those are removed. */
  lemma Removes(s: System, t: System, o: Owner)
    requires Owned(s) && OthersSame(s, t, o)
    requires Distinct(Holds(t, o)) && forall f <- Holds(t, o) :: f in Holds(s, o)
    requires forall f :: f in t.files <==> f in s.files && (f in Holds(s, o) ==> f in Holds(t, o))
    ensures Owned(t)
  {
    forall f | f in t.files ensures exists q: Owner :: f in Holds(t, q) {
      var q: Owner :| f in Holds(s, q);
      assert f in Holds(t, q);
    }
  }

  lemma Creates(s: System, t: System, o: Owner, f: File)
    requires Owned(s) && OthersSame(s, t, o)
    requires f !in s.files && t.files == s.files + {f} && Holds(t, o) == Holds(s, o) + [f]
    ensures Owned(t)
  {
    forall g | g in t.files ensures exists q: Owner :: g in Holds(t, q) {
      if g == f {
        assert g in Holds(t, o);
      } else {
        var q: Owner :| g in Holds(s, q);
        assert g in Holds(t, q);
      }
    }
    forall q: Owner ensures f !in Holds(s, q) && Distinct(Holds(t, q)) {}
    forall q: Owner, g | g in Holds(t, q) ensures if g == f then q == o else g in Holds(s, q) {}
  }

  /** All files of one owner pass to another that had none. */
  lemma HandsOver(s: System, t: System, o: Owner, p: Owner)
    requires Owned(s) && o != p && t.files == s.files && Holds(s, p) == [] && Holds(t, o) == []
    requires forall q: Owner :: q != o && q != p ==> Holds(t, q) == Holds(s, q)
    requires Distinct(Holds(t, p)) && forall f :: f in Holds(t, p) <==> f in Holds(s, o)
    ensures Owned(t)
  {
    forall f | f in t.files ensures exists q: Owner :: f in Holds(t, q) {
      var q: Owner :| f in Holds(s, q);
      if q == o { assert f in Holds(t, p); } else { assert f in Holds(t, q); }
    }
  }

  // ---------------------------------------------------------------- every run

  /** The pids in flight are fresh, and a process has its prompt and parameter files exactly as long
      as its end was not seen. */
  ghost predicate FlightShape(s: System) {
    && (forall i <- s.flights :: s.flights[i].Creating? ==> |s.flights[i].created| <= FILES)
    && (forall i <- s.flights :: s.flights[i].Started? ==>
          |s.flights[i].created| == FILES && s.flights[i].pid !in s.procs && s.flights[i].pid !in s.watches)
    && (forall i <- s.flights, j <- s.flights ::
          s.flights[i].Started? && s.flights[j].Started? && s.flights[i].pid == s.flights[j].pid ==> i == j)
  }

  ghost predicate ProcShape(s: System) {
    forall p <- s.procs ::
      && (s.procs[p].state == Running ==> p in s.watches && s.procs[p].exitCode == -1)
      && if p in s.watches then s.procs[p].tmp.Some? && |s.procs[p].temps| == 3
         else s.procs[p].tmp.None? && s.procs[p].temps == []
  }

  lemma StepKeepsFlightShape(s: System, e: Event)
    requires FlightShape(s) && Enabled(s, e)
    ensures FlightShape(Apply(s, e))
  {}

  lemma WriteFailsDistinct(c: seq<File>)
    requires c != [] && Distinct(c)
    ensures
      var left := [c[|c| - 1]] + RemovalOrder(c[..|c| - 1]);
      Distinct(left) && forall f :: f in left <==> f in c
  {
    var n := |c| - 1;
    assert c == c[..n] + [c[n]];
    assert c[n] !in c[..n];
  }

  /** A Dispatch call only reorders what it holds, or hands it to the process it starts. */
  lemma CallStepOwned(s: System, e: Event)
    requires Owned(s) && Enabled(s, e) && (e.CreateFails? || e.WriteFails? || e.StartFails? || e.Start?)
    ensures Owned(Apply(s, e))
  {
    var t := Apply(s, e);
    var o := Call(e.id);
    var held := Holds(s, o);
    match e
    case CreateFails(_) =>
      Removes(s, t, o);
    case WriteFails(_) =>
      WriteFailsDistinct(held);
      Removes(s, t, o);
    case StartFails(_) => Removes(s, t, o);
    case Start(_, _) => Removes(s, t, o);
  }

  lemma RemoveNextOwned(s: System, e: Event)
    requires Owned(s) && Enabled(s, e) && e.RemoveNext?
    ensures Owned(Apply(s, e))
  {
    var t := Apply(s, e);
    var o := Call(e.id);
    var held := Holds(s, o);
    assert Distinct(held);
    if held != [] {
      assert Holds(t, o) == held[1..];
    }
    Removes(s, t, o);
  }

  lemma RegisterOwned(s: System, e: Event)
    requires Owned(s) && Enabled(s, e) && e.Register? && s.flights[e.id].pid !in s.procs
    ensures Owned(Apply(s, e))
  {
    var t := Apply(s, e);
    var c := s.flights[e.id].created;
    assert Holds(s, Call(e.id)) == c && Distinct(Holds(s, Call(e.id)));
    HandsOver(s, t, Call(e.id), Process(s.flights[e.id].pid));
  }

  lemma WaitDoneOwned(s: System, e: Event)
    requires Owned(s) && Enabled(s, e) && e.WaitDone?
    ensures Owned(Apply(s, e))
  {
    var t := Apply(s, e);
    var o := Process(e.pid);
    if e.pid in s.procs {
      var held := Holds(s, o);
      assert Distinct(held);
      assert held[1..] == Temps(s.procs[e.pid]) && Holds(t, o) == [held[0]];
    }
    Removes(s, t, o);
  }

  lemma CleanupOwned(s: System, e: Event)
    requires Owned(s) && Enabled(s, e) && e.Cleanup?
    ensures Owned(Apply(s, e))
  {
    var t := Apply(s, e);
    var o := Process(e.pid);
    assert Holds(t, o) == [];
    assert OthersSame(s, t, o);
    Removes(s, t, o);
  }

  lemma SameHoldingsOwned(s: System, t: System)
    requires Owned(s) && t.files == s.files && forall o: Owner :: Holds(t, o) == Holds(s, o)
    ensures Owned(t)
  {
    assert Distinct(Holds(s, Process(0)));
    Removes(s, t, Process(0));
  }

  lemma StepKeepsOwned(s: System, e: Event)
    requires Owned(s) && FlightShape(s) && Enabled(s, e)
    ensures Owned(Apply(s, e))
  {
    match e
    case Begin(id, _) => Removes(s, Apply(s, e), Call(id));
    case Create(id, f) => Creates(s, Apply(s, e), Call(id), f);
    case CreateFails(_) => CallStepOwned(s, e);
    case WriteFails(_) => CallStepOwned(s, e);
    case StartFails(_) => CallStepOwned(s, e);
    case RemoveNext(_) => RemoveNextOwned(s, e);
    case Start(_, _) => CallStepOwned(s, e);
    case Register(_) => RegisterOwned(s, e);
    case Look(_) => SameHoldingsOwned(s, Apply(s, e));
    case WaitDone(_, _) => WaitDoneOwned(s, e);
    case Kill(_) => SameHoldingsOwned(s, Apply(s, e));
    case Cleanup(_) => CleanupOwned(s, e);
  }

  ghost predicate Sound(s: System) {
    Owned(s) && FlightShape(s) && ProcShape(s)
  }

  /** The events happen one after the other, each where it can. */
  predicate IsRun(s: System, events: seq<Event>)
    decreases |events|
  {
    events == [] || (Enabled(s, events[0]) && IsRun(Apply(s, events[0]), events[1..]))
  }

  function After(s: System, events: seq<Event>): System
    requires IsRun(s, events)
    decreases |events|
  {
    if events == [] then s else After(Apply(s, events[0]), events[1..])
  }

  lemma {:induction false} RunKeepsSound(s: System, events: seq<Event>)
    requires Sound(s) && IsRun(s, events)
    ensures Sound(After(s, events))
    decreases |events|
  {
    if events != [] {
      StepKeepsOwned(s, events[0]);
      StepKeepsFlightShape(s, events[0]);
      RunKeepsSound(Apply(s, events[0]), events[1..]);
    }
  }

  /** Under every interleaving the existing files are those of the tracked processes and of the
      calls under way, each file owned once. */
  lemma EveryRunOwned(events: seq<Event>)
    requires IsRun(IDLE, events)
    ensures Sound(After(IDLE, events))
  {
    assert forall o: Owner :: Holds(IDLE, o) == [];
    RunKeepsSound(IDLE, events);
  }

  /** With no call under way, the files are exactly those that tracked entries own. */
  lemma QuietFiles(events: seq<Event>)
    requires IsRun(IDLE, events) && After(IDLE, events).flights == map[]
    ensures
      var s := After(IDLE, events);
      && (forall f :: f in s.files <==> exists p <- s.procs :: f in ProcFiles(s.procs[p]))
      && (s.procs == map[] ==> s.files == {})
  {
    var s := After(IDLE, events);
    EveryRunOwned(events);
    forall f | f in s.files ensures exists p <- s.procs :: f in ProcFiles(s.procs[p]) {
      var o: Owner :| f in Holds(s, o);
      assert f in ProcFiles(s.procs[o.pid]);
    }
    forall p, f | p in s.procs && f in ProcFiles(s.procs[p]) ensures f in s.files {
      assert f in Holds(s, Process(p));
    }
  }

  /** Once every monitor is done as well, only the outputs are left and every process has exited. */
  lemma SettledFiles(events: seq<Event>)
    requires IsRun(IDLE, events) && After(IDLE, events).flights == map[] && After(IDLE, events).watches == map[]
    ensures
      var s := After(IDLE, events);
      s.files == (set p <- s.procs :: s.procs[p].output) && forall p <- s.procs :: s.procs[p].state == Exited
  {
    var s := After(IDLE, events);
    EveryRunOwned(events);
    QuietFiles(events);
    forall f ensures f in s.files <==> exists p <- s.procs :: f == s.procs[p].output {
      if f in s.files {
        var p :| p in s.procs && f in ProcFiles(s.procs[p]);
        assert ProcFiles(s.procs[p]) == [s.procs[p].output];
      }
      if p :| p in s.procs && f == s.procs[p].output {
        assert f in ProcFiles(s.procs[p]);
      }
    }
  }

  /** While it stays tracked, a process that has exited stays exited. */
  lemma {:induction false} NeverRevives(s: System, events: seq<Event>, pid: int)
    requires FlightShape(s) && IsRun(s, events) && pid in s.procs && s.procs[pid].state == Exited
    requires Event.Cleanup(pid) !in events
    ensures pid in After(s, events).procs && After(s, events).procs[pid].state == Exited
    decreases |events|
  {
    if events != [] {
      assert events[0] in events;
      StepKeepsFlightShape(s, events[0]);
      NeverRevives(Apply(s, events[0]), events[1..], pid);
    }
  }

  /** What a run records about a tracked process: the exit code its monitor saw last; without one, -1
      if it was running and was killed, and otherwise what was recorded before. */
  lemma {:induction false} ExitRecorded(s: System, events: seq<Event>, pid: int, last: int)
    requires FlightShape(s) && IsRun(s, events) && pid in s.procs && Event.Cleanup(pid) !in events
    requires last == -1 || (0 <= last < |events| && events[last].WaitDone? && events[last].pid == pid)
    requires forall i :: last < i < |events| ==> !(events[i].WaitDone? && events[i].pid == pid)
    ensures
      var t := After(s, events);
      && pid in t.procs && t.procs[pid].output == s.procs[pid].output
      && (t.procs[pid].state, t.procs[pid].exitCode) ==
         if last >= 0 then (Exited, events[last].exitCode)
         else if s.procs[pid].state == Running && Event.Kill(pid) in events then (Exited, -1)
         else (s.procs[pid].state, s.procs[pid].exitCode)
    decreases |events|
  {
    if events != [] {
      var e, rest := events[0], events[1..];
      assert e in events && events == [e] + rest;
      StepKeepsFlightShape(s, e);
      ExitRecorded(Apply(s, e), rest, pid, if last <= 0 then -1 else last - 1);
    }
  }

  /** Were a pid handed out again while its old entry is still tracked, the new entry would replace
      the old one and its files would have no owner: ownership survives exactly when the pid is free. */
  lemma ReusedPidLosesFiles(s: System, id: nat)
    requires Owned(s) && Enabled(s, Register(id))
    ensures Owned(Apply(s, Register(id))) <==> s.flights[id].pid !in s.procs
  {
    var pid := s.flights[id].pid;
    var t := Apply(s, Register(id));
    if pid !in s.procs {
      RegisterOwned(s, Register(id));
    } else {
      LostOutput(s, t, id, pid, s.procs[pid].output);
    }
  }

  lemma LostOutput(s: System, t: System, id: nat, pid: int, lost: File)
    requires Owned(s) && id in s.flights && pid in s.procs && lost == s.procs[pid].output
    requires s.flights[id].Started? && |s.flights[id].created| == FILES && t.files == s.files
    requires t.procs == s.procs[pid := Tracked(s.flights[id].created)] && t.flights == s.flights - {id}
    ensures lost in t.files && forall o: Owner :: lost !in Holds(t, o)
  {
    assert lost in Holds(s, Process(pid));
    forall o: Owner ensures lost !in Holds(t, o) {
      if o == Process(pid) {
        var c := s.flights[id].created;
        assert forall f :: f in Holds(t, o) ==> f in c;
        assert Holds(s, Call(id)) == c;
      } else {
        assert forall f :: f in Holds(t, o) ==> f in Holds(s, o);
      }
    }
  }
}
