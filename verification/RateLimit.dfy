/** The reserve, recheck and roll back allocator over two sliding windows
    (internal/dispatch/ratelimit.go and the usage table of internal/store/dispatches.go). */
module RateLimit {

  /** Usage rows by id, each with the second it was recorded in. */
  type Usage = map<int, int>

  const FIVE_HOURS := 5 * 3600
  const SEVEN_DAYS := 7 * 24 * 3600

  datatype Caps = Caps(fiveHour: int, weekly: int)

  /** The rows in the window of the given length that ends at `end`. */
  function Within(u: Usage, end: int, window: int): set<int> {
    set id | id in u && end - window <= u[id] <= end
  }

  /** The rows a window query counts when it runs at `now`: no upper bound in the SQL. */
  function Recent(u: Usage, now: int, window: int): set<int> {
    set id | id in u && u[id] >= now - window
  }

  // ---------------------------------------------------------------- one reservation

  /** When the five statements of an attempt run, and what the store makes of them. */
  datatype Attempt = Attempt(
    pre5h: int, preWeekly: int, insert: int, post5h: int, postWeekly: int,
    preFails: bool, insertOutcome: Insertion, postFails: bool, rollbackFails: bool, id: int)

  /** Inserting can fail, or leave a row behind whose id is not reported. */
  datatype Insertion = Inserted | InsertFailed | IdLost

  /** The statements of one attempt run in order, after everything recorded so far. */
  predicate Orderly(u: Usage, a: Attempt) {
    && a.pre5h <= a.preWeekly <= a.insert <= a.post5h <= a.postWeekly
    && (forall id :: id in u ==> u[id] <= a.pre5h)
    && a.id !in u && a.id != 0
  }

  datatype Reservation = Granted(id: int) | PreLimit | StoreError | PostLimit

  predicate BelowCaps(u: Usage, caps: Caps, at5h: int, atWeekly: int) {
    |Recent(u, at5h, FIVE_HOURS)| < caps.fiveHour && |Recent(u, atWeekly, SEVEN_DAYS)| < caps.weekly
  }

  function Reserve(u: Usage, caps: Caps, a: Attempt): (Usage, Reservation) {
    if a.preFails || !BelowCaps(u, caps, a.pre5h, a.preWeekly) then (u, PreLimit)
    else if a.insertOutcome == InsertFailed then (u, StoreError)
    else
      var v := u[a.id := a.insert];
      if a.insertOutcome == IdLost then (v, StoreError)
      else if !a.postFails && BelowCaps(v, caps, a.post5h, a.postWeekly) then (v, Granted(a.id))
      else if a.rollbackFails then (v, PostLimit)
      else (v - {a.id}, PostLimit)
  }

  // ---------------------------------------------------------------- runs

  datatype Event =
    | Attempted(attempt: Attempt)
    | Picked(choice: Choice, end: int)
    | Released(id: int, fails: bool)
    | Reconfigured(caps: Caps)

  datatype State = State(usage: Usage, caps: Caps, clock: int, outstanding: set<int>)

  function Step(s: State, e: Event): State {
    match e
    case Attempted(a) =>
      var (u, r) := Reserve(s.usage, s.caps, a);
      s.(usage := u, clock := a.postWeekly,
         outstanding := if r.Granted? then s.outstanding + {r.id} else s.outstanding)
    case Picked(c, end) =>
      var (u, p) := PickFrom(s.usage, s.caps, c);
      s.(usage := u, clock := end, outstanding := if p.Reserved? then s.outstanding + {p.id} else s.outstanding)
    case Released(id, fails) =>
      if id == 0 || fails then s else s.(usage := s.usage - {id}, outstanding := s.outstanding - {id})
    case Reconfigured(caps) => s.(caps := caps)
  }

  /** The clock does not run backwards, new ids are fresh, and caps stay within the bound. */
  ghost predicate Possible(s: State, e: Event, bound: Caps) {
    match e
    case Attempted(a) => Orderly(s.usage, a) && s.clock <= a.pre5h
    case Picked(c, end) => OrderlyAll(s.usage, c.attempts) && Between(s.clock, c.attempts, end)
    case Released(_, _) => true
    case Reconfigured(caps) => caps.fiveHour <= bound.fiveHour && caps.weekly <= bound.weekly
  }

  function Run(s: State, es: seq<Event>): State {
    if es == [] then s else Step(Run(s, es[..|es| - 1]), es[|es| - 1])
  }

  ghost predicate PossibleRun(s: State, es: seq<Event>, bound: Caps) {
    es == [] || (PossibleRun(s, es[..|es| - 1], bound) && Possible(Run(s, es[..|es| - 1]), es[|es| - 1], bound))
  }

  function Max0(n: int): nat {
    if n < 0 then 0 else n
  }

  /** No window of the given length, wherever it lies, holds more rows than the cap. */
  ghost predicate WindowsBounded(u: Usage, window: int, cap: nat) {
    forall t :: |Within(u, t, window)| <= cap
  }

  ghost predicate Bounded(s: State, bound: Caps) {
    && s.caps.fiveHour <= bound.fiveHour && s.caps.weekly <= bound.weekly
    && (forall id :: id in s.usage ==> s.usage[id] <= s.clock)
    && WindowsBounded(s.usage, FIVE_HOURS, Max0(bound.fiveHour))
    && WindowsBounded(s.usage, SEVEN_DAYS, Max0(bound.weekly))
  }

  lemma SubsetCard<T>(a: set<T>, b: set<T>)
    requires a <= b
    ensures |a| <= |b|
  {
    assert b == a + (b - a);
  }

  /** A row passed at insert time by a count at or before the insertion keeps every window
      within the cap: a window around the new row reaches no further back than the count did. */
  lemma InsertBounded(u: Usage, window: int, cap: nat, checked: int, id: int, at: int)
    requires WindowsBounded(u, window, cap) && window >= 0
    requires |Recent(u, checked, window)| < cap && checked <= at && id !in u
    ensures WindowsBounded(u[id := at], window, cap)
  {
    var v := u[id := at];
    forall t ensures |Within(v, t, window)| <= cap {
      if t - window <= at <= t {
        SubsetCard(Within(v, t, window), Recent(u, checked, window) + {id});
      } else {
        assert Within(v, t, window) == Within(u, t, window);
      }
    }
  }

  lemma RemoveBounded(u: Usage, v: Usage, window: int, cap: nat)
    requires WindowsBounded(u, window, cap)
    requires forall id :: id in v ==> id in u && v[id] == u[id]
    ensures WindowsBounded(v, window, cap)
  {
    forall t ensures |Within(v, t, window)| <= cap {
      forall id | id in Within(v, t, window) ensures id in Within(u, t, window) { assert id in v; }
      SubsetCard(Within(v, t, window), Within(u, t, window));
    }
  }

  /** Whatever the store does, a reservation leaves the table as it was or adds one row that
      both pre-checks allowed. */
  lemma ReserveShape(u: Usage, caps: Caps, a: Attempt)
    requires Orderly(u, a)
    ensures
      var (v, r) := Reserve(u, caps, a);
      && (v == u || (v == u[a.id := a.insert] && BelowCaps(u, caps, a.pre5h, a.preWeekly)))
      && (r.Granted? ==> r.id == a.id && v == u[a.id := a.insert])
  {
    assert u[a.id := a.insert] - {a.id} == u;
  }

  lemma AttemptBounded(s: State, a: Attempt, bound: Caps)
    requires Bounded(s, bound) && Possible(s, Attempted(a), bound)
    ensures Bounded(Step(s, Attempted(a)), bound)
  {
    ReserveShape(s.usage, s.caps, a);
    if Step(s, Attempted(a)).usage != s.usage {
      InsertBounded(s.usage, FIVE_HOURS, Max0(bound.fiveHour), a.pre5h, a.id, a.insert);
      InsertBounded(s.usage, SEVEN_DAYS, Max0(bound.weekly), a.preWeekly, a.id, a.insert);
    }
  }

  lemma StepBounded(s: State, e: Event, bound: Caps)
    requires Bounded(s, bound) && Possible(s, e, bound)
    ensures Bounded(Step(s, e), bound)
  {
    match e
    case Attempted(a) => AttemptBounded(s, a, bound);
    case Picked(c, end) => PickBounded(s, bound, c, end);
    case Released(id, fails) =>
      RemoveBounded(s.usage, Step(s, e).usage, FIVE_HOURS, Max0(bound.fiveHour));
      RemoveBounded(s.usage, Step(s, e).usage, SEVEN_DAYS, Max0(bound.weekly));
    case Reconfigured(caps) =>
  }

  lemma {:induction false} RunBounded(s: State, es: seq<Event>, bound: Caps)
    requires Bounded(s, bound) && PossibleRun(s, es, bound)
    ensures Bounded(Run(s, es), bound)
  {
    if es != [] {
      RunBounded(s, es[..|es| - 1], bound);
      StepBounded(Run(s, es[..|es| - 1]), es[|es| - 1], bound);
    }
  }

  /** The sliding-window caps hold in every window of every run from an empty table, through
      releases, reconfigurations below the bound, clock advances, failing stores and failing
      rollbacks. */
  lemma CapsHold(caps: Caps, clock: int, es: seq<Event>, bound: Caps)
    requires caps.fiveHour <= bound.fiveHour && caps.weekly <= bound.weekly
    requires PossibleRun(State(map[], caps, clock, {}), es, bound)
    ensures
      var u := Run(State(map[], caps, clock, {}), es).usage;
      WindowsBounded(u, 18000, Max0(bound.fiveHour)) && WindowsBounded(u, 604800, Max0(bound.weekly))
  {
    forall t, window ensures Within(map[], t, window) == {} {}
    RunBounded(State(map[], caps, clock, {}), es, bound);
  }

  // ---------------------------------------------------------------- without store failures

  predicate Works(a: Attempt) {
    !a.preFails && a.insertOutcome == Inserted && !a.postFails && !a.rollbackFails
  }

  predicate AllWork(attempts: seq<Attempt>) {
    forall i :: 0 <= i < |attempts| ==> Works(attempts[i])
  }

  predicate StoreWorks(e: Event) {
    match e
    case Attempted(a) => Works(a)
    case Picked(c, _) => AllWork(c.attempts)
    case Released(_, fails) => !fails
    case Reconfigured(_) => true
  }

  /** The rows are exactly the granted reservations that were not released. */
  lemma {:induction false} RowsAreOutstanding(s: State, es: seq<Event>, bound: Caps)
    requires s.usage.Keys == s.outstanding && PossibleRun(s, es, bound)
    requires forall i :: 0 <= i < |es| ==> StoreWorks(es[i])
    ensures Run(s, es).usage.Keys == Run(s, es).outstanding
  {
    if es != [] {
      var n := |es| - 1;
      RowsAreOutstanding(s, es[..n], bound);
      var before := Run(s, es[..n]);
      match es[n]
      case Attempted(a) =>
        assert before.usage[a.id := a.insert] - {a.id} == before.usage;
      case Picked(c, _) => PickReservesOne(before.usage, before.caps, c);
      case Released(_, _) =>
      case Reconfigured(_) =>
    }
  }

  /** The same test before and after the insertion means that the last slot of a cap is never
      granted: an attempt that passed the first test succeeds exactly when both windows, as they
      are by the second one, had two free slots.  So a cap of one never grants anything. */
  lemma GrantedIffTwoFree(u: Usage, caps: Caps, a: Attempt)
    requires Orderly(u, a) && Works(a) && a.postWeekly <= a.insert + FIVE_HOURS
    ensures Reserve(u, caps, a).1.Granted? <==>
      && BelowCaps(u, caps, a.pre5h, a.preWeekly)
      && |Recent(u, a.post5h, FIVE_HOURS)| + 1 < caps.fiveHour
      && |Recent(u, a.postWeekly, SEVEN_DAYS)| + 1 < caps.weekly
    ensures a.pre5h == a.postWeekly ==>
      (Reserve(u, caps, a).1.Granted? <==>
         |Recent(u, a.pre5h, FIVE_HOURS)| + 1 < caps.fiveHour && |Recent(u, a.pre5h, SEVEN_DAYS)| + 1 < caps.weekly)
    ensures Reserve(u, caps, a).1.Granted? ==> caps.fiveHour >= 2 && caps.weekly >= 2
  {
    RecentAfterInsert(u, a.id, a.insert, a.post5h, FIVE_HOURS);
    RecentAfterInsert(u, a.id, a.insert, a.postWeekly, SEVEN_DAYS);
  }

  lemma RecentAfterInsert(u: Usage, id: int, at: int, now: int, window: int)
    requires id !in u && at >= now - window
    ensures |Recent(u[id := at], now, window)| == |Recent(u, now, window)| + 1
  {
    assert Recent(u[id := at], now, window) == Recent(u, now, window) + {id};
  }

  lemma RecentWithOwn(u: Usage, a: Attempt, now: int, window: int)
    requires a.id !in u
    ensures |Recent(u[a.id := a.insert], now, window)| == |Recent(u, now, window)| + Own(a, now - window)
  {
    if a.insert >= now - window {
      RecentAfterInsert(u, a.id, a.insert, now, window);
    } else {
      assert Recent(u[a.id := a.insert], now, window) == Recent(u, now, window);
    }
  }

  // ---------------------------------------------------------------- choosing a provider

  datatype Provider = Provider(model: string, authed: bool)

  datatype Pick = Free(name: string) | Reserved(name: string, id: int) | NoProvider | OverLimit

  predicate Usable(name: string, providers: map<string, Provider>, excluded: set<string>) {
    name in providers && providers[name].model !in excluded
  }

  /** What a call chooses from; attempt `i` belongs to candidate `i`. */
  datatype Choices = Choices(
    candidates: seq<string>, providers: map<string, Provider>, excluded: set<string>, attempts: seq<Attempt>)

  type Choice = c: Choices | |c.attempts| == |c.candidates| witness Choices([], map[], {}, [])

  function Rest(c: Choice): Choice
    requires c.candidates != []
  {
    c.(candidates := c.candidates[1..], attempts := c.attempts[1..])
  }

  /** The candidates in order.  A refusal before the insertion or a store error moves on to the next
      candidate, one after it ends the call. */
  function PickFrom(u: Usage, caps: Caps, c: Choice): (Usage, Pick)
    decreases |c.candidates|
  {
    if c.candidates == [] then (u, NoProvider)
    else
      var name := c.candidates[0];
      if !Usable(name, c.providers, c.excluded) then PickFrom(u, caps, Rest(c))
      else if !c.providers[name].authed then (u, Free(name))
      else
        var (v, r) := Reserve(u, caps, c.attempts[0]);
        match r
        case Granted(id) => (v, Reserved(name, id))
        case PostLimit => (v, OverLimit)
        case _ => PickFrom(v, caps, Rest(c))
  }

  /** The attempts follow each other in time and would use different, fresh row ids. */
  ghost predicate OrderlyAll(u: Usage, attempts: seq<Attempt>) {
    && (forall i :: 0 <= i < |attempts| ==> Orderly(u, attempts[i]))
    && (forall i, j :: 0 <= i < j < |attempts| ==>
          attempts[i].postWeekly <= attempts[j].pre5h && attempts[i].id != attempts[j].id)
  }

  /** The attempts lie between two readings of the clock. */
  predicate Between(start: int, attempts: seq<Attempt>, end: int) {
    start <= end && forall i :: 0 <= i < |attempts| ==> start <= attempts[i].pre5h && attempts[i].postWeekly <= end
  }

  lemma OrderlyNext(u: Usage, caps: Caps, attempts: seq<Attempt>)
    requires OrderlyAll(u, attempts) && attempts != []
    ensures OrderlyAll(u, attempts[1..])
    ensures OrderlyAll(Reserve(u, caps, attempts[0]).0, attempts[1..])
  {
    var a := attempts[0];
    ReserveShape(u, caps, a);
    var v := Reserve(u, caps, a).0;
    forall i | 0 <= i < |attempts[1..]| ensures Orderly(v, attempts[1..][i]) && Orderly(u, attempts[1..][i]) {
      var b := attempts[i + 1];
      assert attempts[1..][i] == b && Orderly(u, b) && a.postWeekly <= b.pre5h && a.id != b.id;
    }
  }

  predicate Among(c: Choice, name: string, authed: bool) {
    name in c.candidates && Usable(name, c.providers, c.excluded) && c.providers[name].authed == authed
  }

  /** The row that the answer names is new, and every other answer leaves the table as it was. */
  predicate AddsAtMost(u: Usage, v: Usage, c: Choice, p: Pick) {
    && (!p.Reserved? ==> v == u)
    && (p.Reserved? ==> p.id !in u && p.id in v && v == u[p.id := v[p.id]] && Among(c, p.name, true))
    && (p.Free? ==> Among(c, p.name, false))
  }

  lemma AmongRest(u: Usage, v: Usage, c: Choice, p: Pick)
    requires c.candidates != [] && AddsAtMost(u, v, Rest(c), p)
    ensures AddsAtMost(u, v, c, p)
  {}

  /** A call reserves at most one row, and only for the provider it returns; every other answer
      leaves the table untouched, as long as the store works. */
  lemma {:induction false} PickReservesOne(u: Usage, caps: Caps, c: Choice)
    requires OrderlyAll(u, c.attempts) && AllWork(c.attempts)
    ensures AddsAtMost(u, PickFrom(u, caps, c).0, c, PickFrom(u, caps, c).1)
    decreases |c.candidates|
  {
    if c.candidates != [] {
      OrderlyNext(u, caps, c.attempts);
      var a := c.attempts[0];
      assert u[a.id := a.insert] - {a.id} == u;
      PickReservesOne(u, caps, Rest(c));
      AmongRest(u, PickFrom(u, caps, Rest(c)).0, c, PickFrom(u, caps, Rest(c)).1);
    }
  }

  /** Fewer rows than `cap - spare` were recorded since `since`. */
  predicate Room(u: Usage, since: int, cap: int, spare: nat) {
    |set id | id in u && u[id] >= since| + spare < cap
  }

  /** Both windows have room at the first counts of the attempt, in seconds. */
  predicate FirstRoom(u: Usage, caps: Caps, a: Attempt) {
    Room(u, a.pre5h - 18000, caps.fiveHour, 0) && Room(u, a.preWeekly - 604800, caps.weekly, 0)
  }

  /** The new row counts in a window that starts at `since`. */
  function Own(a: Attempt, since: int): nat {
    if a.insert >= since then 1 else 0
  }

  /** Both windows have room for one more than the rows before at the second counts, as long as those
      come soon enough for the new row to be in them. */
  predicate SecondRoom(u: Usage, caps: Caps, a: Attempt) {
    && Room(u, a.post5h - 18000, caps.fiveHour, Own(a, a.post5h - 18000))
    && Room(u, a.postWeekly - 604800, caps.weekly, Own(a, a.postWeekly - 604800))
  }

  /** With a working store an attempt is refused at once, granted with its row, or rolled back. */
  lemma ReserveExact(u: Usage, caps: Caps, a: Attempt)
    requires Orderly(u, a) && Works(a)
    ensures Reserve(u, caps, a)
            == if !FirstRoom(u, caps, a) then (u, PreLimit)
               else if SecondRoom(u, caps, a) then (u[a.id := a.insert], Granted(a.id))
               else (u, PostLimit)
  {
    RecentWithOwn(u, a, a.post5h, FIVE_HOURS);
    RecentWithOwn(u, a, a.postWeekly, SEVEN_DAYS);
    assert u[a.id := a.insert] - {a.id} == u;
  }

  predicate IsUsable(c: Choice, i: nat)
    requires i < |c.candidates|
  {
    c.candidates[i] in c.providers && c.providers[c.candidates[i]].model !in c.excluded
  }

  /** The call moves on from candidate `i`: it is unknown or excluded, or it needs a reservation and
      has no room, its counts fail or its row cannot be inserted. */
  predicate PassedOver(u: Usage, caps: Caps, c: Choice, i: nat)
    requires i < |c.candidates|
  {
    IsUsable(c, i) ==>
      && c.providers[c.candidates[i]].authed
      && (c.attempts[i].preFails || !FirstRoom(u, caps, c.attempts[i]) || c.attempts[i].insertOutcome == InsertFailed)
  }

  /** Candidate `i` ends the call: it is free, or has room in a store that works. */
  predicate EndsCall(u: Usage, caps: Caps, c: Choice, i: nat)
    requires i < |c.candidates|
  {
    IsUsable(c, i) && (c.providers[c.candidates[i]].authed ==>
        Works(c.attempts[i]) && FirstRoom(u, caps, c.attempts[i]))
  }

  /** The first candidate that is not passed over decides the call: a free provider is returned as it
      is, another one with its reservation if both windows have room for one more, and otherwise the
      call is over the limit.  If all are passed over there is no provider. */
  lemma {:induction false} PickExact(u: Usage, caps: Caps, c: Choice, k: nat)
    requires OrderlyAll(u, c.attempts)
    requires k <= |c.candidates| && (forall i :: 0 <= i < k ==> PassedOver(u, caps, c, i))
    requires k < |c.candidates| ==> EndsCall(u, caps, c, k)
    ensures PickFrom(u, caps, c)
            == if k == |c.candidates| then (u, NoProvider)
               else if !c.providers[c.candidates[k]].authed then (u, Free(c.candidates[k]))
               else if SecondRoom(u, caps, c.attempts[k]) then
                 (u[c.attempts[k].id := c.attempts[k].insert], Reserved(c.candidates[k], c.attempts[k].id))
               else (u, OverLimit)
    decreases |c.candidates|
  {
    if c.candidates != [] {
      if k == 0 {
        if Works(c.attempts[0]) { ReserveExact(u, caps, c.attempts[0]); }
      } else {
        OrderlyNext(u, caps, c.attempts);
        assert PassedOver(u, caps, c, 0);
        forall i | 0 <= i < k - 1 ensures PassedOver(u, caps, Rest(c), i) { assert PassedOver(u, caps, c, i + 1); }
        PickExact(u, caps, Rest(c), k - 1);
      }
    }
  }

  /** With a working store every candidate is passed over or ends the call, so there always is such a
      first one, or none. */
  lemma WorkingStoreDecides(u: Usage, caps: Caps, c: Choice, i: nat)
    requires i < |c.candidates| && Works(c.attempts[i])
    ensures PassedOver(u, caps, c, i) <==> !EndsCall(u, caps, c, i)
  {}

  /** So a free provider is returned whenever the candidates before it are passed over. */
  lemma FreeProviderFound(u: Usage, caps: Caps, c: Choice, k: nat)
    requires OrderlyAll(u, c.attempts)
    requires k < |c.candidates| && IsUsable(c, k) && !c.providers[c.candidates[k]].authed
    requires forall i :: 0 <= i < k ==> PassedOver(u, caps, c, i)
    ensures PickFrom(u, caps, c) == (u, Free(c.candidates[k]))
  {
    PickExact(u, caps, c, k);
  }

  /** A row whose id is lost stays behind, and the call moves on; a failing second count ends it over
      the limit. */
  lemma FailingStorePick(u: Usage, caps: Caps, c: Choice, a: Attempt)
    requires c.candidates != [] && IsUsable(c, 0) && c.providers[c.candidates[0]].authed && a == c.attempts[0]
    requires Orderly(u, a) && FirstRoom(u, caps, a) && !a.preFails
    ensures a.insertOutcome == IdLost ==> PickFrom(u, caps, c) == PickFrom(u[a.id := a.insert], caps, Rest(c))
    ensures a.insertOutcome == Inserted && a.postFails ==>
      PickFrom(u, caps, c) == (if a.rollbackFails then u[a.id := a.insert] else u, OverLimit)
  {
    assert u[a.id := a.insert] - {a.id} == u;
  }

  /** Choosing keeps the window bounds, whatever the store does, so that calls can follow each other. */
  lemma {:induction false} PickBounded(s: State, bound: Caps, c: Choice, end: int)
    requires Bounded(s, bound) && OrderlyAll(s.usage, c.attempts) && Between(s.clock, c.attempts, end)
    ensures Bounded(s.(usage := PickFrom(s.usage, s.caps, c).0, clock := end), bound)
    decreases |c.candidates|
  {
    if c.candidates != [] {
      var a := c.attempts[0];
      OrderlyNext(s.usage, s.caps, c.attempts);
      AttemptBounded(s, a, bound);
      PickBounded(s, bound, Rest(c), end);
      PickBounded(s.(usage := Reserve(s.usage, s.caps, a).0, clock := a.postWeekly), bound, Rest(c), end);
    }
  }

  class RateLimiter {
    var usage: Usage
    var caps: Caps

    constructor (c: Caps)
      ensures usage == map[] && caps == c
    {
      usage, caps := map[], c;
    }

    method CanDispatch(at5h: int, atWeekly: int, fails: bool) returns (allowed: bool)
      ensures allowed <==> !fails && BelowCaps(usage, caps, at5h, atWeekly)
    {
      if fails {
        return false;
      }
      if |Recent(usage, at5h, FIVE_HOURS)| >= caps.fiveHour {
        return false;
      }
      return |Recent(usage, atWeekly, SEVEN_DAYS)| < caps.weekly;
    }

    method RecordAuthedDispatch(a: Attempt) returns (r: Reservation)
      modifies this`usage
      ensures (usage, r) == Reserve(old(usage), caps, a)
    {
      var ok := CanDispatch(a.pre5h, a.preWeekly, a.preFails);
      if !ok {
        return PreLimit;
      }
      if a.insertOutcome == InsertFailed {
        return StoreError;
      }
      usage := usage[a.id := a.insert];
      if a.insertOutcome == IdLost {
        return StoreError;
      }
      ok := CanDispatch(a.post5h, a.postWeekly, a.postFails);
      if !ok {
        if !a.rollbackFails {
          usage := usage - {a.id};
        }
        return PostLimit;
      }
      return Granted(a.id);
    }

    method ReleaseAuthedDispatch(id: int, fails: bool)
      modifies this`usage
      ensures usage == if id == 0 || fails then old(usage) else old(usage) - {id}
    {
      if id == 0 || fails {
        return;
      }
      usage := usage - {id};
    }

    method PickAndReserve(c: Choice) returns (p: Pick)
      modifies this`usage
      ensures (usage, p) == PickFrom(old(usage), caps, c)
    {
      ghost var goal := PickFrom(usage, caps, c);
      assert From(c, 0) == c;
      for i := 0 to |c.candidates|
        invariant PickFrom(usage, caps, From(c, i)) == goal
      {
        assert Rest(From(c, i)) == From(c, i + 1);
        var name := c.candidates[i];
        if name !in c.providers || c.providers[name].model in c.excluded {
          continue;
        }
        if !c.providers[name].authed {
          return Free(name);
        }
        var r := RecordAuthedDispatch(c.attempts[i]);
        match r {
          case Granted(id) => return Reserved(name, id);
          case PostLimit => return OverLimit;
          case _ =>
        }
      }
      return NoProvider;
    }
  }

  /** The candidates from `i` on. */
  function From(c: Choice, i: nat): Choice
    requires i <= |c.candidates|
  {
    c.(candidates := c.candidates[i..], attempts := c.attempts[i..])
  }
}
