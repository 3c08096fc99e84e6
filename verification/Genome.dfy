/** The evolving genome of a task species: merging of patterns, antibodies that turn into
    fossils, provider statistics, and the spreading of patterns to sibling species
    (internal/store/genomes.go). */
module Genomes {
  import opened Text
  import opened Ordering

  datatype Entry = Entry(
    pattern: string, reason: string, alternative: string, count: int, generation: int,
    files: seq<string>, agent: string)

  datatype ProviderGene = ProviderGene(
    provider: string, successes: int, failures: int, totalCost: real, generation: int)

  datatype Genome = Genome(
    species: string, parent: string,
    patterns: seq<Entry>, antibodies: seq<Entry>, fossils: seq<Entry>, providers: seq<ProviderGene>,
    generation: int, successes: int, failures: int, totalCost: real, hibernating: bool)

  const FOSSIL_THRESHOLD := 3

  function EmptyGenome(species: string): Genome {
    Genome(species, "", [], [], [], [], 0, 0, 0, 0.0, false)
  }

  // ---------------------------------------------------------------- one evolution

  /** The index of the first entry with the pattern, or the length when there is none. */
  function Find(s: seq<Entry>, p: string): (i: nat)
    ensures i <= |s| && (i < |s| ==> s[i].pattern == p)
    ensures forall j :: 0 <= j < i ==> s[j].pattern != p
  {
    if s == [] || s[0].pattern == p then 0 else 1 + Find(s[1..], p)
  }

  function FindProvider(s: seq<ProviderGene>, name: string): (i: nat)
    ensures i <= |s| && (i < |s| ==> s[i].provider == name)
    ensures forall j :: 0 <= j < i ==> s[j].provider != name
  {
    if s == [] || s[0].provider == name then 0 else 1 + FindProvider(s[1..], name)
  }

  function MergePattern(s: seq<Entry>, e: Entry): seq<Entry> {
    var i := Find(s, e.pattern);
    if i < |s| then s[i := s[i].(count := s[i].count + 1)] else s + [e.(count := 1)]
  }

  /** Antibodies and fossils after one more failure. */
  function MergeFailure(antibodies: seq<Entry>, fossils: seq<Entry>, e: Entry): (seq<Entry>, seq<Entry>) {
    var i := Find(antibodies, e.pattern);
    if i == |antibodies| then (antibodies + [e.(count := 1)], fossils)
    else
      var a := antibodies[i].(count := antibodies[i].count + 1);
      if a.count >= FOSSIL_THRESHOLD then (antibodies[..i] + antibodies[i + 1..], fossils + [a])
      else (antibodies[i := a], fossils)
  }

  function MergeProvider(s: seq<ProviderGene>, name: string, passed: bool, cost: real,
      generation: int): seq<ProviderGene> {
    var i := FindProvider(s, name);
    if name == "" then s
    else if i < |s| then
      s[i := s[i].(totalCost := s[i].totalCost + cost,
                   successes := s[i].successes + (if passed then 1 else 0),
                   failures := s[i].failures + (if passed then 0 else 1))]
    else s + [ProviderGene(name, if passed then 1 else 0, if passed then 0 else 1, cost, generation)]
  }

  datatype Outcome = Outcome(passed: bool, entry: Entry, provider: string, cost: real)

  function Evolve(g: Genome, o: Outcome): Genome {
    var base := g.(generation := g.generation + 1,
                   totalCost := g.totalCost + o.cost,
                   providers := MergeProvider(g.providers, o.provider, o.passed, o.cost, g.generation + 1));
    var e := o.entry.(generation := g.generation + 1);
    if o.passed then
      base.(successes := g.successes + 1, patterns := MergePattern(g.patterns, e))
    else
      var failed := MergeFailure(g.antibodies, g.fossils, e);
      base.(failures := g.failures + 1, antibodies := failed.0, fossils := failed.1)
  }

  function EvolveAll(g: Genome, h: seq<Outcome>): Genome {
    if h == [] then g else Evolve(EvolveAll(g, h[..|h| - 1]), h[|h| - 1])
  }

  // ---------------------------------------------------------------- reading the ledgers

  predicate Unique(s: seq<Entry>) {
    forall i, j :: 0 <= i < j < |s| ==> s[i].pattern != s[j].pattern
  }

  predicate UniqueProviders(s: seq<ProviderGene>) {
    forall i, j :: 0 <= i < j < |s| ==> s[i].provider != s[j].provider
  }

  /** The recorded count of a pattern, 0 when it has no entry. */
  function CountOf(s: seq<Entry>, p: string): int {
    var i := Find(s, p);
    if i < |s| then s[i].count else 0
  }

  function FossilsOf(s: seq<Entry>, p: string): nat {
    if s == [] then 0
    else FossilsOf(s[..|s| - 1], p) + if s[|s| - 1].pattern == p then 1 else 0
  }

  function SumCounts(s: seq<Entry>): int {
    if s == [] then 0 else SumCounts(s[..|s| - 1]) + s[|s| - 1].count
  }

  lemma FindIs(s: seq<Entry>, p: string, k: nat)
    requires k <= |s| && (k < |s| ==> s[k].pattern == p)
    requires forall j :: 0 <= j < k ==> s[j].pattern != p
    ensures Find(s, p) == k
  {}

  lemma FindProviderIs(s: seq<ProviderGene>, name: string, k: nat)
    requires k <= |s| && (k < |s| ==> s[k].provider == name)
    requires forall j :: 0 <= j < k ==> s[j].provider != name
    ensures FindProvider(s, name) == k
  {}

  /** Entries are unique and have a count of at least one. */
  predicate Tallied(s: seq<Entry>) {
    Unique(s) && forall i :: 0 <= i < |s| ==> s[i].count >= 1
  }

  lemma {:induction false} SumCountsUpdate(s: seq<Entry>, i: nat, e: Entry)
    requires i < |s|
    ensures SumCounts(s[i := e]) == SumCounts(s) - s[i].count + e.count
  {
    var n := |s| - 1;
    if i == n {
      assert s[i := e][..n] == s[..n];
    } else {
      assert s[i := e][..n] == s[..n][i := e];
      SumCountsUpdate(s[..n], i, e);
    }
  }

  lemma CountAppend(s: seq<Entry>, e: Entry, q: string)
    requires Find(s, e.pattern) == |s|
    ensures CountOf(s + [e], q) == if q == e.pattern then e.count else CountOf(s, q)
  {
    FindIs(s + [e], q, if Find(s, q) == |s| && q != e.pattern then |s| + 1 else Find(s, q));
  }

  lemma CountUpdate(s: seq<Entry>, i: nat, e: Entry, q: string)
    requires Unique(s) && i < |s| && s[i].pattern == e.pattern
    ensures CountOf(s[i := e], q) == if q == e.pattern then e.count else CountOf(s, q)
  {
    FindIs(s, e.pattern, i);
    FindIs(s[i := e], q, Find(s, q));
  }

  lemma CountRemove(s: seq<Entry>, i: nat, q: string)
    requires Unique(s) && i < |s|
    ensures CountOf(s[..i] + s[i + 1..], q) == if q == s[i].pattern then 0 else CountOf(s, q)
  {
    var k := Find(s, q);
    FindIs(s[..i] + s[i + 1..], q, if q == s[i].pattern then |s| - 1 else if k > i then k - 1 else k);
  }

  /** A success adds one to its own pattern and to nothing else. */
  lemma MergePatternCounts(s: seq<Entry>, e: Entry)
    requires Tallied(s)
    ensures Tallied(MergePattern(s, e))
    ensures forall q :: CountOf(MergePattern(s, e), q) == CountOf(s, q) + if q == e.pattern then 1 else 0
    ensures SumCounts(MergePattern(s, e)) == SumCounts(s) + 1
  {
    var t, i := MergePattern(s, e), Find(s, e.pattern);
    if i < |s| {
      forall q ensures CountOf(t, q) == CountOf(s, q) + if q == e.pattern then 1 else 0 {
        CountUpdate(s, i, t[i], q);
      }
      SumCountsUpdate(s, i, t[i]);
    } else {
      forall q ensures CountOf(t, q) == CountOf(s, q) + if q == e.pattern then 1 else 0 { CountAppend(s, t[i], q); }
      assert t[..|s|] == s;
    }
  }

  /** Antibodies are unique and have not reached the fossil threshold. */
  predicate Pending(s: seq<Entry>) {
    Tallied(s) && forall i :: 0 <= i < |s| ==> s[i].count < FOSSIL_THRESHOLD
  }

  lemma MergeFailureAt(antibodies: seq<Entry>, fossils: seq<Entry>, e: Entry, q: string)
    requires Pending(antibodies)
    ensures
      var a, c := MergeFailure(antibodies, fossils, e).0, CountOf(antibodies, e.pattern);
      0 <= c < 3 && CountOf(a, q) == if q == e.pattern then (c + 1) % 3 else CountOf(antibodies, q)
  {
    var c, i := CountOf(antibodies, e.pattern), Find(antibodies, e.pattern);
    if i == |antibodies| {
      CountAppend(antibodies, e.(count := 1), q);
    } else if c + 1 == 3 {
      CountRemove(antibodies, i, q);
    } else {
      CountUpdate(antibodies, i, antibodies[i].(count := c + 1), q);
    }
  }

  /** A failure advances its own antibody around the cycle 0, 1, 2. */
  lemma MergeFailureCounts(antibodies: seq<Entry>, fossils: seq<Entry>, e: Entry)
    requires Pending(antibodies)
    ensures Pending(MergeFailure(antibodies, fossils, e).0)
    ensures
      var a, c := MergeFailure(antibodies, fossils, e).0, CountOf(antibodies, e.pattern);
      forall q :: CountOf(a, q) == if q == e.pattern then (c + 1) % 3 else CountOf(antibodies, q)
  {
    forall q ensures
      var a, c := MergeFailure(antibodies, fossils, e).0, CountOf(antibodies, e.pattern);
      CountOf(a, q) == if q == e.pattern then (c + 1) % 3 else CountOf(antibodies, q)
    {
      MergeFailureAt(antibodies, fossils, e, q);
    }
  }

  predicate AllFossils(s: seq<Entry>) {
    forall i :: 0 <= i < |s| ==> s[i].count == FOSSIL_THRESHOLD
  }

  /** The third failure in a row of the cycle leaves a fossil of count three. */
  lemma MergeFailureFossils(antibodies: seq<Entry>, fossils: seq<Entry>, e: Entry)
    requires Pending(antibodies) && AllFossils(fossils)
    ensures
      var f, c := MergeFailure(antibodies, fossils, e).1, CountOf(antibodies, e.pattern);
      AllFossils(f)
      && forall q :: FossilsOf(f, q) == FossilsOf(fossils, q) + if q == e.pattern && c == 2 then 1 else 0
  {
    var f := MergeFailure(antibodies, fossils, e).1;
    if f != fossils { assert f[..|fossils|] == fossils; }
  }

  // ---------------------------------------------------------------- histories

  function Fails(h: seq<Outcome>, p: string): nat {
    if h == [] then 0
    else Fails(h[..|h| - 1], p) + if !h[|h| - 1].passed && h[|h| - 1].entry.pattern == p then 1 else 0
  }

  function Wins(h: seq<Outcome>, p: string): nat {
    if h == [] then 0
    else Wins(h[..|h| - 1], p) + if h[|h| - 1].passed && h[|h| - 1].entry.pattern == p then 1 else 0
  }

  function Passes(h: seq<Outcome>): nat {
    if h == [] then 0 else Passes(h[..|h| - 1]) + if h[|h| - 1].passed then 1 else 0
  }

  function Cost(h: seq<Outcome>): real {
    if h == [] then 0.0 else Cost(h[..|h| - 1]) + h[|h| - 1].cost
  }

  /** The outcomes a provider took part in. */
  function Through(h: seq<Outcome>, name: string): seq<Outcome> {
    if h == [] then []
    else Through(h[..|h| - 1], name) + if h[|h| - 1].provider == name then [h[|h| - 1]] else []
  }

  /** The failure side: `n` failures of a pattern are `n / 3` fossils of count three and one
      antibody of count `n % 3`, or none when that is zero. */
  ghost predicate FailureLedger(antibodies: seq<Entry>, fossils: seq<Entry>, h: seq<Outcome>) {
    && Pending(antibodies) && AllFossils(fossils)
    && (forall p :: CountOf(antibodies, p) == Fails(h, p) % 3)
    && (forall p :: FossilsOf(fossils, p) == Fails(h, p) / 3)
  }

  /** The success side: unique patterns whose counts are the successes. */
  ghost predicate SuccessLedger(patterns: seq<Entry>, h: seq<Outcome>) {
    && Tallied(patterns)
    && (forall p :: CountOf(patterns, p) == Wins(h, p))
    && SumCounts(patterns) == Passes(h)
  }

  datatype Record = NoRecord | Record(successes: int, failures: int, cost: real)

  /** What the provider genes say about a provider. */
  function RecordOf(s: seq<ProviderGene>, name: string): Record {
    var i := FindProvider(s, name);
    if i == |s| then NoRecord else Record(s[i].successes, s[i].failures, s[i].totalCost)
  }

  /** What a history says about a provider it only used that provider for. */
  function Expected(h: seq<Outcome>): Record {
    if h == [] then NoRecord else Record(Passes(h), |h| - Passes(h), Cost(h))
  }

  ghost predicate ProviderLedger(providers: seq<ProviderGene>, h: seq<Outcome>) {
    && UniqueProviders(providers)
    && forall name :: name != "" ==> RecordOf(providers, name) == Expected(Through(h, name))
  }

  // ---------------------------------------------------------------- where stored entries come from

  /** The entry of the j-th outcome, dated and with the count. */
  function Dated(h: seq<Outcome>, j: nat, count: int): Entry
    requires j < |h|
  {
    h[j].entry.(generation := j + 1, count := count)
  }

  predicate FailedAt(h: seq<Outcome>, j: nat, p: string) {
    j < |h| && !h[j].passed && h[j].entry.pattern == p
  }

  predicate WonAt(h: seq<Outcome>, j: nat, p: string) {
    j < |h| && h[j].passed && h[j].entry.pattern == p
  }

  /** The entry of the first success with the pattern, counting all of them. */
  ghost predicate FirstWin(h: seq<Outcome>, e: Entry) {
    exists j: nat :: WonAt(h, j, e.pattern) && Wins(h[..j], e.pattern) == 0 && e == Dated(h, j, Wins(h, e.pattern))
  }

  /** The entry of the failure that began the unfinished round of three. */
  ghost predicate OpensRound(h: seq<Outcome>, e: Entry) {
    exists j: nat :: FailedAt(h, j, e.pattern)
      && Fails(h[..j], e.pattern) == Fails(h, e.pattern) - Fails(h, e.pattern) % 3
      && e == Dated(h, j, Fails(h, e.pattern) % 3)
  }

  /** The entry of the failure that began a finished round of three. */
  ghost predicate OpenedRound(h: seq<Outcome>, e: Entry) {
    exists j: nat :: FailedAt(h, j, e.pattern)
      && Fails(h[..j], e.pattern) % 3 == 0 && Fails(h[..j], e.pattern) + 3 <= Fails(h, e.pattern)
      && e == Dated(h, j, 3)
  }

  predicate ByGeneration(s: seq<Entry>) {
    forall i, k :: 0 <= i < k < |s| ==> s[i].generation < s[k].generation
  }

  /** The fossils of one pattern are those of different rounds, in order. */
  predicate RoundsInOrder(s: seq<Entry>) {
    forall i, k :: 0 <= i < k < |s| && s[i].pattern == s[k].pattern ==> s[i].generation < s[k].generation
  }

  ghost predicate WonEntries(patterns: seq<Entry>, h: seq<Outcome>) {
    ByGeneration(patterns) && forall i :: 0 <= i < |patterns| ==> FirstWin(h, patterns[i])
  }

  ghost predicate OpenRounds(antibodies: seq<Entry>, h: seq<Outcome>) {
    ByGeneration(antibodies) && forall i :: 0 <= i < |antibodies| ==> OpensRound(h, antibodies[i])
  }

  ghost predicate FinishedRounds(fossils: seq<Entry>, h: seq<Outcome>) {
    RoundsInOrder(fossils) && forall i :: 0 <= i < |fossils| ==> OpenedRound(h, fossils[i])
  }

  /** A gene dates from the first outcome of its provider. */
  ghost predicate FirstUse(h: seq<Outcome>, gene: ProviderGene) {
    var n := gene.generation - 1;
    0 <= n < |h| && h[n].provider == gene.provider && Through(h[..n], gene.provider) == []
  }

  ghost predicate DatedGenes(providers: seq<ProviderGene>, h: seq<Outcome>) {
    forall i :: 0 <= i < |providers| ==> FirstUse(h, providers[i])
  }

  ghost predicate Ledger(g: Genome, h: seq<Outcome>) {
    && WonEntries(g.patterns, h)
    && OpenRounds(g.antibodies, h) && FinishedRounds(g.fossils, h)
    && DatedGenes(g.providers, h)
    && FailureLedger(g.antibodies, g.fossils, h)
    && SuccessLedger(g.patterns, h)
    && ProviderLedger(g.providers, h)
    && g.successes == Passes(h)
    && g.generation == g.successes + g.failures == |h|
    && g.totalCost == Cost(h)
  }

  lemma Appended(h: seq<Outcome>, o: Outcome, p: string)
    ensures Fails(h + [o], p) == Fails(h, p) + if !o.passed && o.entry.pattern == p then 1 else 0
    ensures Wins(h + [o], p) == Wins(h, p) + if o.passed && o.entry.pattern == p then 1 else 0
    ensures Passes(h + [o]) == Passes(h) + if o.passed then 1 else 0
    ensures Cost(h + [o]) == Cost(h) + o.cost
    ensures Through(h + [o], p) == Through(h, p) + if o.provider == p then [o] else []
  {
    assert (h + [o])[..|h|] == h;
  }

  function Plus(r: Record, o: Outcome): Record {
    var base := if r.NoRecord? then Record(0, 0, 0.0) else r;
    Record(base.successes + (if o.passed then 1 else 0), base.failures + (if o.passed then 0 else 1),
           base.cost + o.cost)
  }

  lemma ExpectedPlus(h: seq<Outcome>, o: Outcome)
    ensures Expected(h + [o]) == Plus(Expected(h), o)
  {
    Appended(h, o, "");
    assert h == [] ==> Passes(h) == 0 && Cost(h) == 0.0;
  }

  lemma MergeProviderAt(s: seq<ProviderGene>, o: Outcome, generation: int, name: string)
    requires name != ""
    ensures
      var t := MergeProvider(s, o.provider, o.passed, o.cost, generation);
      RecordOf(t, name) == if name == o.provider then Plus(RecordOf(s, name), o) else RecordOf(s, name)
  {
    var t, k := MergeProvider(s, o.provider, o.passed, o.cost, generation), FindProvider(s, name);
    FindProviderIs(t, name, if k == |s| && name != o.provider then |t| else k);
  }

  lemma FailureStepAt(antibodies: seq<Entry>, fossils: seq<Entry>, h: seq<Outcome>, o: Outcome, e: Entry, p: string)
    requires Pending(antibodies) && AllFossils(fossils) && e.pattern == o.entry.pattern && !o.passed
    requires CountOf(antibodies, p) == Fails(h, p) % 3 && FossilsOf(fossils, p) == Fails(h, p) / 3
    ensures CountOf(MergeFailure(antibodies, fossils, e).0, p) == Fails(h + [o], p) % 3
    ensures FossilsOf(MergeFailure(antibodies, fossils, e).1, p) == Fails(h + [o], p) / 3
  {
    MergeFailureAt(antibodies, fossils, e, p);
    MergeFailureFossils(antibodies, fossils, e);
    Appended(h, o, p);
  }

  lemma FailureStep(antibodies: seq<Entry>, fossils: seq<Entry>, h: seq<Outcome>, o: Outcome, e: Entry)
    requires FailureLedger(antibodies, fossils, h) && e.pattern == o.entry.pattern && !o.passed
    ensures
      var r := MergeFailure(antibodies, fossils, e);
      FailureLedger(r.0, r.1, h + [o])
  {
    var r := MergeFailure(antibodies, fossils, e);
    MergeFailureCounts(antibodies, fossils, e);
    MergeFailureFossils(antibodies, fossils, e);
    forall p ensures CountOf(r.0, p) == Fails(h + [o], p) % 3 && FossilsOf(r.1, p) == Fails(h + [o], p) / 3 {
      FailureStepAt(antibodies, fossils, h, o, e, p);
    }
  }

  lemma SuccessStep(patterns: seq<Entry>, h: seq<Outcome>, o: Outcome, e: Entry)
    requires SuccessLedger(patterns, h) && e.pattern == o.entry.pattern && o.passed
    ensures SuccessLedger(MergePattern(patterns, e), h + [o])
  {
    MergePatternCounts(patterns, e);
    forall p ensures CountOf(MergePattern(patterns, e), p) == Wins(h + [o], p) { Appended(h, o, p); }
    Appended(h, o, "");
  }

  lemma {:induction false} FailureKept(antibodies: seq<Entry>, fossils: seq<Entry>, h: seq<Outcome>, o: Outcome)
    requires FailureLedger(antibodies, fossils, h) && o.passed
    ensures FailureLedger(antibodies, fossils, h + [o])
  {
    forall p ensures Fails(h + [o], p) == Fails(h, p) { Appended(h, o, p); }
  }

  lemma {:induction false} SuccessKept(patterns: seq<Entry>, h: seq<Outcome>, o: Outcome)
    requires SuccessLedger(patterns, h) && !o.passed
    ensures SuccessLedger(patterns, h + [o])
  {
    forall p ensures Wins(h + [o], p) == Wins(h, p) { Appended(h, o, p); }
    Appended(h, o, "");
  }

  lemma ProviderStep(providers: seq<ProviderGene>, h: seq<Outcome>, o: Outcome, generation: int)
    requires ProviderLedger(providers, h)
    ensures ProviderLedger(MergeProvider(providers, o.provider, o.passed, o.cost, generation), h + [o])
  {
    var t := MergeProvider(providers, o.provider, o.passed, o.cost, generation);
    forall name | name != "" ensures RecordOf(t, name) == Expected(Through(h + [o], name)) {
      MergeProviderAt(providers, o, generation, name);
      Appended(h, o, name);
      ExpectedPlus(Through(h, name), o);
      assert Through(h, name) + [] == Through(h, name);
    }
  }

  lemma {:induction false} FirstWinStays(h: seq<Outcome>, o: Outcome, e: Entry)
    requires FirstWin(h, e)
    ensures FirstWin(h + [o], e.(count := Wins(h + [o], e.pattern)))
  {
    var j: nat :| WonAt(h, j, e.pattern) && Wins(h[..j], e.pattern) == 0 && e == Dated(h, j, Wins(h, e.pattern));
    assert (h + [o])[..j] == h[..j] && WonAt(h + [o], j, e.pattern);
  }

  lemma {:induction false} WonDated(h: seq<Outcome>, patterns: seq<Entry>, i: nat)
    requires WonEntries(patterns, h) && i < |patterns|
    ensures patterns[i].generation <= |h| && patterns[i].count == Wins(h, patterns[i].pattern)
  {
    assert FirstWin(h, patterns[i]);
  }

  lemma {:induction false} WonAgain(h: seq<Outcome>, o: Outcome, e: Entry)
    requires FirstWin(h, e) && o.passed
    ensures FirstWin(h + [o], if o.entry.pattern == e.pattern then e.(count := e.count + 1) else e)
  {
    Appended(h, o, e.pattern);
    FirstWinStays(h, o, e);
  }

  lemma {:induction false} WonFirst(h: seq<Outcome>, o: Outcome)
    requires o.passed && Wins(h, o.entry.pattern) == 0
    ensures FirstWin(h + [o], o.entry.(generation := |h| + 1, count := 1))
  {
    Appended(h, o, o.entry.pattern);
    assert (h + [o])[..|h|] == h && WonAt(h + [o], |h|, o.entry.pattern);
  }

  lemma {:induction false} WonStep(patterns: seq<Entry>, h: seq<Outcome>, o: Outcome, e: Entry)
    requires WonEntries(patterns, h) && Tallied(patterns) && CountOf(patterns, e.pattern) == Wins(h, e.pattern)
    requires o.passed && e == o.entry.(generation := |h| + 1)
    ensures WonEntries(MergePattern(patterns, e), h + [o])
  {
    var t, k := MergePattern(patterns, e), Find(patterns, e.pattern);
    forall i | 0 <= i < |t| ensures FirstWin(h + [o], t[i]) {
      if i < |patterns| {
        WonAgain(h, o, patterns[i]);
        assert i != k ==> patterns[i].pattern != e.pattern;
      } else {
        WonFirst(h, o);
      }
    }
    forall i | 0 <= i < |patterns| ensures patterns[i].generation <= |h| { WonDated(h, patterns, i); }
  }

  lemma {:induction false} WonStays(patterns: seq<Entry>, h: seq<Outcome>, o: Outcome)
    requires WonEntries(patterns, h) && !o.passed
    ensures WonEntries(patterns, h + [o])
  {
    forall i | 0 <= i < |patterns| ensures FirstWin(h + [o], patterns[i]) {
      WonDated(h, patterns, i);
      Appended(h, o, patterns[i].pattern);
      FirstWinStays(h, o, patterns[i]);
    }
  }

  /** A further failure of another pattern, or a success, leaves the round as it is. */
  lemma {:induction false} OpensStays(h: seq<Outcome>, o: Outcome, e: Entry)
    requires OpensRound(h, e) && (o.passed || o.entry.pattern != e.pattern)
    ensures OpensRound(h + [o], e)
  {
    Appended(h, o, e.pattern);
    var j: nat :| FailedAt(h, j, e.pattern)
      && Fails(h[..j], e.pattern) == Fails(h, e.pattern) - Fails(h, e.pattern) % 3
      && e == Dated(h, j, Fails(h, e.pattern) % 3);
    assert (h + [o])[..j] == h[..j] && FailedAt(h + [o], j, e.pattern);
  }

  /** The next failure of the pattern advances the round, and the third finishes it. */
  lemma {:induction false} OpensAdvances(h: seq<Outcome>, o: Outcome, e: Entry)
    requires OpensRound(h, e) && !o.passed && o.entry.pattern == e.pattern && e.count >= 1
    ensures e.count == 1 ==> OpensRound(h + [o], e.(count := 2))
    ensures e.count == 2 ==> OpenedRound(h + [o], e.(count := 3))
  {
    var j: nat :| FailedAt(h, j, e.pattern)
      && Fails(h[..j], e.pattern) == Fails(h, e.pattern) - Fails(h, e.pattern) % 3
      && e == Dated(h, j, Fails(h, e.pattern) % 3);
    RoundAdvances(h, o, e.pattern, j, h + [o]);
    assert Dated(h + [o], j, 2) == e.(count := 2) && Dated(h + [o], j, 3) == e.(count := 3);
  }

  lemma {:induction false} RoundAdvances(h: seq<Outcome>, o: Outcome, p: string, j: nat, all: seq<Outcome>)
    requires FailedAt(h, j, p) && !o.passed && o.entry.pattern == p && all == h + [o]
    requires Fails(h[..j], p) == Fails(h, p) - Fails(h, p) % 3
    ensures FailedAt(all, j, p) && Fails(all[..j], p) == Fails(h[..j], p) && Fails(h[..j], p) % 3 == 0
    ensures Fails(all, p) == Fails(h, p) + 1
    ensures Fails(h, p) % 3 == 1 ==> Fails(all, p) % 3 == 2
  {
    Appended(h, o, p);
    assert all[..j] == h[..j];
  }

  lemma {:induction false} OpenedStays(h: seq<Outcome>, o: Outcome, e: Entry)
    requires OpenedRound(h, e)
    ensures OpenedRound(h + [o], e)
  {
    Appended(h, o, e.pattern);
    var j: nat :| FailedAt(h, j, e.pattern)
      && Fails(h[..j], e.pattern) % 3 == 0 && Fails(h[..j], e.pattern) + 3 <= Fails(h, e.pattern)
      && e == Dated(h, j, 3);
    assert (h + [o])[..j] == h[..j] && FailedAt(h + [o], j, e.pattern);
  }

  lemma {:induction false} OpensDated(h: seq<Outcome>, e: Entry)
    requires OpensRound(h, e)
    ensures e.generation <= |h| && e.count == Fails(h, e.pattern) % 3
  {}

  lemma {:induction false} FailsPrefix(h: seq<Outcome>, i: nat, j: nat, p: string)
    requires i <= j <= |h|
    ensures Fails(h[..i], p) <= Fails(h[..j], p)
    decreases j
  {
    if i < j {
      FailsPrefix(h, i, j - 1, p);
      assert h[..j][..j - 1] == h[..j - 1];
    }
  }

  /** A finished round began before the unfinished one. */
  lemma {:induction false} RoundsOrdered(h: seq<Outcome>, f: Entry, e: Entry)
    requires OpenedRound(h, f) && OpensRound(h, e) && f.pattern == e.pattern
    ensures f.generation < e.generation
  {
    var p := e.pattern;
    var i: nat :| FailedAt(h, i, p) && Fails(h[..i], p) % 3 == 0 && Fails(h[..i], p) + 3 <= Fails(h, p)
      && f == Dated(h, i, 3);
    var j: nat :| FailedAt(h, j, p) && Fails(h[..j], p) == Fails(h, p) - Fails(h, p) % 3
      && e == Dated(h, j, Fails(h, p) % 3);
    if j <= i {
      FailsPrefix(h, j, i, p);
    }
  }

  /** The rounds of the other antibodies are open as they were. */
  ghost predicate OthersOpen(s: seq<Entry>, k: nat, h: seq<Outcome>) {
    ByGeneration(s) && forall i :: 0 <= i < |s| && i != k ==> OpensRound(h, s[i])
  }

  lemma {:induction false} OthersStay(s: seq<Entry>, k: nat, h: seq<Outcome>, o: Outcome)
    requires OpenRounds(s, h) && Unique(s) && k <= |s| && (k == |s| ==> Find(s, o.entry.pattern) == |s|)
    requires k < |s| ==> s[k].pattern == o.entry.pattern
    ensures OthersOpen(s, k, h + [o])
  {
    forall i | 0 <= i < |s| && i != k ensures OpensRound(h + [o], s[i]) { OpensStays(h, o, s[i]); }
  }

  lemma {:induction false} OpenAppended(s: seq<Entry>, h: seq<Outcome>, e: Entry, all: seq<Outcome>)
    requires OthersOpen(s, |s|, all) && OpenRounds(s, h) && OpensRound(all, e) && e.generation > |h|
    ensures OpenRounds(s + [e], all)
  {
    forall i | 0 <= i < |s| ensures s[i].generation <= |h| { OpensDated(h, s[i]); }
  }

  lemma {:induction false} OpenRemoved(s: seq<Entry>, k: nat, all: seq<Outcome>)
    requires k < |s| && OthersOpen(s, k, all)
    ensures OpenRounds(s[..k] + s[k + 1..], all)
  {}

  lemma {:induction false} OpenReplaced(s: seq<Entry>, k: nat, e: Entry, all: seq<Outcome>)
    requires k < |s| && OthersOpen(s, k, all) && OpensRound(all, e) && e.generation == s[k].generation
    ensures OpenRounds(s[k := e], all)
  {}

  lemma {:induction false} OpenStep(antibodies: seq<Entry>, fossils: seq<Entry>, h: seq<Outcome>, o: Outcome,
      e: Entry)
    requires OpenRounds(antibodies, h) && Pending(antibodies)
    requires CountOf(antibodies, e.pattern) == Fails(h, e.pattern) % 3
    requires !o.passed && e == o.entry.(generation := |h| + 1)
    ensures OpenRounds(MergeFailure(antibodies, fossils, e).0, h + [o])
  {
    var k := Find(antibodies, e.pattern);
    OthersStay(antibodies, k, h, o);
    if k == |antibodies| {
      NewRound(antibodies, h, o, e);
      OpenAppended(antibodies, h, e.(count := 1), h + [o]);
    } else {
      var a := antibodies[k];
      OpensAdvances(h, o, a);
      if a.count == 2 {
        OpenRemoved(antibodies, k, h + [o]);
      } else {
        OpenReplaced(antibodies, k, a.(count := 2), h + [o]);
      }
    }
  }

  lemma {:induction false} FinishedStep(antibodies: seq<Entry>, fossils: seq<Entry>, h: seq<Outcome>, o: Outcome,
                                        e: Entry)
    requires OpenRounds(antibodies, h) && Pending(antibodies) && FinishedRounds(fossils, h)
    requires !o.passed && e.pattern == o.entry.pattern
    ensures FinishedRounds(MergeFailure(antibodies, fossils, e).1, h + [o])
  {
    var r, k := MergeFailure(antibodies, fossils, e).1, Find(antibodies, e.pattern);
    FinishedStays(fossils, h, o);
    if k < |antibodies| {
      var a := antibodies[k];
      OpensAdvances(h, o, a);
      if a.count == 2 {
        forall i | 0 <= i < |fossils| && fossils[i].pattern ==
            e.pattern ensures fossils[i].generation < a.generation {
          RoundsOrdered(h, fossils[i], a);
        }
        assert r == fossils + [a.(count := 3)];
      }
    }
  }

  lemma {:induction false} NewRound(antibodies: seq<Entry>, h: seq<Outcome>, o: Outcome, e: Entry)
    requires CountOf(antibodies, e.pattern) == Fails(h, e.pattern) % 3 && Find(antibodies, e.pattern) == |antibodies|
    requires !o.passed && e == o.entry.(generation := |h| + 1)
    ensures OpensRound(h + [o], e.(count := 1))
  {
    Appended(h, o, e.pattern);
    assert (h + [o])[..|h|] == h && FailedAt(h + [o], |h|, e.pattern);
  }

  lemma {:induction false} FinishedStays(fossils: seq<Entry>, h: seq<Outcome>, o: Outcome)
    requires FinishedRounds(fossils, h)
    ensures FinishedRounds(fossils, h + [o])
  {
    forall i | 0 <= i < |fossils| ensures OpenedRound(h + [o], fossils[i]) { OpenedStays(h, o, fossils[i]); }
  }

  lemma {:induction false} OpenStays(antibodies: seq<Entry>, h: seq<Outcome>, o: Outcome)
    requires OpenRounds(antibodies, h) && o.passed
    ensures OpenRounds(antibodies, h + [o])
  {
    forall i | 0 <= i < |antibodies| ensures OpensRound(h + [o], antibodies[i]) { OpensStays(h, o, antibodies[i]); }
  }

  lemma {:induction false} GenesStep(providers: seq<ProviderGene>, h: seq<Outcome>, o: Outcome)
    requires DatedGenes(providers, h) && ProviderLedger(providers, h)
    ensures DatedGenes(MergeProvider(providers, o.provider, o.passed, o.cost, |h| + 1), h + [o])
  {
    var t, k := MergeProvider(providers, o.provider, o.passed, o.cost, |h| + 1), FindProvider(providers, o.provider);
    forall i | 0 <= i < |t| ensures FirstUse(h + [o], t[i]) {
      if i < |providers| {
        assert FirstUse(h, providers[i]);
        var n := providers[i].generation - 1;
        assert (h + [o])[..n] == h[..n] && t[i].provider == providers[i].provider;
      } else {
        assert (h + [o])[..|h|] == h && RecordOf(providers, o.provider) == Expected(Through(h, o.provider));
      }
    }
  }

  lemma {:induction false} EvolveLedger(g: Genome, h: seq<Outcome>, o: Outcome)
    requires Ledger(g, h)
    ensures Ledger(Evolve(g, o), h + [o])
    ensures
      var r := Evolve(g, o);
      r.species == g.species && r.parent == g.parent && r.hibernating == g.hibernating
  {
    var e := o.entry.(generation := g.generation + 1);
    if o.passed {
      SuccessStep(g.patterns, h, o, e);
      FailureKept(g.antibodies, g.fossils, h, o);
      WonStep(g.patterns, h, o, e);
      OpenStays(g.antibodies, h, o);
      FinishedStays(g.fossils, h, o);
    } else {
      FailureStep(g.antibodies, g.fossils, h, o, e);
      SuccessKept(g.patterns, h, o);
      OpenStep(g.antibodies, g.fossils, h, o, e);
      FinishedStep(g.antibodies, g.fossils, h, o, e);
      WonStays(g.patterns, h, o);
    }
    ProviderStep(g.providers, h, o, g.generation + 1);
    GenesStep(g.providers, h, o);
    Appended(h, o, "");
  }

  lemma {:induction false} LedgerStep(g: Genome, h: seq<Outcome>, o: Outcome, now: Genome, all: seq<Outcome>)
    requires Ledger(g, h) && now == Evolve(g, o) && all == h + [o]
    ensures Ledger(now, all)
  {
    EvolveLedger(g, h, o);
  }

  lemma EmptyLedger(species: string)
    ensures Ledger(EmptyGenome(species), [])
  {}

  lemma {:induction false} HistoryOf(species: string, h: seq<Outcome>) returns (g: Genome)
    ensures g == EvolveAll(EmptyGenome(species), h) && Ledger(g, h)
  {
    if h == [] {
      EmptyLedger(species);
      g := EmptyGenome(species);
    } else {
      var n := |h| - 1;
      assert h == h[..n] + [h[n]];
      g := EvolveAll(EmptyGenome(species), h);
      var before := EvolveAll(EmptyGenome(species), h[..n]);
      assert g == Evolve(before, h[n]);
      var was := HistoryOf(species, h[..n]);
      LedgerStep(before, h[..n], h[n], g, h);
    }
  }

  /** The laws of the ledger hold after any history of evolutions of a new species. */
  lemma HistoryLedger(species: string, h: seq<Outcome>)
    ensures Ledger(EvolveAll(EmptyGenome(species), h), h)
  {
    var g := HistoryOf(species, h);
  }

  // ---------------------------------------------------------------- the store

  type Rows = map<string, Genome>

  /** The stored genome, or an empty one for a species not yet observed. */
  function Fetch(rows: Rows, species: string): Genome {
    if species in rows then rows[species] else EmptyGenome(species)
  }

  function PhageReason(source: string, generation: int): string {
    "phage from " + source + " (gen " + (if generation < 0 then "-" + Decimal(-generation) else Decimal(generation))
        + ")"
  }

  function Phage(source: string, e: Entry): Outcome {
    Outcome(true, e.(count := 1, reason := PhageReason(source, e.generation)), "", 0.0)
  }

  /** A proven pattern the sibling did not hold when its row was read. */
  predicate Infects(held: seq<Entry>, e: Entry) {
    e.count >= 3 && Find(held, e.pattern) == |held|
  }

  function Infect(held: seq<Entry>, g: Genome, source: string, ps: seq<Entry>): Genome {
    if ps == [] then g
    else
      var before, e := Infect(held, g, source, ps[..|ps| - 1]), ps[|ps| - 1];
      if Infects(held, e) then Evolve(before, Phage(source, e)) else before
  }

  function Missing(held: seq<Entry>, ps: seq<Entry>): nat {
    if ps == [] then 0
    else Missing(held, ps[..|ps| - 1]) + if Infects(held, ps[|ps| - 1]) then 1 else 0
  }

  function Siblings(rows: Rows, source: string): set<string> {
    set sp | sp in rows && sp != source && rows[sp].parent == Fetch(rows, source).parent
  }

  predicate Spreads(rows: Rows, source: string) {
    Fetch(rows, source).parent != "" && Fetch(rows, source).patterns != []
  }

  function InfectedRows(rows: Rows, source: string, who: set<string>): Rows {
    map sp | sp in rows ::
      if sp in who then Infect(rows[sp].patterns, rows[sp], source, Fetch(rows, source).patterns) else rows[sp]
  }

  function Spread(rows: Rows, source: string): Rows {
    if Spreads(rows, source) then InfectedRows(rows, source, Siblings(rows, source)) else rows
  }

  predicate Holds(g: Genome, p: string) {
    Find(g.patterns, p) < |g.patterns|
  }

  /** Infection runs one successful evolution per missing pattern and touches nothing else. */
  lemma {:induction false} InfectCounts(held: seq<Entry>, g: Genome, source: string, ps: seq<Entry>)
    ensures
      var r, k := Infect(held, g, source, ps), Missing(held, ps);
      r == g.(patterns := r.patterns, generation := g.generation + k, successes := g.successes + k)
  {
    if ps != [] { InfectCounts(held, g, source, ps[..|ps| - 1]); }
  }

  /** The i-th entry of the sibling came with a proven pattern it lacked, once, dated behind its own
      history and telling where it came from. */
  ghost predicate FromPhage(g: Genome, source: string, ps: seq<Entry>, e: Entry, i: nat) {
    exists k :: 0 <= k < |ps| && ps[k].count >= 3 && (forall own <- g.patterns :: own.pattern != ps[k].pattern)
      && e == Entry(ps[k].pattern, PhageReason(source, ps[k].generation), ps[k].alternative, 1,
                    g.generation + 1 + i - |g.patterns|, ps[k].files, ps[k].agent)
  }

  lemma {:induction false} PhageSource(g: Genome, source: string, ps: seq<Entry>, n: nat, e: Entry,
      i: nat) returns (k: nat)
    requires n <= |ps| && FromPhage(g, source, ps[..n], e, i)
    ensures k < n && ps[k].pattern == e.pattern && FromPhage(g, source, ps, e, i)
  {
    k :| 0 <= k < n && ps[..n][k].count >= 3 && (forall own <- g.patterns :: own.pattern != ps[..n][k].pattern)
      && e == Entry(ps[..n][k].pattern, PhageReason(source, ps[..n][k].generation), ps[..n][k].alternative, 1,
                    g.generation + 1 + i - |g.patterns|, ps[..n][k].files, ps[..n][k].agent);
    assert ps[..n][k] == ps[k];
  }

  /** All entries behind the own ones of the sibling came with a phage. */
  ghost predicate AllPhages(g: Genome, source: string, ps: seq<Entry>, now: seq<Entry>) {
    forall i :: |g.patterns| <= i < |now| ==> FromPhage(g, source, ps, now[i], i)
  }

  lemma {:induction false} PhagesMore(g: Genome, source: string, ps: seq<Entry>, n: nat, now: seq<Entry>)
    requires n < |ps| && Unique(ps) && AllPhages(g, source, ps[..n], now)
    ensures AllPhages(g, source, ps, now)
    ensures forall i :: |g.patterns| <= i < |now| ==> now[i].pattern != ps[n].pattern
  {
    forall i | |g.patterns| <= i < |now|
      ensures FromPhage(g, source, ps, now[i], i) && now[i].pattern != ps[n].pattern
    {
      var k := PhageSource(g, source, ps, n, now[i], i);
    }
  }

  /** The sibling keeps its own entries, gains `k` entries with phages, and holds every proven pattern. */
  ghost predicate Infected(g: Genome, source: string, ps: seq<Entry>, now: Genome, k: nat) {
    && g.patterns <= now.patterns && |now.patterns| == |g.patterns| + k
    && (forall i :: 0 <= i < |ps| && ps[i].count >= 3 ==> Holds(now, ps[i].pattern))
    && AllPhages(g, source, ps, now.patterns)
  }

  /** From unique source patterns the sibling keeps its own entries, gains one entry per missing
      pattern, and then holds every proven pattern. */
  lemma {:induction false} InfectPatterns(g: Genome, source: string, ps: seq<Entry>)
    requires Unique(ps)
    ensures Infected(g, source, ps, Infect(g.patterns, g, source, ps), Missing(g.patterns, ps))
  {
    if ps != [] {
      var n := |ps| - 1;
      InfectPatterns(g, source, ps[..n]);
      InfectCounts(g.patterns, g, source, ps[..n]);
      InfectNext(g, Infect(g.patterns, g, source, ps[..n]), source, ps, n, Missing(g.patterns, ps[..n]));
    }
  }

  lemma {:induction false} InfectNext(g: Genome, before: Genome, source: string, ps: seq<Entry>, n: nat, k: nat)
    requires |ps| == n + 1 && Unique(ps) && Infected(g, source, ps[..n], before, k)
    requires before.generation == g.generation + k
    ensures
      if Infects(g.patterns, ps[n]) then Infected(g, source, ps, Evolve(before, Phage(source, ps[n])), k + 1)
      else Infected(g, source, ps, before, k)
  {
    PhagesMore(g, source, ps, n, before.patterns);
    assert forall i :: 0 <= i < n ==> ps[..n][i] == ps[i];
    if Infects(g.patterns, ps[n]) {
      InfectOne(g, before, source, ps, n);
      HoldsMore(before, Evolve(before, Phage(source, ps[n])), g, ps, n);
    } else {
      HoldsMore(before, before, g, ps, n);
    }
  }

  lemma {:induction false} InfectOne(g: Genome, before: Genome, source: string, ps: seq<Entry>, n: nat)
    requires n < |ps| && Infects(g.patterns, ps[n]) && g.patterns <= before.patterns
    requires forall i :: |g.patterns| <= i < |before.patterns| ==> before.patterns[i].pattern != ps[n].pattern
    requires before.generation == g.generation + |before.patterns| - |g.patterns|
    ensures
      var r, m := Evolve(before, Phage(source, ps[n])), |before.patterns|;
      && r.patterns == before.patterns + [r.patterns[m]] && r.patterns[m].pattern == ps[n].pattern
      && FromPhage(g, source, ps, r.patterns[m], m)
  {
    var m := |before.patterns|;
    forall i | 0 <= i < m ensures before.patterns[i].pattern != ps[n].pattern {
      if i < |g.patterns| { assert before.patterns[i] == g.patterns[i]; }
    }
    FindIs(before.patterns, ps[n].pattern, m);
  }

  predicate EndsIn(g: Genome, p: string) {
    g.patterns != [] && g.patterns[|g.patterns| - 1].pattern == p
  }

  lemma HoldsMore(before: Genome, r: Genome, g: Genome, ps: seq<Entry>, n: nat)
    requires n < |ps| && before.patterns <= r.patterns && g.patterns <= r.patterns
    requires forall i :: 0 <= i < n && ps[i].count >= 3 ==> Holds(before, ps[i].pattern)
    requires ps[n].count >= 3 ==> Holds(g, ps[n].pattern) || EndsIn(r, ps[n].pattern)
    ensures forall i :: 0 <= i <= n && ps[i].count >= 3 ==> Holds(r, ps[i].pattern)
  {
    forall i | 0 <= i <= n && ps[i].count >= 3 ensures Holds(r, ps[i].pattern) {
      if i < n {
        assert r.patterns[Find(before.patterns, ps[i].pattern)].pattern == ps[i].pattern;
      } else if Find(g.patterns, ps[n].pattern) < |g.patterns| {
        assert r.patterns[Find(g.patterns, ps[n].pattern)].pattern == ps[n].pattern;
      }
    }
  }

  lemma {:induction false} NothingMissing(held: seq<Entry>, g: Genome, source: string, ps: seq<Entry>)
    requires forall i :: 0 <= i < |ps| && ps[i].count >= 3 ==> Find(held, ps[i].pattern) < |held|
    ensures Infect(held, g, source, ps) == g && Missing(held, ps) == 0
  {
    if ps != [] { NothingMissing(held, g, source, ps[..|ps| - 1]); }
  }

  /** The other species with the same parent, when the source has a parent and patterns. */
  predicate Reached(rows: Rows, source: string, sp: string)
    requires sp in rows
  {
    && source in rows && rows[source].parent != "" && rows[source].patterns != []
    && sp != source && rows[sp].parent == rows[source].parent
  }

  /** The effect of one spreading on every row of the store. */
  lemma {:induction false} SpreadExact(rows: Rows, source: string, sp: string)
    requires sp in rows && Unique(Fetch(rows, source).patterns)
    ensures
      var after, ps := Spread(rows, source), Fetch(rows, source).patterns;
      && after.Keys == rows.Keys
      && (Reached(rows, source, sp) ==>
            var k := |after[sp].patterns| - |rows[sp].patterns|;
            && k == Missing(rows[sp].patterns, ps)
            && after[sp] == rows[sp].(patterns := after[sp].patterns,
                                      generation := rows[sp].generation + k, successes := rows[sp].successes + k)
            && rows[sp].patterns <= after[sp].patterns
            && (forall i :: 0 <= i < |ps| && ps[i].count >= 3 ==> Holds(after[sp], ps[i].pattern))
            && AllPhages(rows[sp], source, ps, after[sp].patterns))
      && (!Reached(rows, source, sp) ==> after[sp] == rows[sp])
  {
    InfectCounts(rows[sp].patterns, rows[sp], source, Fetch(rows, source).patterns);
    InfectPatterns(rows[sp], source, Fetch(rows, source).patterns);
  }

  /** Spreading again changes nothing. */
  lemma SpreadTwice(rows: Rows, source: string)
    requires Unique(Fetch(rows, source).patterns)
    ensures Spread(Spread(rows, source), source) == Spread(rows, source)
  {
    var once := Spread(rows, source);
    if source in rows { SpreadExact(rows, source, source); }
    assert Fetch(once, source) == Fetch(rows, source);
    if Spreads(rows, source) {
      forall sp | sp in rows ensures Spread(once, source)[sp] == once[sp] {
        SpreadExact(rows, source, sp);
        if sp in Siblings(rows, source) {
          NothingMissing(once[sp].patterns, once[sp], source, Fetch(rows, source).patterns);
        }
      }
      assert Spread(once, source) == once;
    }
  }

  datatype StoreOp =
    | EvolveOp(species: string, outcome: Outcome)
    | SpreadOp(source: string)
    | HibernateOp(species: string)
    | CreateOp(species: string)

  function StoreStep(rows: Rows, op: StoreOp): Rows {
    match op
    case EvolveOp(species, o) => rows[species := Evolve(Fetch(rows, species), o)]
    case SpreadOp(source) => Spread(rows, source)
    case HibernateOp(species) => if species in rows then rows[species := rows[species].(hibernating := true)]
        else rows
    case CreateOp(species) => if species in rows then rows else rows[species := EmptyGenome(species)]
  }

  function StoreRun(rows: Rows, ops: seq<StoreOp>): Rows {
    if ops == [] then rows else StoreStep(StoreRun(rows, ops[..|ops| - 1]), ops[|ops| - 1])
  }

  /** Every stored genome satisfies the counting laws for some history. */
  ghost predicate Lawful(rows: Rows) {
    forall sp :: sp in rows ==> exists h :: Ledger(rows[sp], h)
  }

  lemma {:induction false} InfectLawful(held: seq<Entry>, g: Genome, h: seq<Outcome>, source: string, ps: seq<Entry>)
    returns (h': seq<Outcome>)
    requires Ledger(g, h)
    ensures Ledger(Infect(held, g, source, ps), h') && h <= h' && |h'| == |h| + Missing(held, ps)
  {
    h' := h;
    if ps != [] {
      h' := InfectLawful(held, g, h, source, ps[..|ps| - 1]);
      if Infects(held, ps[|ps| - 1]) {
        EvolveLedger(Infect(held, g, source, ps[..|ps| - 1]), h', Phage(source, ps[|ps| - 1]));
        h' := h' + [Phage(source, ps[|ps| - 1])];
      }
    }
  }

  lemma FetchLawful(rows: Rows, species: string) returns (h: seq<Outcome>)
    requires Lawful(rows)
    ensures Ledger(Fetch(rows, species), h)
  {
    if species in rows {
      h :| Ledger(rows[species], h);
    } else {
      h := [];
      EmptyLedger(species);
    }
  }

  lemma SpreadLawful(rows: Rows, source: string)
    requires Lawful(rows)
    ensures Lawful(Spread(rows, source))
  {
    var after := Spread(rows, source);
    forall sp | sp in after ensures exists h :: Ledger(after[sp], h) {
      var h := FetchLawful(rows, sp);
      if Spreads(rows, source) && sp in Siblings(rows, source) {
        var h' := InfectLawful(rows[sp].patterns, rows[sp], h, source, Fetch(rows, source).patterns);
      }
    }
  }

  lemma {:induction false} RowLawful(rows: Rows, species: string, g: Genome, h: seq<Outcome>)
    requires Lawful(rows) && Ledger(g, h)
    ensures Lawful(rows[species := g])
  {}

  lemma HibernatingLedger(g: Genome, h: seq<Outcome>)
    requires Ledger(g, h)
    ensures Ledger(g.(hibernating := true), h)
  {}

  lemma {:induction false} StepLawful(rows: Rows, op: StoreOp)
    requires Lawful(rows)
    ensures Lawful(StoreStep(rows, op))
  {
    match op
    case EvolveOp(species, o) =>
      var h := FetchLawful(rows, species);
      EvolveLedger(Fetch(rows, species), h, o);
      RowLawful(rows, species, Evolve(Fetch(rows, species), o), h + [o]);
    case SpreadOp(source) => SpreadLawful(rows, source);
    case HibernateOp(species) =>
      if species in rows {
        var h := FetchLawful(rows, species);
        HibernatingLedger(rows[species], h);
        RowLawful(rows, species, rows[species].(hibernating := true), h);
      }
    case CreateOp(species) =>
      EmptyLedger(species);
      RowLawful(rows, species, EmptyGenome(species), []);
  }

  /** The counting laws survive every run of evolutions, spreadings and hibernations, from any
      store that satisfies them. */
  lemma {:induction false} StoreRunLawful(rows: Rows, ops: seq<StoreOp>)
    requires Lawful(rows)
    ensures Lawful(StoreRun(rows, ops))
  {
    if ops != [] {
      StoreRunLawful(rows, ops[..|ops| - 1]);
      StepLawful(StoreRun(rows, ops[..|ops| - 1]), ops[|ops| - 1]);
    }
  }

  /** Nothing in the store assigns a parent species, so from an empty store spreading never
      changes a row. */
  lemma {:induction false} SpreadInertFromEmpty(ops: seq<StoreOp>, source: string)
    ensures forall sp :: sp in StoreRun(map[], ops) ==> StoreRun(map[], ops)[sp].parent == ""
    ensures Spread(StoreRun(map[], ops), source) == StoreRun(map[], ops)
  {
    if ops != [] {
      var op := ops[|ops| - 1];
      SpreadInertFromEmpty(ops[..|ops| - 1], if op.SpreadOp? then op.source else source);
    }
  }

  // ---------------------------------------------------------------- the store object

  method ScanEntries(s: seq<Entry>, p: string) returns (i: nat)
    ensures i == Find(s, p)
  {
    i := 0;
    while i < |s| && s[i].pattern != p
      invariant 0 <= i <= |s| && forall j :: 0 <= j < i ==> s[j].pattern != p
    {
      i := i + 1;
    }
    FindIs(s, p, i);
  }

  method ScanProviders(s: seq<ProviderGene>, name: string) returns (i: nat)
    ensures i == FindProvider(s, name)
  {
    i := 0;
    while i < |s| && s[i].provider != name
      invariant 0 <= i <= |s| && forall j :: 0 <= j < i ==> s[j].provider != name
    {
      i := i + 1;
    }
    FindProviderIs(s, name, i);
  }

  method RecordProvider(s: seq<ProviderGene>, o: Outcome, generation: int) returns (t: seq<ProviderGene>)
    requires o.provider != ""
    ensures t == MergeProvider(s, o.provider, o.passed, o.cost, generation)
  {
    var i := ScanProviders(s, o.provider);
    if i < |s| {
      var gene := s[i].(totalCost := s[i].totalCost + o.cost);
      if o.passed {
        gene := gene.(successes := gene.successes + 1);
      } else {
        gene := gene.(failures := gene.failures + 1);
      }
      t := s[i := gene];
    } else {
      var gene := ProviderGene(o.provider, 0, 0, o.cost, generation);
      if o.passed {
        gene := gene.(successes := 1);
      } else {
        gene := gene.(failures := 1);
      }
      t := s + [gene];
    }
  }

  method RecordPattern(s: seq<Entry>, e: Entry) returns (t: seq<Entry>)
    ensures t == MergePattern(s, e)
  {
    var i := ScanEntries(s, e.pattern);
    if i < |s| {
      t := s[i := s[i].(count := s[i].count + 1)];
    } else {
      t := s + [e.(count := 1)];
    }
  }

  method RecordFailure(antibodies: seq<Entry>, fossils: seq<Entry>, e: Entry) returns (a: seq<Entry>, f: seq<Entry>)
    ensures (a, f) == MergeFailure(antibodies, fossils, e)
  {
    a, f := antibodies, fossils;
    var i := ScanEntries(a, e.pattern);
    if i < |a| {
      a := a[i := a[i].(count := a[i].count + 1)];
      if a[i].count >= FOSSIL_THRESHOLD {
        f := f + [a[i]];
        a := a[..i] + a[i + 1..];
      }
    } else {
      a := a + [e.(count := 1)];
    }
  }

  method EvolveInPlace(start: Genome, o: Outcome) returns (g: Genome)
    ensures g == Evolve(start, o)
  {
    g := start.(generation := start.generation + 1, totalCost := start.totalCost + o.cost);
    var e := o.entry.(generation := g.generation);
    if o.provider != "" {
      var genes := RecordProvider(g.providers, o, g.generation);
      g := g.(providers := genes);
    }
    if o.passed {
      var patterns := RecordPattern(g.patterns, e);
      g := g.(successes := g.successes + 1, patterns := patterns);
    } else {
      var antibodies, fossils := RecordFailure(g.antibodies, g.fossils, e);
      g := g.(failures := g.failures + 1, antibodies := antibodies, fossils := fossils);
    }
  }

  class GenomeStore {
    var rows: Rows

    constructor ()
      ensures rows == map[]
    {
      rows := map[];
    }

    method EvolveGenomeWithCost(species: string, o: Outcome)
      modifies this
      ensures rows == StoreStep(old(rows), EvolveOp(species, o))
    {
      var g := EvolveInPlace(Fetch(rows, species), o);
      rows := rows[species := g];
    }

    method InfectSibling(sib: string, source: string, ps: seq<Entry>)
      requires sib in rows
      modifies this
      ensures rows == old(rows)[sib := Infect(old(rows)[sib].patterns, old(rows)[sib], source, ps)]
    {
      var held := rows[sib].patterns;
      ghost var before := rows;
      for i := 0 to |ps|
        invariant rows == before[sib := Infect(held, before[sib], source, ps[..i])]
      {
        assert ps[..i + 1][..i] == ps[..i];
        if ps[i].count < 3 {
          continue;
        }
        var k := ScanEntries(held, ps[i].pattern);
        if k == |held| {
          EvolveGenomeWithCost(sib, Phage(source, ps[i]));
        }
      }
      assert ps[..|ps|] == ps;
    }

    method SpreadPhages(source: string)
      modifies this
      ensures rows == Spread(old(rows), source)
    {
      var g := Fetch(rows, source);
      if g.parent == "" || |g.patterns| == 0 {
        return;
      }
      ghost var before := rows;
      var siblings := Enumerate(Siblings(rows, source));
      assert InfectedRows(before, source, {}) == before;
      for i := 0 to |siblings|
        invariant rows == InfectedRows(before, source, Elements(siblings[..i]))
      {
        var sib := siblings[i];
        assert sib in Siblings(before, source) && sib !in Elements(siblings[..i]);
        InfectSibling(sib, source, g.patterns);
        assert siblings[..i + 1] == siblings[..i] + [sib];
        assert Elements(siblings[..i + 1]) == Elements(siblings[..i]) + {sib};
      }
      assert siblings[..|siblings|] == siblings;
      assert Elements(siblings) == Siblings(before, source);
    }
  }
}
