/** Retry policy: exponential backoff with jitter, tier escalation, and the persisted retry
    record (internal/dispatch/retry.go, internal/store/dispatches.go). */
module Retry {
  import opened Text

  /** Durations are whole nanoseconds. */
  datatype Policy = Policy(maxRetries: int, initialDelay: int, backoffFactor: real, maxDelay: int, escalateAfter: int)

  function NormalizeTier(tier: string): string {
    ToLower(TrimSpace(tier))
  }

  function EscalateTier(tier: string): string {
    if tier == "fast" then "balanced" else if tier == "balanced" then "premium" else tier
  }

  predicate ShouldEscalate(escalateAfter: int, attempt: nat) {
    escalateAfter > 0 && attempt > 0 && attempt % escalateAfter == 0
  }

  function MaxReal(x: real, y: real): real {
    if x >= y then x else y
  }

  /** The base multiplied `n` times by the factor; factors below one count as one. */
  function Raw(base: int, factor: real, n: nat): real {
    if n == 0 then base as real else Raw(base, factor, n - 1) * MaxReal(factor, 1.0)
  }

  function Clamp(raw: real, base: int, maxDelay: int): real {
    MaxReal(if maxDelay > 0 && raw > maxDelay as real then maxDelay as real else raw, base as real)
  }

  /** The delay before jitter: base * factor^(retries-1), capped, and never below the base. */
  function Backoff(retries: int, base: int, maxDelay: int, factor: real): real
    requires retries > 0
  {
    Clamp(Raw(base, factor, retries - 1), base, maxDelay)
  }

  /** `draw` is the random number, from 0 up to but not including 1. */
  function Jittered(delay: real, draw: real): int {
    (delay * (1.0 + draw * 0.1)).Floor
  }

  function BackoffDelay(retries: int, base: int, maxDelay: int, factor: real, draw: real): int {
    if retries <= 0 || base <= 0 then 0
    else Jittered(Backoff(retries, base, maxDelay, factor), draw)
  }

  datatype Decision = Decision(delay: int, tier: string, retry: bool)

  function NextRetry(p: Policy, rawAttempt: int, currentTier: string, jitter: real): Decision {
    var attempt: nat := if rawAttempt < 0 then 0 else rawAttempt;
    var tier := NormalizeTier(currentTier);
    if p.maxRetries <= attempt then Decision(0, tier, false)
    else
      Decision(BackoffDelay(attempt + 1, p.initialDelay, p.maxDelay, p.backoffFactor, jitter),
               if ShouldEscalate(p.escalateAfter, attempt) then EscalateTier(tier) else tier, true)
  }

  // ---------------------------------------------------------------- delays

  lemma {:induction false} RawGrows(base: int, factor: real, n: nat)
    requires base > 0
    ensures base as real <= Raw(base, factor, n) <= Raw(base, factor, n + 1)
  {
    if n > 0 { RawGrows(base, factor, n - 1); }
  }

  /** The un-jittered delay lies between the base and the larger of base and cap, and does not
      shrink from one attempt to the next. */
  lemma BackoffRange(retries: int, base: int, maxDelay: int, factor: real)
    requires retries > 0 && base > 0
    ensures base as real <= Backoff(retries, base, maxDelay, factor)
    ensures maxDelay > 0 ==> Backoff(retries, base, maxDelay, factor) <= MaxReal(base as real, maxDelay as real)
    ensures Backoff(retries, base, maxDelay, factor) <= Backoff(retries + 1, base, maxDelay, factor)
  {
    RawGrows(base, factor, retries - 1);
  }

  /** The first delay is the base, and each further one the factor times the one before, cut off
      at the cap. */
  lemma {:induction false} BackoffGeometric(retries: int, base: int, maxDelay: int, factor: real, before: real,
      after: real, f: real)
    requires retries > 0 && base > 0 && f == MaxReal(factor, 1.0)
    requires before == Backoff(retries, base, maxDelay, factor)
        && after == Backoff(retries + 1, base, maxDelay, factor)
    ensures retries == 1 ==> before == base as real
    ensures after == CutOff(before * f, base, maxDelay)
  {
    var raw := RawPair(base, factor, retries - 1, f);
    GeometricStep(raw, Raw(base, factor, retries), f, base, maxDelay, before, after);
  }

  lemma {:induction false} RawPair(base: int, factor: real, n: nat, f: real) returns (raw: real)
    requires base > 0 && f == MaxReal(factor, 1.0)
    ensures raw == Raw(base, factor, n) && raw >= base as real && Raw(base, factor, n + 1) == raw * f
  {
    raw := Raw(base, factor, n);
    RawGrows(base, factor, n);
  }

  lemma GeometricStep(raw: real, next: real, f: real, base: int, maxDelay: int, before: real, after: real)
    requires base > 0 && raw >= base as real && f >= 1.0 && next == raw * f
    requires before == Clamp(raw, base, maxDelay) && after == Clamp(next, base, maxDelay)
    ensures after == CutOff(before * f, base, maxDelay)
  {}

  function Pow(f: real, n: nat): real {
    if n == 0 then 1.0 else Pow(f, n - 1) * f
  }

  lemma MulAssociates(a: real, b: real, c: real)
    ensures a * (b * c) == a * b * c
  {}

  lemma {:induction false} RawIsPower(base: int, factor: real, n: nat, f: real)
    requires f == if factor < 1.0 then 1.0 else factor
    ensures Raw(base, factor, n) == base as real * Pow(f, n)
  {
    if n > 0 {
      RawIsPower(base, factor, n - 1, f);
      MulAssociates(base as real, Pow(f, n - 1), f);
    }
  }

  /** Exponential backoff in closed form: the base times a power of the factor, cut off at the cap
      when there is one, and the base when the cap lies below it. */
  lemma {:induction false} BackoffClosedForm(n: int, base: int, maxDelay: int, factor: real, f: real, grown: real)
    requires n > 0 && base > 0 && f == (if factor < 1.0 then 1.0 else factor) && grown == base as real * Pow(f, n - 1)
    ensures grown >= base as real
    ensures maxDelay <= 0 ==> Backoff(n, base, maxDelay, factor) == grown
    ensures maxDelay >= base ==>
      Backoff(n, base, maxDelay, factor) == if grown > maxDelay as real then maxDelay as real else grown
    ensures 0 < maxDelay < base ==> Backoff(n, base, maxDelay, factor) == base as real
  {
    RawIsPower(base, factor, n - 1, f);
    RawGrows(base, factor, n - 1);
  }

  /** The delay before jitter, written out. */
  function CutOff(grown: real, base: int, maxDelay: int): real {
    if maxDelay <= 0 || grown <= maxDelay as real then grown
    else if maxDelay >= base then maxDelay as real
    else base as real
  }

  /** One decision: whether to retry, and the delay with the random draw added and the fraction
      dropped; `CutOff` leaves the grown delay alone up to the cap. */
  lemma {:induction false} NextRetryExact(p: Policy, attempt: int, tier: string, draw: real, a: nat, f: real,
      grown: real)
    requires a == (if attempt < 0 then 0 else attempt)
        && f == (if p.backoffFactor < 1.0 then 1.0 else p.backoffFactor)
    requires grown == p.initialDelay as real * Pow(f, a)
    ensures
      var d := NextRetry(p, attempt, tier, draw);
      && (d.retry <==> a < p.maxRetries)
      && (!d.retry ==> d.delay == 0 && d.tier == ToLower(TrimSpace(tier)))
      && (d.retry && p.initialDelay <= 0 ==> d.delay == 0)
      && (d.retry && p.initialDelay > 0 ==>
            d.delay == (CutOff(grown, p.initialDelay, p.maxDelay) * (1.0 + draw * 0.1)).Floor)
  {
    if a < p.maxRetries && p.initialDelay > 0 {
      CutOffIsBackoff(a + 1, p.initialDelay, p.maxDelay, p.backoffFactor, f, grown);
      DelayIsJittered(p, attempt, tier, draw, a);
      JitteredIs(CutOff(grown, p.initialDelay, p.maxDelay), draw);
    }
  }

  lemma {:induction false} DelayIsJittered(p: Policy, attempt: int, tier: string, draw: real, a: nat)
    requires a == (if attempt < 0 then 0 else attempt) && a < p.maxRetries && p.initialDelay > 0
    ensures NextRetry(p, attempt, tier, draw).delay
            == Jittered(Backoff(a + 1, p.initialDelay, p.maxDelay, p.backoffFactor), draw)
  {}

  lemma JitteredIs(b: real, draw: real)
    ensures Jittered(b, draw) == (b * (1.0 + draw * 0.1)).Floor
  {}

  lemma {:induction false} CutOffIsBackoff(n: int, base: int, maxDelay: int, factor: real, f: real, grown: real)
    requires n > 0 && base > 0 && f == (if factor < 1.0 then 1.0 else factor) && grown == base as real * Pow(f, n - 1)
    ensures Backoff(n, base, maxDelay, factor) == CutOff(grown, base, maxDelay)
  {
    BackoffClosedForm(n, base, maxDelay, factor, f, grown);
  }

  /** The cut-off, case by case: the grown delay without a cap or below it, the cap above it, and the
      base when the cap lies below the base. */
  lemma CutOffMeans(grown: real, base: int, maxDelay: int)
    requires grown >= base as real > 0.0
    ensures maxDelay <= 0 || grown <= maxDelay as real ==> CutOff(grown, base, maxDelay) == grown
    ensures base <= maxDelay && grown > maxDelay as real ==> CutOff(grown, base, maxDelay) == maxDelay as real
    ensures 0 < maxDelay < base ==> CutOff(grown, base, maxDelay) == base as real
  {}

  lemma ProductRange(b: real, j: real)
    requires b >= 0.0 && 1.0 <= j <= 1.1
    ensures b <= b * j <= b * 1.1
  {
    assert b * (1.1 - j) >= 0.0;
  }

  lemma JitteredRange(b: real, draw: real, low: int, high: real)
    requires 0.0 <= low as real <= b <= high && 0.0 <= draw < 1.0
    ensures low <= Jittered(b, draw) && Jittered(b, draw) as real <= high * 1.1
  {
    ProductRange(b, 1.0 + draw * 0.1);
  }

  lemma BackoffDelayRange(retries: int, base: int, maxDelay: int, factor: real, draw: real)
    requires retries > 0 && base > 0 && maxDelay > 0 && 0.0 <= draw < 1.0
    ensures
      var d := BackoffDelay(retries, base, maxDelay, factor, draw);
      base <= d && d as real <= MaxReal(base as real, maxDelay as real) * 1.1
  {
    BackoffRange(retries, base, maxDelay, factor);
    JitteredRange(Backoff(retries, base, maxDelay, factor), draw, base, MaxReal(base as real, maxDelay as real));
  }

  /** With positive delays every delay lies within the initial delay and 1.1 times the larger of
      the two bounds. */
  lemma DelayRange(p: Policy, attempt: int, tier: string, draw: real)
    requires 0.0 <= draw < 1.0 && p.initialDelay > 0 && p.maxDelay > 0
    requires NextRetry(p, attempt, tier, draw).retry
    ensures
      var d := NextRetry(p, attempt, tier, draw).delay;
      p.initialDelay <= d && d as real <= MaxReal(p.initialDelay as real, p.maxDelay as real) * 1.1
  {
    BackoffDelayRange((if attempt < 0 then 0 else attempt) + 1, p.initialDelay, p.maxDelay, p.backoffFactor, draw);
  }

  // ---------------------------------------------------------------- tiers over a run

  const TIERS := ["fast", "balanced", "premium"]

  function Min(a: int, b: int): int {
    if a <= b then a else b
  }

  lemma KnownTiers(k: nat)
    requires k < 3
    ensures NormalizeTier(TIERS[k]) == TIERS[k] && EscalateTier(TIERS[k]) == TIERS[Min(2, k + 1)]
  {
    TrimSpaceFacts(TIERS[k]);
    assert Trimmed("fast") && Trimmed("balanced") && Trimmed("premium");
    assert ToLower("fast") == "fast" && ToLower("balanced") == "balanced" && ToLower("premium") == "premium";
  }

  /** The tier after feeding it through attempts 0 .. n-1. */
  function TierAfter(p: Policy, start: string, jitters: seq<real>): string {
    if jitters == [] then NormalizeTier(start)
    else
      var n := |jitters| - 1;
      NextRetry(p, n, TierAfter(p, start, jitters[..n]), jitters[n]).tier
  }

  lemma DivStep(n: nat, k: int)
    requires k > 0 && n > 0
    ensures n / k == (n - 1) / k + if n % k == 0 then 1 else 0
  {
    var q, r := (n - 1) / k, (n - 1) % k;
    assert n - 1 == q * k + r;
    if r == k - 1 {
      assert n == (q + 1) * k;
      DivUnique(n, k, q + 1, 0);
    } else {
      DivUnique(n, k, q, r + 1);
    }
  }

  lemma DivUnique(n: nat, k: int, q: int, r: int)
    requires k > 0 && n == q * k + r && 0 <= r < k
    ensures n / k == q && n % k == r
  {
    var q', r' := n / k, n % k;
    assert n == q' * k + r' && 0 <= r' < k;
    assert (q - q') * k == r' - r;
    if q > q' { MulAtLeastK(q - q', k); }
    if q < q' { MulAtLeastK(q' - q, k); }
  }

  lemma MulAtLeastK(d: int, k: int)
    requires d >= 1 && k > 0
    ensures d * k >= k
  {}

  /** How often attempts 0 .. a escalate: once per multiple of the threshold, attempt 0 aside. */
  function Escalations(escalateAfter: int, a: nat): nat {
    if escalateAfter > 0 then a / escalateAfter else 0
  }

  /** The rank reached after `n` attempts from a start rank. */
  function RankAfter(p: Policy, start: nat, n: nat): (k: nat)
    requires start < 3
    ensures start <= k < 3
  {
    if n == 0 then start else Min(2, start + Escalations(p.escalateAfter, n - 1))
  }

  lemma OneAttempt(p: Policy, start: nat, n: nat, jitter: real)
    requires start < 3 && n < p.maxRetries
    ensures NextRetry(p, n, TIERS[RankAfter(p, start, n)], jitter).retry
    ensures NextRetry(p, n, TIERS[RankAfter(p, start, n)], jitter).tier == TIERS[RankAfter(p, start, n + 1)]
    ensures RankAfter(p, start, n) <= RankAfter(p, start, n + 1)
  {
    KnownTiers(RankAfter(p, start, n));
    if p.escalateAfter > 0 {
      if n == 0 { DivUnique(0, p.escalateAfter, 0, 0); } else { DivStep(n, p.escalateAfter); }
    }
  }

  /** After attempts 0 .. a of a run that is still retrying, the tier has climbed by one for
      every multiple of EscalateAfter passed, and stops at the top. */
  lemma {:induction false} TierOfRun(p: Policy, start: nat, jitters: seq<real>)
    requires start < 3 && |jitters| <= p.maxRetries
    ensures TierAfter(p, TIERS[start], jitters) == TIERS[RankAfter(p, start, |jitters|)]
  {
    if jitters == [] {
      KnownTiers(start);
    } else {
      var n := |jitters| - 1;
      TierOfRun(p, start, jitters[..n]);
      var rank := RankAfter(p, start, n);
      assert TierAfter(p, TIERS[start], jitters) == NextRetry(p, n, TIERS[rank], jitters[n]).tier;
      OneAttempt(p, start, n, jitters[n]);
    }
  }

  /** Tiers outside the ladder are normalised and then never change. */
  lemma {:induction false} UnknownTierStays(p: Policy, start: string, jitters: seq<real>)
    requires NormalizeTier(start) !in TIERS
    ensures TierAfter(p, start, jitters) == NormalizeTier(start)
  {
    if jitters != [] {
      UnknownTierStays(p, start, jitters[..|jitters| - 1]);
      NormalizeTwice(start);
      assert "fast" == TIERS[0] && "balanced" == TIERS[1];
    }
  }

  /** White space around a tier and its case do not matter. */
  lemma NormalizeTierMeans(a: string, tier: string, b: string)
    requires AllSpace(a) && AllSpace(b) && Trimmed(tier)
    ensures NormalizeTier(a + tier + b) == ToLower(tier)
  {
    TrimPadded(a, tier, b);
  }

  lemma NormalizeTwice(tier: string)
    ensures NormalizeTier(NormalizeTier(tier)) == NormalizeTier(tier)
  {
    var t := TrimSpace(tier);
    TrimSpaceFacts(tier);
    if t != "" {
      assert IsSpace(ToLower(t)[0]) == IsSpace(t[0]) && IsSpace(ToLower(t)[|t| - 1]) == IsSpace(t[|t| - 1]);
    }
    TrimSpaceFacts(ToLower(t));
  }

  // ---------------------------------------------------------------- the persisted record

  datatype Dispatch = Dispatch(status: string, tier: string, retries: int, escalatedFrom: string)

  /** One UPDATE: the right-hand sides see the row as it was. */
  function MarkPendingRetry(d: Dispatch, nextTier: string): Dispatch {
    Dispatch("pending_retry", nextTier, d.retries + 1, if d.escalatedFrom == "" then d.tier else d.escalatedFrom)
  }

  /** Ask the policy with the stored retry count and tier; persist while it says retry. */
  function RetryLoop(p: Policy, d: Dispatch, jitters: seq<real>): Dispatch {
    if jitters == [] then d
    else
      var before := RetryLoop(p, d, jitters[..|jitters| - 1]);
      var next := NextRetry(p, before.retries, before.tier, jitters[|jitters| - 1]);
      if next.retry then MarkPendingRetry(before, next.tier) else before
  }

  /** The rank of a normalised tier, or 3 off the ladder. */
  function RankIn(tier: string): nat {
    if tier == TIERS[0] then 0 else if tier == TIERS[1] then 1 else if tier == TIERS[2] then 2 else 3
  }

  /** The stored tier after `n` retries: as it was, then normalised and on its way up the ladder. */
  function TierAt(p: Policy, tier: string, n: nat): string {
    var k := RankIn(NormalizeTier(tier));
    if n == 0 then tier else if k < 3 then TIERS[RankAfter(p, k, n)] else NormalizeTier(tier)
  }

  lemma OneRetry(p: Policy, tier: string, n: nat, jitter: real)
    requires n < p.maxRetries
    ensures NextRetry(p, n, TierAt(p, tier, n), jitter).retry
    ensures NextRetry(p, n, TierAt(p, tier, n), jitter).tier == TierAt(p, tier, n + 1)
  {
    var k := RankIn(NormalizeTier(tier));
    NormalizeTwice(tier);
    if k < 3 {
      OneAttempt(p, k, n, jitter);
      KnownTiers(k);
    }
  }

  /** A fresh dispatch, asked any number of times: it is retried at most MaxRetries times, each
      retry raises the count by one, its tier is normalised and from then on only climbs the ladder,
      and the first tier is remembered from the first retry on. */
  lemma {:induction false} RetryLoopLaw(p: Policy, d: Dispatch, jitters: seq<real>)
    requires d.retries == 0
    ensures
      var r, n := RetryLoop(p, d, jitters), Min(|jitters|, if p.maxRetries < 0 then 0 else p.maxRetries);
      && r.retries == n
      && (n == 0 ==> r == d)
      && (n > 0 ==> r == Dispatch("pending_retry", TierAt(p, d.tier, n), n,
                                  if d.escalatedFrom == "" then d.tier else d.escalatedFrom))
  {
    if jitters != [] {
      var m := |jitters| - 1;
      RetryLoopLaw(p, d, jitters[..m]);
      if m < p.maxRetries {
        OneRetry(p, d.tier, m, jitters[m]);
      }
    }
  }

  /** An original tier recorded once is never replaced. */
  lemma {:induction false} OriginalTierKept(p: Policy, d: Dispatch, jitters: seq<real>)
    requires d.escalatedFrom != ""
    ensures RetryLoop(p, d, jitters).escalatedFrom == d.escalatedFrom
  {
    if jitters != [] { OriginalTierKept(p, d, jitters[..|jitters| - 1]); }
  }

  class DispatchTable {
    var rows: map<int, Dispatch>

    constructor ()
      ensures rows == map[]
    {
      rows := map[];
    }

    /** Updating an unknown id changes nothing and reports no error. */
    method MarkDispatchPendingRetry(id: int, nextTier: string)
      modifies this
      ensures rows == if id in old(rows) then old(rows)[id := MarkPendingRetry(old(rows)[id], nextTier)]
          else old(rows)
    {
      if id in rows {
        rows := rows[id := MarkPendingRetry(rows[id], nextTier)];
      }
    }
  }
}
