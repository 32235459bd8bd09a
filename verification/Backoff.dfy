/** Doubling waits, and how soon after a lease runs out a refused attempt is
    re-checked. Source: agent/evidence_outbox.go. Durations are nanoseconds. */
module Backoff {
  const SECOND := 1_000_000_000
  const MAX_EVIDENCE_RECOVERY_BACKOFF := 30 * SECOND
  const REFUSAL_RECHECK := 10 * SECOND
  const MAX_REFUSAL_RECHECK := 3600 * SECOND
  const MAX_DURATION := 0x7FFF_FFFF_FFFF_FFFF

  function Min(a: int, b: int): int {
    if a <= b then a else b
  }

  function Max(a: int, b: int): int {
    if a >= b then a else b
  }

  function Pow2(n: nat): nat {
    if n == 0 then 1 else 2 * Pow2(n - 1)
  }

  function Doubled(base: int, n: nat): int {
    if n == 0 then base else 2 * Doubled(base, n - 1)
  }

  function Steps(step: int): nat {
    if step <= 1 then 0 else step - 1
  }

  /** What the doubling loop computes, without the loop. */
  function Delay(base: int, ceiling: int, step: int): int {
    if base <= 0 then base else Min(Doubled(base, Steps(step)), ceiling)
  }

  lemma {:induction false} DoubledIsAPower(base: int, n: nat)
    ensures Doubled(base, n) == base * Pow2(n)
    decreases n
  {
    if n > 0 {
      DoubledIsAPower(base, n - 1);
      assert base * Pow2(n) == base * (2 * Pow2(n - 1)) == 2 * (base * Pow2(n - 1));
    }
  }

  /** The delay is base * 2^(step-1), capped. */
  lemma DelayIsCappedPower(base: int, ceiling: int, step: int)
    requires base > 0
    ensures Delay(base, ceiling, step) == Min(base * Pow2(Steps(step)), ceiling)
  {
    DoubledIsAPower(base, Steps(step));
  }

  lemma {:induction false} DoubledGrows(base: int, a: nat, b: nat)
    requires a <= b && base > 0
    ensures base <= Doubled(base, a) <= Doubled(base, b)
    decreases b
  {
    if a < b {
      DoubledGrows(base, a, b - 1);
    } else if b > 0 {
      DoubledGrows(base, a - 1, b - 1);
    }
  }

  /** Whether doubling below the ceiling can never leave an int64. */
  predicate FitsInt64(base: int, ceiling: int) {
    base <= MAX_DURATION && (base >= ceiling || 2 * ceiling <= MAX_DURATION)
  }

  /** The doubling loop. `values` is everything the delay was before the cap. */
  method DoublingDelay(base: int, ceiling: int, step: int) returns (delay: int, ghost values: seq<int>)
    ensures delay == Delay(base, ceiling, step)
    ensures values != [] && values[0] == base && forall i :: 0 < i < |values| ==> values[i] == 2 * values[i - 1]
    ensures base > 0 ==> delay == Min(values[|values| - 1], ceiling)
    ensures FitsInt64(base, ceiling) ==> forall v :: v in values ==> v <= MAX_DURATION
  {
    values := [base];
    if base <= 0 {
      return base, values;
    }
    delay := base;
    var i := 1;
    while i < step && delay < ceiling
      invariant 1 <= i && (step >= 1 ==> i <= step) && (step < 1 ==> i == 1)
      invariant delay == Doubled(base, i - 1) && delay >= base
      invariant values != [] && values[0] == base && values[|values| - 1] == delay
      invariant forall k :: 0 < k < |values| ==> values[k] == 2 * values[k - 1]
      invariant FitsInt64(base, ceiling) ==> forall v :: v in values ==> v <= MAX_DURATION
    {
      delay := delay * 2;
      values := values + [delay];
      i := i + 1;
    }
    if i < step {
      DoubledGrows(base, i - 1, step - 1);
    }
    delay := if delay <= ceiling then delay else ceiling;
  }

  function EvidenceRecoveryBackoff(interval: int, failures: int): int {
    Delay(interval, Max(MAX_EVIDENCE_RECOVERY_BACKOFF, interval), failures)
  }

  /** A backoff is never shorter than the interval nor longer than its ceiling, and
      is positive exactly when the interval is. */
  lemma BackoffStaysInBounds(interval: int, failures: int)
    ensures EvidenceRecoveryBackoff(interval, failures) > 0 <==> interval > 0
    ensures interval > 0 ==>
              interval <= EvidenceRecoveryBackoff(interval, failures) <= Max(MAX_EVIDENCE_RECOVERY_BACKOFF, interval)
  {
    if interval > 0 {
      DoubledGrows(interval, 0, Steps(failures));
    }
  }

  function RefusalDelay(refusals: int): int {
    Delay(REFUSAL_RECHECK, MAX_REFUSAL_RECHECK, refusals)
  }

  /** Neither schedule can overflow, whatever interval is configured. */
  lemma BothSchedulesFit(interval: int)
    requires interval <= MAX_DURATION
    ensures FitsInt64(interval, Max(MAX_EVIDENCE_RECOVERY_BACKOFF, interval))
    ensures FitsInt64(REFUSAL_RECHECK, MAX_REFUSAL_RECHECK)
  {
  }

  /** When the n-th re-check comes, counted from the first refusal, each refusal
      answered at once. */
  function Recheck(n: nat): int {
    if n == 0 then 0 else Recheck(n - 1) + RefusalDelay(n)
  }

  /** Every wait is at most the time already waited plus the first step. */
  lemma {:induction false} WaitIsAtMostTheTimeWaited(n: nat)
    requires n > 0
    ensures 0 < RefusalDelay(n) <= MAX_REFUSAL_RECHECK
    ensures RefusalDelay(n) <= Recheck(n - 1) + REFUSAL_RECHECK
    ensures Recheck(n - 1) >= Min(Doubled(REFUSAL_RECHECK, n - 1) - REFUSAL_RECHECK,
                                  MAX_REFUSAL_RECHECK - REFUSAL_RECHECK)
    decreases n
  {
    DoubledGrows(REFUSAL_RECHECK, 0, n - 1);
    if n > 1 {
      WaitIsAtMostTheTimeWaited(n - 1);
      assert Recheck(n - 1) == Recheck(n - 2) + RefusalDelay(n - 1);
    }
  }

  /** The first re-check after a lease with remainder `lease` runs out comes at most
      min(lease + 10 s, 1 h) later, for every remainder. */
  lemma FirstRecheckAfterTheLease(lease: int, n: nat)
    requires lease >= 0 && n > 0 && (n > 1 ==> Recheck(n - 1) < lease) && lease <= Recheck(n)
    ensures Recheck(n) - lease <= Min(lease + REFUSAL_RECHECK, MAX_REFUSAL_RECHECK)
  {
    WaitIsAtMostTheTimeWaited(n);
  }

  lemma {:induction false} NextRecheckAfter(lease: int, n: nat) returns (m: nat)
    requires lease > 0 && Recheck(n) < lease
    ensures m > n && Recheck(m - 1) < lease <= Recheck(m)
    decreases lease - Recheck(n)
  {
    hide RefusalDelay;
    WaitIsAtMostTheTimeWaited(n + 1);
    m := n + 1;
    if Recheck(n + 1) < lease {
      m := NextRecheckAfter(lease, n + 1);
    }
  }

  /** There always is such a re-check. */
  lemma EveryLeaseIsFollowedByARecheck(lease: int) returns (n: nat)
    requires lease >= 0
    ensures n > 0 && (n > 1 ==> Recheck(n - 1) < lease)
    ensures lease <= Recheck(n) <= lease + Min(lease + REFUSAL_RECHECK, MAX_REFUSAL_RECHECK)
  {
    n := 1;
    WaitIsAtMostTheTimeWaited(1);
    if lease > 0 {
      n := NextRecheckAfter(lease, 0);
    }
    FirstRecheckAfterTheLease(lease, n);
  }
}
