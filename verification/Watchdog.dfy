/** Local authority over an attempt across suspends: how much sleep a lease may be
    credited with. Source: agent/authority_watchdog.go. */
module Watchdog {
  import opened Common

  function Max(a: int, b: int): int {
    if a >= b then a else b
  }

  // ----- The machine's clocks -----

  /** The two clocks at every instant: one that counts time asleep and one that
      pauses for it. */
  datatype Clocks = Clocks(boot: nat -> int, awake: nat -> int)

  function Asleep(c: Clocks, t: nat): int {
    c.boot(t) - c.awake(t)
  }

  /** Neither the time awake nor the time asleep ever decreases. */
  ghost predicate Physical(c: Clocks) {
    && (forall i, j :: 0 <= i <= j ==> c.awake(i) <= c.awake(j))
    && (forall i, j :: 0 <= i <= j ==> Asleep(c, i) <= Asleep(c, j))
  }

  datatype Sample = Sample(boot: int, lower: int, upper: int)

  /** What each of three reads in a row answered, or that it failed. */
  datatype Reads = Reads(before: Option<int>, boot: Option<int>, after: Option<int>)

  function SampleOf(r: Reads): Option<Sample> {
    if r.before.None? || r.boot.None? || r.after.None? || r.after.value < r.before.value then None
    else Some(Sample(r.boot.value, r.boot.value - r.after.value, r.boot.value - r.before.value))
  }

  /** The reads were made at three instants in order. */
  ghost predicate ReadAt(c: Clocks, r: Reads, t0: nat, t1: nat, t2: nat) {
    && t0 <= t1 <= t2
    && (r.before.Some? ==> r.before.value == c.awake(t0))
    && (r.boot.Some? ==> r.boot.value == c.boot(t1))
    && (r.after.Some? ==> r.after.value == c.awake(t2))
  }

  /** The sample's bounds hold the time truly asleep when its boot read was made. */
  ghost predicate Brackets(c: Clocks, s: Sample, t: nat) {
    s.boot == c.boot(t) && s.lower <= Asleep(c, t) <= s.upper
  }

  /** However long the process was descheduled between the reads. */
  lemma SamplesBracketTheTruth(c: Clocks, r: Reads, t0: nat, t1: nat, t2: nat)
    requires Physical(c) && ReadAt(c, r, t0, t1, t2)
    ensures SampleOf(r).Some? ==> Brackets(c, SampleOf(r).value, t1)
  {
    assert c.awake(t0) <= c.awake(t1) <= c.awake(t2);
  }

  /** The part of the time between two samples that was certainly asleep. */
  function ProvedSleep(from: Sample, to: Sample): int {
    Max(0, to.lower - from.upper)
  }

  lemma ProvedSleepIsTrue(c: Clocks, from: Sample, t: nat, to: Sample, u: nat)
    requires Physical(c) && Brackets(c, from, t) && Brackets(c, to, u) && t <= u
    ensures 0 <= ProvedSleep(from, to) <= Asleep(c, u) - Asleep(c, t)
  {
    assert Asleep(c, t) <= Asleep(c, u);
  }

  /** What checks on these samples in a row are credited with. */
  function TotalCredit(samples: seq<Sample>): int {
    if |samples| < 2 then 0
    else TotalCredit(samples[..|samples| - 1]) + ProvedSleep(samples[|samples| - 2], samples[|samples| - 1])
  }

  /** Over any number of checks the credits together are no more than the time truly
      asleep from the first to the last. */
  lemma {:induction false} CreditsNeverExceedSleep(c: Clocks, samples: seq<Sample>, at: seq<nat>)
    requires Physical(c) && |samples| == |at| > 0
    requires forall i :: 0 <= i < |at| ==> Brackets(c, samples[i], at[i])
    requires forall i, j :: 0 <= i < j < |at| ==> at[i] <= at[j]
    ensures 0 <= TotalCredit(samples) <= Asleep(c, at[|at| - 1]) - Asleep(c, at[0])
    decreases |samples|
  {
    var n := |samples| - 1;
    if n > 0 {
      CreditsNeverExceedSleep(c, samples[..n], at[..n]);
      ProvedSleepIsTrue(c, samples[n - 1], at[n - 1], samples[n], at[n]);
    }
  }

  // ----- One attempt's watch -----

  /** Where a grant counts from: the request's own readings. */
  datatype Checkpoint = Checkpoint(now: int, wall: int, sleep: Option<Sample>)

  datatype Authority = Authority(deadline: int, sleepCreditBoot: string)

  /** Whether a grant may be credited with sleep between two checkpoints' samples. */
  predicate Creditable(bootDigest: string, authority: Authority, from: Checkpoint, sample: Option<Sample>) {
    && bootDigest != "" && authority.sleepCreditBoot == bootDigest
    && sample.Some? && from.sleep.Some? && sample.value.boot >= from.sleep.value.boot
  }

  /** How much of the time since a checkpoint counts against the lease. */
  function GapSince(bootDigest: string, authority: Authority, from: Checkpoint, wall: int,
                    sample: Option<Sample>): int {
    if Creditable(bootDigest, authority, from, sample) then
      Max(wall - from.wall, sample.value.boot - from.sleep.value.boot) - ProvedSleep(from.sleep.value, sample.value)
    else wall - from.wall
  }

  /** A grant's lease still runs on these readings. */
  predicate Runs(bootDigest: string, authority: Authority, from: Checkpoint, now: int, wall: int,
                 sample: Option<Sample>) {
    && now < authority.deadline && from.now < authority.deadline
    && GapSince(bootDigest, authority, from, wall, sample) < authority.deadline - from.now
  }

  class AuthorityWatch {
    const bootDigest: string
    ghost const clocks: Clocks
    var authority: Authority
    var checkpoint: Checkpoint
    var failed: bool
    var wakeRenewal: bool
    /** When the grant's request and the latest check were made. */
    ghost var grantedAt: nat
    ghost var checkedAt: nat
    /** Sleep this grant has been credited with, over all its checks. */
    ghost var credited: int

    ghost predicate Valid()
      reads this
    {
      && Physical(clocks)
      && grantedAt <= checkedAt
      && (checkpoint.sleep.Some? ==> Brackets(clocks, checkpoint.sleep.value, checkedAt))
      && 0 <= credited <= Asleep(clocks, checkedAt) - Asleep(clocks, grantedAt)
    }

    constructor (bootDigest: string, authority: Authority, request: Checkpoint, ghost clocks: Clocks, ghost at: nat)
      requires Physical(clocks) && (request.sleep.Some? ==> Brackets(clocks, request.sleep.value, at))
      ensures Valid() && !failed && this.authority == authority && checkpoint == request && credited == 0
      ensures this.bootDigest == bootDigest && this.clocks == clocks && grantedAt == at && checkedAt == at
    {
      this.bootDigest, this.authority, this.clocks := bootDigest, authority, clocks;
      checkpoint, failed, wakeRenewal := request, false, false;
      grantedAt, checkedAt, credited := at, at, 0;
    }

    predicate MayCredit(sample: Option<Sample>)
      reads this
    {
      Creditable(bootDigest, authority, checkpoint, sample)
    }

    /** Sleep proved since the checkpoint. */
    function ProvedSince(sample: Option<Sample>): int
      reads this
    {
      if sample.Some? && checkpoint.sleep.Some? then ProvedSleep(checkpoint.sleep.value, sample.value) else 0
    }

    /** One check of the fence, on readings made at instant `at`. */
    method CheckLocked(now: int, wall: int, sample: Option<Sample>, ghost at: nat) returns (ok: bool)
      requires Valid() && checkedAt <= at && (sample.Some? ==> Brackets(clocks, sample.value, at))
      modifies `checkpoint, `failed, `wakeRenewal, `checkedAt, `credited
      ensures Valid() && ok == !failed
      ensures ok <==> !old(failed) && Runs(bootDigest, authority, old(checkpoint), now, wall, sample)
      ensures !ok ==> checkpoint == old(checkpoint) && credited == old(credited) && checkedAt == old(checkedAt)
      ensures wakeRenewal <==> old(wakeRenewal) || (ok && old(MayCredit(sample)) && old(ProvedSince(sample)) > 0)
      ensures ok ==> checkpoint == Checkpoint(now, wall, sample) && checkedAt == at && now < authority.deadline
      // A check that passes with credit: awake less long than the lease had left.
      ensures ok && old(MayCredit(sample)) ==>
                clocks.awake(at) - clocks.awake(old(checkedAt)) < authority.deadline - old(checkpoint).now
      ensures ok && !old(MayCredit(sample)) ==>
                wall - old(checkpoint).wall < authority.deadline - old(checkpoint).now && credited == old(credited)
      // The whole grant's credit is time truly asleep since its request.
      ensures credited <= Asleep(clocks, checkedAt) - Asleep(clocks, grantedAt)
    {
      if failed {
        return false;
      }
      var remaining := authority.deadline - checkpoint.now;
      var wallGap := wall - checkpoint.wall;
      var proved, gap := 0, wallGap;
      if MayCredit(sample) {
        var from := checkpoint.sleep.value;
        ProvedSleepIsTrue(clocks, from, checkedAt, sample.value, at);
        proved := ProvedSleep(from, sample.value);
        gap := Max(wallGap, sample.value.boot - from.boot) - proved;
      } else {
        assert Asleep(clocks, checkedAt) <= Asleep(clocks, at);
      }
      if authority.deadline <= now || remaining <= 0 || gap >= remaining {
        failed := true;
        return false;
      }
      if proved > 0 {
        wakeRenewal := true;
      }
      checkpoint := Checkpoint(now, wall, sample);
      credited, checkedAt := credited + proved, at;
      return true;
    }

    /** A renewal's reply. The old grant is checked first, so a reply that came once its
        lease had run out restores nothing; then the new grant is checked from its own
        request. */
    method Renewed(next: Authority, request: Checkpoint, ghost requestAt: nat,
                   now: int, wall: int, sample: Option<Sample>, ghost at: nat,
                   now2: int, wall2: int, sample2: Option<Sample>, ghost at2: nat) returns (ok: bool)
      requires Valid() && checkedAt <= at <= at2 && requestAt <= at2
      requires request.sleep.Some? ==> Brackets(clocks, request.sleep.value, requestAt)
      requires sample.Some? ==> Brackets(clocks, sample.value, at)
      requires sample2.Some? ==> Brackets(clocks, sample2.value, at2)
      modifies this
      ensures Valid() && ok == !failed
      ensures ok <==>
                && !old(failed) && Runs(bootDigest, old(authority), old(checkpoint), now, wall, sample)
                && Runs(bootDigest, next, request, now2, wall2, sample2)
      ensures old(failed) || !Runs(bootDigest, old(authority), old(checkpoint), now, wall, sample) ==>
                failed && authority == old(authority) && checkpoint == old(checkpoint)
      ensures !ok && !old(failed) && Runs(bootDigest, old(authority), old(checkpoint), now, wall, sample) ==>
                failed && authority == next && checkpoint == request
      ensures ok ==>
                && authority == next && checkpoint == Checkpoint(now2, wall2, sample2) && grantedAt == requestAt
                && now2 < next.deadline
      ensures ok && bootDigest != "" && next.sleepCreditBoot == bootDigest && sample2.Some? && request.sleep.Some?
              && sample2.value.boot >= request.sleep.value.boot ==>
                clocks.awake(at2) - clocks.awake(requestAt) < next.deadline - request.now
    {
      ok := CheckLocked(now, wall, sample, at);
      if !ok {
        return;
      }
      authority, checkpoint := next, request;
      grantedAt, checkedAt, credited := requestAt, requestAt, 0;
      ok := CheckLocked(now2, wall2, sample2, at2);
    }
  }
}
