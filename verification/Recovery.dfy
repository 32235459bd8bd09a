/** The loop that replays durable evidence: at most eight workers, a backoff per
    attempt, and one timer. Source: agent/evidence_outbox.go. */
module Recovery {
  import opened Common
  import opened Backoff

  const MAX_EVIDENCE_RECOVERY_WORKERS: nat := 8

  type AttemptId = string
  type Code = string

  /** How a worker's replay of one attempt ended. */
  datatype Outcome = Recovered | Refused(code: Code) | Failed

  datatype Scan = Pending(attempts: seq<AttemptId>) | ScanFailed

  /** The earliest of the waits that are still ahead of `now`; the scan's own retry
      counts even when it is not. */
  function Earlier(earliest: Option<int>, deadline: int, now: int): Option<int> {
    if deadline > now && (earliest.None? || deadline < earliest.value) then Some(deadline) else earliest
  }

  ghost predicate SomeRetryAt(retryAt: map<AttemptId, int>, t: int) {
    exists id :: id in retryAt && retryAt[id] == t
  }

  predicate Covers(timer: Option<int>, deadline: int) {
    timer.Some? && timer.value <= deadline
  }

  class RecoveryLoop {
    const retryInterval: int
    /** How long until another process's backlog is looked for, on a node that
        shares its spool. */
    const cohortInterval: Option<int>
    var active: set<AttemptId>
    var retryAt: map<AttemptId, int>
    var failures: map<AttemptId, nat>
    var refusals: map<AttemptId, nat>
    var refusalCode: map<AttemptId, Code>
    var scanRetryAt: Option<int>
    var scanFailures: nat
    var cohortRecheckAt: Option<int>
    var liveRecheckAt: Option<int>
    var liveWaits: nat
    var timer: Option<int>
    /** Every worker goroutine there is. */
    ghost var running: multiset<AttemptId>

    ghost predicate Valid()
      reads this
    {
      && |active| <= MAX_EVIDENCE_RECOVERY_WORKERS
      && running == multiset(active)
    }

    constructor (retryInterval: int, cohortInterval: Option<int>)
      ensures Valid() && active == {} && retryAt == map[] && scanRetryAt.None?
      ensures this.retryInterval == retryInterval && this.cohortInterval == cohortInterval
    {
      this.retryInterval, this.cohortInterval := retryInterval, cohortInterval;
      active, retryAt, failures, refusals, refusalCode := {}, map[], map[], map[], map[];
      scanRetryAt, scanFailures, cohortRecheckAt, liveRecheckAt, liveWaits, timer := None, 0, None, None, 0, None;
      running := multiset{};
    }

    /** The earliest of the rescan's retry and the attempts' own. */
    method EarliestRetry(now: int) returns (earliest: Option<int>)
      ensures earliest.Some? ==>
                && (earliest.value > now || earliest == scanRetryAt)
                && (earliest == scanRetryAt || SomeRetryAt(retryAt, earliest.value))
      ensures scanRetryAt.Some? ==> Covers(earliest, scanRetryAt.value)
      ensures forall id :: id in retryAt && retryAt[id] > now ==> Covers(earliest, retryAt[id])
    {
      earliest := scanRetryAt;
      var todo := retryAt.Keys;
      while todo != {}
        invariant todo <= retryAt.Keys
        invariant earliest.Some? ==> earliest.value > now || earliest == scanRetryAt
        invariant earliest.Some? ==>
                    earliest == scanRetryAt || SomeRetryAt(retryAt, earliest.value)
        invariant scanRetryAt.Some? ==> Covers(earliest, scanRetryAt.value)
        invariant forall id :: id in retryAt && id !in todo && retryAt[id] > now ==> Covers(earliest, retryAt[id])
        decreases |todo|
      {
        var id :| id in todo;
        todo := todo - {id};
        assert SomeRetryAt(retryAt, retryAt[id]);
        earliest := Earlier(earliest, retryAt[id], now);
      }
    }

    /** Arms one timer for the earliest wait the pass that began at `now` left. */
    method ArmRetry(now: int)
      modifies `timer
      ensures timer.Some? ==> timer.value > now || timer == scanRetryAt
      ensures timer.Some? ==>
                || timer in {scanRetryAt, liveRecheckAt, cohortRecheckAt}
                || SomeRetryAt(retryAt, timer.value)
      ensures scanRetryAt.Some? ==> Covers(timer, scanRetryAt.value)
      ensures forall id :: id in retryAt && retryAt[id] > now ==> Covers(timer, retryAt[id])
      ensures liveRecheckAt.Some? && liveRecheckAt.value > now ==> Covers(timer, liveRecheckAt.value)
      ensures cohortRecheckAt.Some? && cohortRecheckAt.value > now ==> Covers(timer, cohortRecheckAt.value)
    {
      var earliest := EarliestRetry(now);
      if liveRecheckAt.Some? {
        earliest := Earlier(earliest, liveRecheckAt.value, now);
      }
      if cohortRecheckAt.Some? {
        earliest := Earlier(earliest, cohortRecheckAt.value, now);
      }
      timer := earliest;
    }

    /** Drops what is remembered about attempts that are no longer pending. */
    method ForgetSettled(attempts: seq<AttemptId>)
      modifies `retryAt, `failures, `refusals, `refusalCode
      ensures forall id :: id in retryAt <==> id in old(retryAt) && id in attempts
      ensures forall id :: id in failures <==> id in old(failures) && (id in old(retryAt) ==> id in attempts)
      ensures forall id :: id in refusals <==> id in old(refusals) && id in attempts
      ensures forall id :: id in refusalCode <==> id in old(refusalCode) && (id in old(refusals) ==> id in attempts)
      ensures forall id :: id in retryAt ==> retryAt[id] == old(retryAt)[id]
      ensures forall id :: id in failures ==> failures[id] == old(failures)[id]
      ensures forall id :: id in refusals ==> refusals[id] == old(refusals)[id]
      ensures forall id :: id in refusalCode ==> refusalCode[id] == old(refusalCode)[id]
    {
      var gone := set id | id in retryAt && id !in attempts;
      retryAt, failures := retryAt - gone, failures - gone;
      var settled := set id | id in refusals && id !in attempts;
      refusals, refusalCode := refusals - settled, refusalCode - settled;
    }

    method StartWorker(id: AttemptId)
      requires Valid() && id !in active && |active| < MAX_EVIDENCE_RECOVERY_WORKERS
      modifies `active, `retryAt, `running
      ensures Valid() && active == old(active) + {id} && retryAt == old(retryAt) - {id}
    {
      WorkersGrow(active, id);
      retryAt := retryAt - {id};
      active, running := active + {id}, running + multiset{id};
    }

    /** Starts a worker for each pending attempt that can have one. `live` answers
        whether somebody else owns the attempt. */
    method LaunchWorkers(now: int, attempts: seq<AttemptId>, live: AttemptId -> bool) returns (liveBlocked: bool)
      requires Valid()
      modifies `active, `retryAt, `running
      ensures Valid() && Launched(now, attempts, live, old(active), old(retryAt), active, retryAt)
      ensures forall id :: id in attempts ==> Settled(now, id, live(id), active, retryAt)
      ensures forall id :: id in attempts && WaitsForOwner(now, id, active, retryAt) ==> liveBlocked
    {
      hide Settled, Launched, WaitsForOwner;
      liveBlocked := false;
      NothingLaunched(now, attempts, live, active, retryAt);
      for i := 0 to |attempts|
        invariant Valid() && Launched(now, attempts, live, old(active), old(retryAt), active, retryAt)
        invariant forall j :: 0 <= j < i ==> Settled(now, attempts[j], live(attempts[j]), active, retryAt)
        invariant forall j :: 0 <= j < i && WaitsForOwner(now, attempts[j], active, retryAt) ==> liveBlocked
      {
        var id := attempts[i];
        NowSettled(now, id, live(id), active, retryAt);
        LaunchedKeepsWaits(now, attempts, live, old(active), old(retryAt), active, retryAt, id);
        if id in active {
          continue;
        }
        if id in retryAt && now < retryAt[id] {
          continue;
        }
        if |active| >= MAX_EVIDENCE_RECOVERY_WORKERS {
          EveryWorkerBusy(now, attempts, live, active, retryAt);
          break;
        }
        if live(id) {
          liveBlocked := liveBlocked || id in retryAt;
          continue;
        }
        LaunchedOneMore(now, attempts, live, old(active), old(retryAt), active, retryAt, id);
        StartWorker(id);
        NowSettled(now, id, live(id), active, retryAt);
      }
    }

    /** What a pass does with the attempts its scan found. */
    method LaunchScanned(now: int, attempts: seq<AttemptId>, live: AttemptId -> bool)
      requires Valid()
      modifies `active, `retryAt, `running, `failures, `refusals, `refusalCode, `liveWaits, `liveRecheckAt
      ensures Valid() && old(active) <= active
      ensures forall id :: id in attempts ==> Settled(now, id, live(id), active, retryAt)
      ensures forall id :: id in active && id !in old(active) ==> id in attempts && !live(id)
      ensures liveRecheckAt.Some? && retryInterval > 0 ==>
                now < liveRecheckAt.value <= now + Max(MAX_EVIDENCE_RECOVERY_BACKOFF, retryInterval)
      ensures forall id :: id in attempts && WaitsForOwner(now, id, active, retryAt) ==> liveRecheckAt.Some?
    {
      hide EvidenceRecoveryBackoff, Settled, WaitsForOwner;
      ForgetSettled(attempts);
      var liveBlocked := LaunchWorkers(now, attempts, live);
      if liveBlocked {
        liveWaits := liveWaits + 1;
        BackoffStaysInBounds(retryInterval, liveWaits);
        liveRecheckAt := Some(now + EvidenceRecoveryBackoff(retryInterval, liveWaits));
      } else {
        liveWaits, liveRecheckAt := 0, None;
      }
    }

    /** One recovery pass. `scanned` says the spool was read to the end. The timer
        it leaves is later than the pass began, unless the read failed on a loop
        configured with no interval. */
    method LaunchPending(now: int, scan: Scan, live: AttemptId -> bool) returns (scanned: bool)
      requires Valid()
      modifies this
      ensures Valid()
      ensures scanned <==> scan.Pending? && !(old(scanRetryAt).Some? && now < old(scanRetryAt).value)
      ensures (timer.Some? ==> timer.value > now) <==>
                (retryInterval > 0 || scan.Pending? || (old(scanRetryAt).Some? && now < old(scanRetryAt).value))
      ensures scanned ==> forall id :: id in scan.attempts ==> Settled(now, id, live(id), active, retryAt)
      ensures scanned ==> old(active) <= active && forall id :: id in active && id !in old(active) ==>
                id in scan.attempts && !live(id)
      ensures !scanned ==>
                && active == old(active) && running == old(running) && scanRetryAt.Some?
                && Covers(timer, scanRetryAt.value)
      ensures forall id :: id in retryAt && retryAt[id] > now ==> Covers(timer, retryAt[id])
      ensures scanned && retryInterval > 0 ==>
                forall id :: id in scan.attempts && WaitsForOwner(now, id, active, retryAt) ==>
                Covers(timer, now + Max(MAX_EVIDENCE_RECOVERY_BACKOFF, retryInterval))
    {
      hide EvidenceRecoveryBackoff, Settled, WaitsForOwner;
      scanned := false;
      if cohortInterval.Some? {
        cohortRecheckAt := Some(now + cohortInterval.value);
      }
      if scanRetryAt.Some? && now < scanRetryAt.value {
        ArmRetry(now);
        return;
      }
      if scan.ScanFailed? {
        scanFailures := scanFailures + 1;
        BackoffStaysInBounds(retryInterval, scanFailures);
        scanRetryAt := Some(now + EvidenceRecoveryBackoff(retryInterval, scanFailures));
        ArmRetry(now);
        return;
      }
      scanned, scanRetryAt, scanFailures := true, None, 0;
      LaunchScanned(now, scan.attempts, live);
      ArmRetry(now);
    }

    method EndWorker(id: AttemptId)
      requires Valid() && id in running
      modifies `active, `running
      ensures Valid() && active == old(active) - {id} && running == old(running) - multiset{id} && id !in running
    {
      WorkersShrink(active, id);
      active, running := active - {id}, running - multiset{id};
    }

    method NoteRefusal(id: AttemptId, code: Code, now: int)
      modifies `retryAt, `failures, `refusals, `refusalCode
      ensures id in refusals && retryAt == old(retryAt)[id := now + RefusalDelay(refusals[id])] && retryAt[id] > now
      ensures refusals == old(refusals)[id := if id in old(refusals) then old(refusals)[id] + 1 else 1]
      ensures failures == old(failures) - {id} && refusalCode == old(refusalCode)[id := code]
    {
      hide RefusalDelay, Recheck;
      failures := failures - {id};
      var n := if id in refusals then refusals[id] + 1 else 1;
      WaitIsAtMostTheTimeWaited(n);
      refusals := refusals[id := n];
      retryAt, refusalCode := retryAt[id := now + RefusalDelay(n)], refusalCode[id := code];
    }

    method NoteFailure(id: AttemptId, now: int)
      modifies `retryAt, `failures
      ensures id in failures
      ensures retryAt == old(retryAt)[id := now + EvidenceRecoveryBackoff(retryInterval, failures[id])]
      ensures failures == old(failures)[id := if id in old(failures) then old(failures)[id] + 1 else 1]
      ensures retryAt[id] > now <==> retryInterval > 0
    {
      hide EvidenceRecoveryBackoff;
      var n := if id in failures then failures[id] + 1 else 1;
      BackoffStaysInBounds(retryInterval, n);
      failures := failures[id := n];
      retryAt := retryAt[id := now + EvidenceRecoveryBackoff(retryInterval, n)];
    }

    method NoteOutcome(id: AttemptId, outcome: Outcome, now: int)
      modifies `retryAt, `failures, `refusals, `refusalCode
      ensures outcome.Recovered? ==> retryAt == old(retryAt) - {id} && id !in failures
      ensures outcome.Refused? ==>
                id in refusals && retryAt == old(retryAt)[id := now + RefusalDelay(refusals[id])] && retryAt[id] > now
      ensures outcome.Failed? ==>
                && id in failures
                && retryAt == old(retryAt)[id := now + EvidenceRecoveryBackoff(retryInterval, failures[id])]
                && (retryAt[id] > now <==> retryInterval > 0)
      ensures !outcome.Refused? && id in old(refusalCode) ==> id !in refusals && id !in refusalCode
    {
      hide EvidenceRecoveryBackoff, RefusalDelay;
      if outcome.Refused? {
        NoteRefusal(id, outcome.code, now);
        return;
      }
      if id in refusalCode {
        refusals, refusalCode := refusals - {id}, refusalCode - {id};
      }
      if outcome.Recovered? {
        retryAt, failures := retryAt - {id}, failures - {id};
      } else {
        NoteFailure(id, now);
      }
    }

    /** A worker ended. Its attempt waits a backoff, a slow re-check, or no longer. */
    method Finished(id: AttemptId, outcome: Outcome, now: int)
      requires Valid() && id in running
      modifies `active, `running, `retryAt, `failures, `refusals, `refusalCode
      ensures Valid() && active == old(active) - {id} && running == old(running) - multiset{id} && id !in running
      ensures outcome.Recovered? ==> retryAt == old(retryAt) - {id}
      ensures outcome.Refused? ==>
                id in refusals && retryAt == old(retryAt)[id := now + RefusalDelay(refusals[id])] && retryAt[id] > now
      ensures outcome.Failed? ==>
                && id in failures
                && retryAt == old(retryAt)[id := now + EvidenceRecoveryBackoff(retryInterval, failures[id])]
      ensures outcome.Failed? ==> (retryAt[id] > now <==> retryInterval > 0)
      ensures !outcome.Refused? && id in old(refusalCode) ==> id !in refusals && id !in refusalCode
      ensures outcome.Recovered? ==> id !in failures
    {
      hide EvidenceRecoveryBackoff, RefusalDelay;
      EndWorker(id);
      NoteOutcome(id, outcome, now);
    }
  }

  /** Why a pending attempt is where it is after a scan: a worker has it, its wait is
      not over, somebody else owns it, or every worker is busy. */
  predicate Settled(now: int, id: AttemptId, live: bool, active: set<AttemptId>, retryAt: map<AttemptId, int>) {
    id in active || (id in retryAt && now < retryAt[id]) || live || |active| == MAX_EVIDENCE_RECOVERY_WORKERS
  }

  /** A retry that is due and was left only because somebody else owns its attempt. */
  predicate WaitsForOwner(now: int, id: AttemptId, active: set<AttemptId>, retryAt: map<AttemptId, int>) {
    id !in active && id in retryAt && retryAt[id] <= now && |active| < MAX_EVIDENCE_RECOVERY_WORKERS
  }

  lemma WorkersGrow(active: set<AttemptId>, id: AttemptId)
    requires id !in active
    ensures multiset(active + {id}) == multiset(active) + multiset{id} && |active + {id}| == |active| + 1
  {
  }

  lemma WorkersShrink(active: set<AttemptId>, id: AttemptId)
    requires id in active
    ensures multiset(active - {id}) == multiset(active) - multiset{id} && |active - {id}| == |active| - 1
    ensures id !in multiset(active - {id})
  {
  }

  /** What launching may do to the workers and the waits. */
  ghost predicate Launched(now: int, attempts: seq<AttemptId>, live: AttemptId -> bool,
                           had: set<AttemptId>, waits: map<AttemptId, int>, active: set<AttemptId>,
                           left: map<AttemptId, int>) {
    && had <= active
    && (forall id :: id in active && id !in had ==> id in attempts && !live(id) && (id in waits ==> waits[id] <= now))
    && (forall id :: id in left ==> id in waits && left[id] == waits[id])
    && (forall id :: id in waits && id !in left ==> id in active)
  }

  lemma NothingLaunched(now: int, attempts: seq<AttemptId>, live: AttemptId -> bool, active: set<AttemptId>,
                        waits: map<AttemptId, int>)
    ensures Launched(now, attempts, live, active, waits, active, waits)
  {
  }

  lemma LaunchedKeepsWaits(now: int, attempts: seq<AttemptId>, live: AttemptId -> bool,
                           had: set<AttemptId>, waits: map<AttemptId, int>, active: set<AttemptId>,
                           left: map<AttemptId, int>, id: AttemptId)
    requires Launched(now, attempts, live, had, waits, active, left)
    ensures id in left ==> id in waits && left[id] == waits[id]
  {
  }

  lemma NowSettled(now: int, id: AttemptId, live: bool, active: set<AttemptId>, retryAt: map<AttemptId, int>)
    ensures id in active || (id in retryAt && now < retryAt[id]) || live ==> Settled(now, id, live, active, retryAt)
    ensures id in active || (id in retryAt && now < retryAt[id]) || id !in retryAt ==>
              !WaitsForOwner(now, id, active, retryAt)
  {
  }

  lemma EveryWorkerBusy(now: int, attempts: seq<AttemptId>, live: AttemptId -> bool, active: set<AttemptId>,
                        retryAt: map<AttemptId, int>)
    requires |active| == MAX_EVIDENCE_RECOVERY_WORKERS
    ensures forall id :: id in attempts ==>
              && Settled(now, id, live(id), active, retryAt)
              && !WaitsForOwner(now, id, active, retryAt)
  {
  }

  lemma LaunchedOneMore(now: int, attempts: seq<AttemptId>, live: AttemptId -> bool,
                        had: set<AttemptId>, waits: map<AttemptId, int>, active: set<AttemptId>,
                        left: map<AttemptId, int>, id: AttemptId)
    requires Launched(now, attempts, live, had, waits, active, left)
    requires id in attempts && id !in active && !live(id) && (id in left ==> left[id] <= now)
    requires |active| < MAX_EVIDENCE_RECOVERY_WORKERS
    ensures Launched(now, attempts, live, had, waits, active + {id}, left - {id})
    ensures forall x :: Settled(now, x, live(x), active, left) ==> Settled(now, x, live(x), active + {id}, left - {id})
    ensures forall x :: WaitsForOwner(now, x, active + {id}, left - {id}) ==> WaitsForOwner(now, x, active, left)
  {
  }
}
