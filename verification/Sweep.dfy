/** The two passes that remove one run's results, the expiry sweep and the node's
    budget, against each other and against attempts that rerun the run meanwhile.
    Source: agent/handoff.go, collect, expireRun and what they call, and
    agent/handoff_budget.go, evictRetainedRun. */
module Sweep {
  import opened Common

  const MAX_STRUCTURAL_REFUSALS: nat := 4

  type PassId = nat

  /** What an attempt writes and a pass must never invent. No deadline means the
      attempt has not finished. */
  datatype Facts = Facts(attempt: nat, admittedAt: int, retainedAt: int, retainUntil: Option<int>, published: bool,
                         uploaded: bool, earlierPublished: bool, succeeded: bool)
  {
    predicate EvidenceReachedLedger() {
      published && uploaded && earlierPublished
    }
  }

  /** A retention record: the facts, and the counters passes keep. */
  datatype Record = Record(facts: Facts, failures: nat, refusals: nat, quarantined: bool)

  datatype Holder = Nobody | Attempt | Collector(id: PassId)

  /** What Lstat and the removal found at the run's name. */
  datatype Look = LooksAbsent | LooksLikeDirectory | LooksOther | LookFailed

  datatype Removal =
    | Removed(recordGone: bool)
    | NothingThere(recordGone: bool)
    | NotADirectory
    | OtherFailure(someDeleted: bool)

  /** How far one pass is with this record. */
  datatype Phase =
    | Loaded                                    // chosen from a listing, no lease yet
    | Reading                                   // lease held, record not yet re-read
    | Lifting(record: Record)                   // quarantined: looking at the name
    | Deciding(record: Record)
    | Removing(record: Record)
    | Rewriting(record: Record, updated: Record, expireAfter: bool)
    | Writing(updated: Record, expireAfter: bool)
    | Leaving

  /** Why a pass would remove the results: a deadline that had passed when the whole
      sweep began, or a node over its budget that chose the result with these facts. */
  datatype Reason = Expiry(start: int) | Budget(chosen: Facts)

  datatype Pass = Pass(why: Reason, phase: Phase)

  /** One deletion of results, whole or partial: what stood on disk at that instant. */
  datatype Deletion = Deletion(onDisk: Option<Record>, why: Reason, clock: int)

  /** `disk` is the run's record, `refused` how many structural refusals have been
      recorded since an attempt wrote it or a quarantine was lifted, `pausedAtStartup`
      that startup paused it since, `deletions` every time a pass deleted the run's
      results. */
  datatype State = State(clock: int, disk: Option<Record>, holder: Holder, passes: map<PassId, Pass>,
                         refused: nat, pausedAtStartup: bool, deletions: seq<Deletion>)

  const INITIAL := State(0, None, Nobody, map[], 0, false, [])

  datatype Event =
    | Tick(passed: nat)
    | AttemptLocks
    | AttemptWrites(facts: Facts)
    | AttemptReleases
    | StartupPauses(deadline: int)
    | Load(id: PassId)
    | Select(id: PassId)
    | TakeLease(id: PassId)
    | Reread(id: PassId, trusted: bool)
    | LookAtName(id: PassId, look: Look)
    | Decide(id: PassId)
    | Reconsider(id: PassId, trusted: bool)
    | Remove(id: PassId, removal: Removal)
    | CompareOnDisk(id: PassId, readable: bool)
    | WriteBack(id: PassId, ok: bool)
    | GiveLeaseBack(id: PassId)

  function To(s: State, id: PassId, phase: Phase): State
    requires id in s.passes
  {
    s.(passes := s.passes[id := s.passes[id].(phase := phase)])
  }

  predicate Due(r: Record, now: int) {
    r.facts.retainUntil.Some? && r.facts.retainUntil.value <= now
  }

  /** The facts the order was built on are still the record's. */
  predicate StillTheChosen(chosen: Facts, now: Facts) {
    && now.EvidenceReachedLedger() == chosen.EvidenceReachedLedger()
    && now.admittedAt == chosen.admittedAt && now.retainedAt == chosen.retainedAt
  }

  predicate Holds(s: State, id: PassId) {
    s.holder == Collector(id) && id in s.passes
  }

  /** The record a failed removal leaves: counted, and paused once the same shape
      was found often enough. */
  function NoteRemovalFailure(r: Record, structural: bool): Record {
    var refusals := if structural then r.refusals + 1 else r.refusals;
    Record(r.facts, r.failures + 1, refusals, r.quarantined || (structural && refusals >= MAX_STRUCTURAL_REFUSALS))
  }

  function Lifted(r: Record): Record {
    Record(r.facts, 0, 0, false)
  }

  function PassStep(s: State, id: PassId, e: Event): State
    requires Holds(s, id)
  {
    var pass := s.passes[id];
    match (pass.phase, e)
    case (Reading, Reread(_, trusted)) =>
      if !trusted || s.disk.None? then To(s, id, Leaving)
      else if pass.why.Budget? && (s.disk.value.facts.retainUntil.None? || s.disk.value.quarantined) then
        To(s, id, Leaving)
      else if s.disk.value.quarantined then To(s, id, Lifting(s.disk.value))
      else To(s, id, Deciding(s.disk.value))
    case (Lifting(r), LookAtName(_, look)) =>
      if look.LookFailed? || look.LooksOther? then To(s, id, Leaving)
      else To(s, id, Rewriting(r, Lifted(r), true))
    case (Deciding(r), Decide(_)) =>
      if pass.why.Budget? then s else To(s, id, if Due(r, pass.why.start) then Removing(r) else Leaving)
    case (Deciding(r), Reconsider(_, trusted)) =>
      if pass.why.Expiry? then s
      else if trusted && s.disk.Some? && StillTheChosen(pass.why.chosen, s.disk.value.facts) then
        To(s, id, Removing(r))
      else To(s, id, Leaving)
    case (Removing(r), Remove(_, removal)) =>
      (match removal
       case Removed(recordGone) =>
         var deleted := s.(deletions := s.deletions + [Deletion(s.disk, pass.why, s.clock)]);
         if recordGone then To(deleted.(disk := None), id, Leaving)
         else To(deleted, id, Rewriting(r, NoteRemovalFailure(r, false), false))
       case NothingThere(recordGone) =>
         if recordGone then To(s.(disk := None), id, Leaving)
         else To(s, id, Rewriting(r, NoteRemovalFailure(r, false), false))
       case NotADirectory => To(s, id, Rewriting(r, NoteRemovalFailure(r, true), false))
       case OtherFailure(someDeleted) =>
         To(s.(deletions := if someDeleted then s.deletions + [Deletion(s.disk, pass.why, s.clock)] else s.deletions),
            id, Rewriting(r, NoteRemovalFailure(r, false), false)))
    case (Rewriting(snapshot, updated, expireAfter), CompareOnDisk(_, readable)) =>
      if readable && s.disk.Some? && s.disk.value.facts == snapshot.facts then To(s, id, Writing(updated, expireAfter))
      else To(s, id, Leaving)
    case (Writing(updated, expireAfter), WriteBack(_, ok)) =>
      if !ok then To(s, id, Leaving)
      else
        var structural := s.disk.Some? && updated.refusals > s.disk.value.refusals;
        To(s.(disk := Some(updated), pausedAtStartup := s.pausedAtStartup && !expireAfter,
              refused := if expireAfter then 0 else if structural then s.refused + 1 else s.refused),
           id, if expireAfter then Deciding(updated) else Leaving)
    case (_, GiveLeaseBack(_)) =>
      if pass.phase.Leaving? then s.(holder := Nobody, passes := s.passes - {id}) else s
    case _ => s
  }

  function PassOf(e: Event): Option<PassId> {
    match e
    case Reread(id, _) => Some(id)
    case LookAtName(id, _) => Some(id)
    case Decide(id) => Some(id)
    case Reconsider(id, _) => Some(id)
    case Remove(id, _) => Some(id)
    case CompareOnDisk(id, _) => Some(id)
    case WriteBack(id, _) => Some(id)
    case GiveLeaseBack(id) => Some(id)
    case _ => None
  }

  function Step(s: State, e: Event): State {
    match e
    case Tick(passed) => s.(clock := s.clock + passed)
    case AttemptLocks => if s.holder.Nobody? then s.(holder := Attempt) else s
    case AttemptWrites(facts) =>
      // Admission and finish both write under the path lease.
      if s.holder.Attempt? then s.(disk := Some(Record(facts, 0, 0, false)), refused := 0, pausedAtStartup := false)
      else s
    case AttemptReleases => if s.holder.Attempt? then s.(holder := Nobody) else s
    case StartupPauses(deadline) =>
      // An admission that never finished, whose name is not a directory.
      if !s.holder.Nobody? || s.disk.None? || s.disk.value.facts.retainUntil.Some? then s
      else
        var r := s.disk.value;
        s.(pausedAtStartup := true,
           disk := Some(Record(r.facts.(retainUntil := Some(deadline)), r.failures + 1, MAX_STRUCTURAL_REFUSALS, true)))
    case Load(id) =>
      if id in s.passes || s.disk.None? || !(s.disk.value.quarantined || Due(s.disk.value, s.clock)) then s
      else s.(passes := s.passes[id := Pass(Expiry(s.clock), Loaded)])
    case Select(id) =>
      if id in s.passes || s.disk.None? || s.disk.value.facts.retainUntil.None? || s.disk.value.quarantined then s
      else s.(passes := s.passes[id := Pass(Budget(s.disk.value.facts), Loaded)])
    case TakeLease(id) =>
      if id in s.passes && s.passes[id].phase.Loaded? && s.holder.Nobody?
      then To(s.(holder := Collector(id)), id, Reading)
      else s
    case _ =>
      var id := PassOf(e);
      if id.Some? && Holds(s, id.value) then PassStep(s, id.value, e) else s
  }

  function Run(s: State, events: seq<Event>): State
    decreases |events|
  {
    if events == [] then s else Run(Step(s, events[0]), events[1..])
  }

  // ----- What every step keeps -----

  /** What a pass knows is still so: it holds the lease, and the record it read is
      the one on disk. */
  ghost predicate Current(s: State, id: PassId) {
    id in s.passes ==>
      var pass := s.passes[id];
      && (pass.why.Expiry? ==> pass.why.start <= s.clock)
      && (!pass.phase.Loaded? ==> s.holder == Collector(id))
      && match pass.phase
         case Lifting(r) => s.disk == Some(r) && r.quarantined && pass.why.Expiry?
         case Deciding(r) =>
           s.disk == Some(r) && !r.quarantined && (pass.why.Budget? ==> r.facts.retainUntil.Some?)
         case Removing(r) => s.disk == Some(r) && MayRemove(r, pass.why)
         case Rewriting(r, updated, lift) =>
           s.disk == Some(r) && Rewrites(r, updated, lift) && (lift ==> pass.why.Expiry?)
         case Writing(updated, lift) =>
           s.disk.Some? && Rewrites(s.disk.value, updated, lift) && (lift ==> pass.why.Expiry?)
         case _ => true
  }

  /** A pass with this reason may delete the results this record speaks for. */
  ghost predicate MayRemove(r: Record, why: Reason) {
    && !r.quarantined && r.facts.retainUntil.Some?
    && match why
       case Expiry(start) => Due(r, start)
       case Budget(chosen) => StillTheChosen(chosen, r.facts)
  }

  ghost predicate Rewrites(r: Record, updated: Record, lift: bool) {
    if lift then updated == Lifted(r)
    else !r.quarantined && (updated == NoteRemovalFailure(r, true) || updated == NoteRemovalFailure(r, false))
  }

  ghost predicate Inv(s: State) {
    && (forall id :: id in s.passes ==> Current(s, id))
    && (s.disk.Some? && !s.pausedAtStartup ==> s.disk.value.refusals == s.refused)
    && (s.disk.Some? && s.pausedAtStartup ==> s.disk.value.quarantined)
    && (s.disk.Some? && s.disk.value.quarantined ==> s.pausedAtStartup || s.refused >= MAX_STRUCTURAL_REFUSALS)
    && (forall d :: d in s.deletions ==>
        d.onDisk.Some? && MayRemove(d.onDisk.value, d.why) && (d.why.Expiry? ==> d.why.start <= d.clock))
  }

  lemma RewritingKeepsInv(s: State, id: PassId, e: Event)
    requires Inv(s) && Holds(s, id) && (e.CompareOnDisk? || e.WriteBack?)
    ensures Inv(PassStep(s, id, e))
  {
    assert Current(s, id);
    var t := PassStep(s, id, e);
    forall other | other in t.passes ensures Current(t, other) {
      assert Current(s, other);
    }
  }

  lemma RemovingKeepsInv(s: State, id: PassId, e: Event)
    requires Inv(s) && Holds(s, id) && e.Remove?
    ensures Inv(PassStep(s, id, e))
  {
    assert Current(s, id);
    var t := PassStep(s, id, e);
    forall other | other in t.passes ensures Current(t, other) {
      assert Current(s, other);
    }
  }

  lemma ExpiringKeepsInv(s: State, id: PassId, e: Event)
    requires Inv(s) && Holds(s, id) && !e.CompareOnDisk? && !e.WriteBack? && !e.Remove?
    ensures Inv(PassStep(s, id, e))
  {
    assert Current(s, id);
    var t := PassStep(s, id, e);
    forall other | other in t.passes ensures Current(t, other) {
      assert Current(s, other);
    }
  }

  lemma StepKeepsInv(s: State, e: Event)
    requires Inv(s)
    ensures Inv(Step(s, e))
  {
    if PassOf(e).Some? {
      if Holds(s, PassOf(e).value) {
        hide Inv, PassStep;
        if e.CompareOnDisk? || e.WriteBack? {
          RewritingKeepsInv(s, PassOf(e).value, e);
        } else if e.Remove? {
          RemovingKeepsInv(s, PassOf(e).value, e);
        } else {
          ExpiringKeepsInv(s, PassOf(e).value, e);
        }
      }
    } else {
      var t := Step(s, e);
      forall other | other in t.passes ensures Current(t, other) {
        assert other in s.passes ==> Current(s, other);
      }
    }
  }

  lemma {:induction false} RunKeepsInv(s: State, events: seq<Event>)
    requires Inv(s)
    ensures Inv(Run(s, events))
    decreases |events|
  {
    hide Inv, Step;
    if events != [] {
      StepKeepsInv(s, events[0]);
      RunKeepsInv(Step(s, events[0]), events[1..]);
    }
  }

  // ----- Main results -----

  /** In every run what is deleted is, at that very instant and however stale the
      listing was, a finished result whose name is not paused. Expiry deletes it only
      past the deadline on disk, and the budget only while its record still has the
      class and the generation the order chose it by. */
  lemma DeletesOnlyWhatThePassMay(events: seq<Event>)
    ensures forall d :: d in Run(INITIAL, events).deletions ==>
              && d.onDisk.Some? && !d.onDisk.value.quarantined && d.onDisk.value.facts.retainUntil.Some?
              && match d.why
                 case Expiry(_) => d.onDisk.value.facts.retainUntil.value <= d.clock
                 case Budget(chosen) =>
                   && d.onDisk.value.facts.EvidenceReachedLedger() == chosen.EvidenceReachedLedger()
                   && d.onDisk.value.facts.admittedAt == chosen.admittedAt
                   && d.onDisk.value.facts.retainedAt == chosen.retainedAt
  {
    RunKeepsInv(INITIAL, events);
  }

  lemma OnlyWritesChangeTheRecord(s: State, e: Event)
    requires !e.AttemptWrites? && !e.StartupPauses? && !e.WriteBack?
    ensures Step(s, e).disk == s.disk || Step(s, e).disk.None?
  {
  }

  lemma WriteBackKeepsFacts(s: State, e: Event)
    requires Inv(s) && e.WriteBack?
    ensures var t := Step(s, e);
      || t.disk == s.disk
      || (s.disk.Some? && t.disk.Some? && t.disk.value.facts == s.disk.value.facts
          && (t.disk.value.quarantined ==> t.refused == s.refused + 1))
  {
    hide Rewrites;
    if Holds(s, e.id) && s.passes[e.id].phase.Writing? && e.ok {
      assert Current(s, e.id);
      RewritesCount(s.disk.value, s.passes[e.id].phase.updated, s.passes[e.id].phase.expireAfter);
    }
  }

  lemma RewritesCount(r: Record, updated: Record, lift: bool)
    requires Rewrites(r, updated, lift)
    ensures updated.facts == r.facts && (!lift ==> r.refusals <= updated.refusals <= r.refusals + 1)
    ensures updated.quarantined ==> !lift && updated.refusals == r.refusals + 1
  {
  }

  /** No step of any pass, in any run, changes the facts an attempt wrote: it keeps
      them or removes the record. */
  lemma PassesNeverRewriteFacts(events: seq<Event>, e: Event)
    ensures var s, t := Run(INITIAL, events), Step(Run(INITIAL, events), e);
      !e.AttemptWrites? && !e.StartupPauses? && t.disk.Some? ==>
          s.disk.Some? && t.disk.value.facts == s.disk.value.facts
  {
    hide Step;
    RunKeepsInv(INITIAL, events);
    if e.WriteBack? {
      WriteBackKeepsFacts(Run(INITIAL, events), e);
    } else if !e.AttemptWrites? && !e.StartupPauses? {
      OnlyWritesChangeTheRecord(Run(INITIAL, events), e);
    }
  }

  /** In every run a record is paused only by startup or after four structural refusals
      were recorded against it, and any other step that pauses it records one. */
  lemma OnlyStructuralRefusalsPause(events: seq<Event>, e: Event)
    ensures var s, t := Run(INITIAL, events), Step(Run(INITIAL, events), e);
      && (s.disk.Some? && s.disk.value.quarantined ==> s.pausedAtStartup || s.refused >= MAX_STRUCTURAL_REFUSALS)
      && (t.disk.Some? && t.disk.value.quarantined && !(s.disk.Some? && s.disk.value.quarantined) ==>
            e.StartupPauses? || t.refused == s.refused + 1)
  {
    hide Rewrites;
    RunKeepsInv(INITIAL, events);
    var s := Run(INITIAL, events);
    if e.WriteBack? {
      WriteBackKeepsFacts(s, e);
    } else if !e.AttemptWrites? && !e.StartupPauses? {
      OnlyWritesChangeTheRecord(s, e);
    }
  }

  // ----- One pass on its own -----

  /** The state of a pass that has the lease. */
  function At(s: State, id: PassId, why: Reason, phase: Phase): State {
    s.(holder := Collector(id), passes := s.passes[id := Pass(why, phase)])
  }

  lemma RereadUnderTheLease(s: State, id: PassId, why: Reason)
    requires s.disk.Some?
    ensures Step(At(s, id, why, Reading), Reread(id, true))
            == At(s, id, why, if why.Budget? && (s.disk.value.facts.retainUntil.None? || s.disk.value.quarantined)
                              then Leaving
                              else if s.disk.value.quarantined then Lifting(s.disk.value) else Deciding(s.disk.value))
  {
  }

  lemma ReconsideredUnderTheLease(s: State, id: PassId, chosen: Facts)
    requires s.disk.Some?
    ensures Step(At(s, id, Budget(chosen), Deciding(s.disk.value)), Reconsider(id, true))
            == At(s, id, Budget(chosen), if StillTheChosen(chosen, s.disk.value.facts) then Removing(s.disk.value)
                                         else Leaving)
  {
  }

  lemma LeavingDoesNothing(s: State, id: PassId, why: Reason, e: Event)
    requires e.Reconsider? || e.Remove?
    ensures Step(At(s, id, why, Leaving), e) == At(s, id, why, Leaving)
  {
  }

  lemma RemovingIsRecorded(s: State, id: PassId, why: Reason, gone: bool)
    requires s.disk.Some?
    ensures var deleted := s.(deletions := s.deletions + [Deletion(s.disk, why, s.clock)]);
      Step(At(s, id, why, Removing(s.disk.value)), Remove(id, Removed(gone)))
      == if gone then At(deleted.(disk := None), id, why, Leaving)
         else At(deleted, id, why, Rewriting(s.disk.value, NoteRemovalFailure(s.disk.value, false), false))
  {
    hide NoteRemovalFailure;
  }

  function Swept(s: State, id: PassId, removal: Removal): State {
    var reading := Step(Step(Step(s, Load(id)), TakeLease(id)), Reread(id, true));
    Step(Step(reading, Decide(id)), Remove(id, removal))
  }

  predicate Sweepable(s: State, id: PassId) {
    s.holder.Nobody? && id !in s.passes && s.disk.Some? && !s.disk.value.quarantined && Due(s.disk.value, s.clock)
  }

  function AtPhase(s: State, id: PassId, phase: Phase): State {
    At(s, id, Expiry(s.clock), phase)
  }

  lemma LeaseIsTaken(s: State, id: PassId)
    requires s.holder.Nobody? && id !in s.passes && s.disk.Some?
    requires s.disk.value.quarantined || Due(s.disk.value, s.clock)
    ensures Step(Step(s, Load(id)), TakeLease(id)) == AtPhase(s, id, Reading)
  {
    assert Step(s, Load(id)) == s.(passes := s.passes[id := Pass(Expiry(s.clock), Loaded)]);
  }

  lemma DueIsDecided(s: State, id: PassId, r: Record)
    requires Due(r, s.clock)
    ensures Step(AtPhase(s, id, Deciding(r)), Decide(id)) == AtPhase(s, id, Removing(r))
  {
  }

  lemma SweepReachesRemoval(s: State, id: PassId, removal: Removal)
    requires Sweepable(s, id)
    ensures Swept(s, id, removal) == Step(AtPhase(s, id, Removing(s.disk.value)), Remove(id, removal))
  {
    hide Step, At, Due;
    LeaseIsTaken(s, id);
    RereadUnderTheLease(s, id, Expiry(s.clock));
    DueIsDecided(s, id, s.disk.value);
  }

  /** Results past their deadline are removed with their record. */
  lemma ExpiredResultsGo(s: State, id: PassId)
    requires Sweepable(s, id)
    ensures var t := Step(Swept(s, id, Removed(true)), GiveLeaseBack(id));
      t.disk.None? && t.holder.Nobody? && t.passes == s.passes
          && t.deletions == s.deletions + [Deletion(s.disk, Expiry(s.clock), s.clock)]
  {
    hide Swept, Due;
    SweepReachesRemoval(s, id, Removed(true));
    RemovingIsRecorded(s, id, Expiry(s.clock), true);
  }

  /** Anything that leaves the record standing is a failed removal, the results having
      been deleted or not. */
  predicate Fails(removal: Removal) {
    match removal
    case Removed(recordGone) => !recordGone
    case NothingThere(recordGone) => !recordGone
    case _ => true
  }

  lemma RefusalIsNoted(s: State, id: PassId, removal: Removal)
    requires Sweepable(s, id) && Fails(removal)
    ensures Swept(s, id, removal).disk == s.disk
    ensures Swept(s, id, removal)
            == AtPhase(s.(deletions := Swept(s, id, removal).deletions), id,
                       Rewriting(s.disk.value, NoteRemovalFailure(s.disk.value, removal.NotADirectory?), false))
  {
    hide NoteRemovalFailure, Due;
    SweepReachesRemoval(s, id, removal);
  }

  lemma NoteIsWritten(s: State, id: PassId, updated: Record)
    requires s.disk.Some?
    ensures Step(Step(AtPhase(s, id, Rewriting(s.disk.value, updated, false)), CompareOnDisk(id, true)),
                 WriteBack(id, true)).disk == Some(updated)
  {
    var t := Step(AtPhase(s, id, Rewriting(s.disk.value, updated, false)), CompareOnDisk(id, true));
    assert t == AtPhase(s, id, Writing(updated, false));
  }

  /** Every failed removal is counted, one that deleted the results and could not remove
      the record included; the fourth structural one pauses the record, and no other. */
  lemma RefusalsAreCounted(s: State, id: PassId, removal: Removal)
    requires Sweepable(s, id) && Fails(removal)
    ensures var t := Step(Step(Swept(s, id, removal), CompareOnDisk(id, true)), WriteBack(id, true));
      && t.disk.Some? && t.disk.value.facts == s.disk.value.facts && t.disk.value.failures == s.disk.value.failures + 1
      && t.disk.value.refusals == s.disk.value.refusals + (if removal.NotADirectory? then 1 else 0)
      && (t.disk.value.quarantined <==> removal.NotADirectory? && s.disk.value.refusals + 1 >= MAX_STRUCTURAL_REFUSALS)
  {
    hide Swept, Step;
    RefusalIsNoted(s, id, removal);
    NoteIsWritten(s.(deletions := Swept(s, id, removal).deletions), id,
                  NoteRemovalFailure(s.disk.value, removal.NotADirectory?));
  }

  /** Helper: a paused record is about to be lifted the moment its name is a directory
      again or gone; while the name is anything else the sweep leaves it alone. */
  lemma PauseLifts(s: State, id: PassId, look: Look)
    requires s.holder.Nobody? && id !in s.passes && s.disk.Some? && s.disk.value.quarantined
    ensures var looked := Step(Step(Step(Step(s, Load(id)), TakeLease(id)), Reread(id, true)), LookAtName(id, look));
      if look.LookFailed? || look.LooksOther? then looked == AtPhase(s, id, Leaving)
      else looked == AtPhase(s, id, Rewriting(s.disk.value, Lifted(s.disk.value), true))
  {
    hide Step, At;
    LeaseIsTaken(s, id);
    RereadUnderTheLease(s, id, Expiry(s.clock));
    PausedIsLookedAt(s, id, look);
  }

  lemma PausedIsLookedAt(s: State, id: PassId, look: Look)
    requires s.disk.Some?
    ensures Step(AtPhase(s, id, Lifting(s.disk.value)), LookAtName(id, look))
            == if look.LookFailed? || look.LooksOther? then AtPhase(s, id, Leaving)
               else AtPhase(s, id, Rewriting(s.disk.value, Lifted(s.disk.value), true))
  {
  }

  lemma LiftIsWritten(s: State, id: PassId)
    requires s.disk.Some?
    ensures var r := s.disk.value;
      Step(Step(AtPhase(s, id, Rewriting(r, Lifted(r), true)), CompareOnDisk(id, true)), WriteBack(id, true))
      == AtPhase(s.(disk := Some(Lifted(r)), refused := 0, pausedAtStartup := false), id, Deciding(Lifted(r)))
  {
    var r := s.disk.value;
    var t := Step(AtPhase(s, id, Rewriting(r, Lifted(r), true)), CompareOnDisk(id, true));
    assert t == AtPhase(s, id, Writing(Lifted(r), true));
  }

  // ----- What a budget pass with the lease does -----

  function GivenUp(s: State, id: PassId, chosen: Facts, gone: bool): State {
    var reread := Step(At(s, id, Budget(chosen), Reading), Reread(id, true));
    Step(Step(reread, Reconsider(id, true)), Remove(id, Removed(gone)))
  }

  /** Whatever happened since the order was built, a budget pass that gets the lease
      deletes the results exactly when the record on disk is a finished one, is not
      paused, and still has the class and the generation they were chosen by. */
  lemma BudgetDeletesExactlyTheChosen(s: State, id: PassId, chosen: Facts, gone: bool)
    ensures GivenUp(s, id, chosen, gone).deletions
            == s.deletions + (if s.disk.Some? && MayRemove(s.disk.value, Budget(chosen))
                              then [Deletion(s.disk, Budget(chosen), s.clock)] else [])
  {
    hide Step;
    var why := Budget(chosen);
    if s.disk.None? {
      NothingToReread(s, id, why);
    } else {
      RereadUnderTheLease(s, id, why);
      ReconsideredUnderTheLease(s, id, chosen);
    }
    LeavingDoesNothing(s, id, why, Reconsider(id, true));
    LeavingDoesNothing(s, id, why, Remove(id, Removed(gone)));
    if s.disk.Some? {
      RemovingIsRecorded(s, id, why, gone);
    }
  }

  lemma NothingToReread(s: State, id: PassId, why: Reason)
    requires s.disk.None?
    ensures Step(At(s, id, why, Reading), Reread(id, true)) == At(s, id, why, Leaving)
  {
  }
}
