/** Whether everything a handoff directory holds has reached the ledger, kept as
    three bits on one record, against the whole history of who wrote there.
    Source: agent/handoff_records.go, agent/handoff.go, agent/handoff_accounting.go. */
module Publication {
  import opened Common
  import opened ResultUpload

  /** The publication part of a retention record. `attempt` is absent on a record
      derived from a directory alone. */
  datatype Record = Record(attempt: Option<AttemptId>, finished: bool, published: bool, uploaded: bool,
                           earlierPublished: bool)

  predicate EvidenceReachedLedger(r: Record) {
    r.published && r.uploaded && r.earlierPublished
  }

  /** What stands at the record's name: nothing, something that cannot be read or
      identified, or a record. */
  datatype RecordFile = Missing | Unreadable | Standing(record: Record)

  /** What an admission carries forward. `trusted` says the standing record is
      this run's, for this directory, and passes every validity check. */
  function EarlierAttemptsPublished(file: RecordFile, trusted: bool, hasFiles: bool): bool {
    match file
    case Missing => !hasFiles
    case Unreadable => false
    case Standing(r) => trusted && r.finished && EvidenceReachedLedger(r)
  }

  datatype Directory = Gone | There(hasFiles: bool)

  /** An attempt that holds the path lease and its preparation receipt. */
  datatype Holder = Holder(attempt: AttemptId, earlierPublished: bool)

  /** One run's directory with everything this node keeps about it, and its
      history: who wrote there since the directory was last absent, who was turned
      away before it ran, and what became of the one upload each attempt makes. */
  datatype State = State(
    dir: Directory, file: RecordFile, upload: Option<UploadRecord>, holder: Option<Holder>,
    writers: set<AttemptId>, turnedAway: set<AttemptId>, outcomes: map<AttemptId, Upload>, admitted: set<AttemptId>)

  const INITIAL := State(Gone, Missing, None, None, {}, {}, map[], {})

  /** One step of the node, an attempt, a workload or a fault. A boolean says
      whether a read was trusted or a write went through. */
  datatype Event =
    | Prepare(attempt: AttemptId, trusted: bool, recorded: bool)
    | Write
    | DeleteFiles
    | DeleteDirectory
    | TurnAway
    | Uploads(sending: Sending, recorded: bool)
    | Finish(recorded: bool)
    | ReleaseLease
    | Crash
    | Adopt(trusted: bool, uploadReadable: bool, recorded: bool)
    | AdoptDirectory
    | RemoveSome
    | RemoveAll(recordRemoved: bool)
    | DropRecordOfGone(recordRemoved: bool)
    | DamageRecord
    | OlderAgentRan(attempt: AttemptId, published: bool, uploaded: bool)
    | OlderAgentLeftFiles(attempt: AttemptId)

  function HasFiles(d: Directory): bool {
    d.There? && d.hasFiles
  }

  function Verdict(s: State, a: AttemptId): bool {
    a in s.outcomes && Published(s.outcomes[a])
  }

  /** The window startup puts on an admission that never finished. */
  function AdoptedWindow(r: Record, upload: Option<UploadRecord>, uploadReadable: bool): Record {
    var joined := r.attempt.Some? && uploadReadable && upload.Some? && upload.value.attempt == r.attempt.value
        && Publishes(upload.value);
    r.(finished := true, published := r.published || joined, uploaded := r.uploaded || joined)
  }

  /** The upload record that stands once one was, or was not, written. */
  function Noted(standing: Option<UploadRecord>, next: Option<UploadRecord>, recorded: bool): Option<UploadRecord> {
    if recorded && next.Some? then next else standing
  }

  function Step(s: State, e: Event): State {
    match e
    case Prepare(a, trusted, recorded) =>
      // Admissions are serialised by the path lease, and an attempt is admitted once.
      if s.holder.Some? || a in s.admitted then s
      else
        var dir := if s.dir.Gone? then There(false) else s.dir;
        var earlier := EarlierAttemptsPublished(s.file, trusted, HasFiles(dir));
        if !recorded then s.(dir := dir, admitted := s.admitted + {a})
        else s.(dir := dir, admitted := s.admitted + {a}, holder := Some(Holder(a, earlier)),
                file := Standing(Record(Some(a), false, false, false, earlier)))
    case Write =>
      if s.holder.None? || s.holder.value.attempt in s.turnedAway then s
      else s.(dir := There(true), writers := s.writers + {s.holder.value.attempt})
    case DeleteFiles =>
      if s.holder.None? || s.holder.value.attempt in s.turnedAway || s.dir.Gone? then s else s.(dir := There(false))
    case DeleteDirectory =>
      if s.holder.None? || s.holder.value.attempt in s.turnedAway then s else s.(dir := Gone, writers := {})
    case TurnAway =>
      // A restartable attempt whose ID cannot name a results directory is never spawned.
      if s.holder.None? || s.holder.value.attempt in s.writers || s.holder.value.attempt in s.outcomes then s
      else s.(turnedAway := s.turnedAway + {s.holder.value.attempt})
    case Uploads(x, recorded) =>
      // Latched: one upload an attempt, made before the lease is given back.
      if s.holder.None? || s.holder.value.attempt in s.outcomes || !Possible(x) then s
      else
        var a := s.holder.value.attempt;
        var u := UploadOf(a in s.turnedAway, x);
        s.(outcomes := s.outcomes[a := u], upload := Noted(s.upload, NewUploadRecord(a, u), recorded))
    case Finish(recorded) =>
      if s.holder.None? || !recorded then s
      else
        var h := s.holder.value;
        var verdict := Verdict(s, h.attempt);
        s.(file := Standing(Record(Some(h.attempt), true, verdict, verdict, h.earlierPublished)))
    case ReleaseLease => s.(holder := None)
    case Crash => s.(holder := None)
    case Adopt(trusted, uploadReadable, recorded) =>
      if s.holder.Some? || !s.file.Standing? || s.file.record.finished || !trusted || !recorded then s
      else if s.dir.Gone? then s.(file := Missing)
      else s.(file := Standing(AdoptedWindow(s.file.record, s.upload, uploadReadable)))
    case AdoptDirectory =>
      if s.holder.Some? || s.dir.Gone? || s.file.Standing? then s
      else s.(file := Standing(AdoptedWindow(Record(None, false, false, false, false), s.upload, true)))
    case RemoveSome =>
      // Only a directory a record names is ever removed.
      if s.holder.Some? || s.dir.Gone? || !s.file.Standing? then s else s.(dir := There(false))
    case RemoveAll(recordRemoved) =>
      if s.holder.Some? || s.dir.Gone? || !s.file.Standing? then s
      else s.(dir := Gone, writers := {}, file := if recordRemoved then Missing else s.file)
    case DropRecordOfGone(recordRemoved) =>
      if s.holder.Some? || !s.dir.Gone? || !recordRemoved then s else s.(file := Missing)
    case DamageRecord => if s.file.Missing? then s else s.(file := Unreadable)
    case OlderAgentRan(a, published, uploaded) =>
      // An older agent's record never carries the earlier-attempts bit.
      if s.holder.Some? || a in s.admitted then s
      else s.(dir := There(true), writers := s.writers + {a}, admitted := s.admitted + {a},
              file := Standing(Record(Some(a), true, published, uploaded, false)))
    case OlderAgentLeftFiles(a) =>
      if s.holder.Some? || a in s.admitted || !s.file.Missing? then s
      else s.(dir := There(true), writers := s.writers + {a}, admitted := s.admitted + {a})
  }

  function Run(s: State, events: seq<Event>): State
    decreases |events|
  {
    if events == [] then s else Run(Step(s, events[0]), events[1..])
  }

  /** Everything this attempt produced is somewhere besides this node. */
  ghost predicate Safe(s: State, a: AttemptId) {
    a in s.outcomes && EvidenceElsewhere(s.outcomes[a])
  }

  ghost predicate OthersSafe(s: State, a: Option<AttemptId>) {
    forall w :: w in s.writers && Some(w) != a ==> Safe(s, w)
  }

  /** What the bits stand for. */
  ghost predicate Sound(s: State) {
    && (s.dir.Gone? ==> s.writers == {})
    && (s.file.Missing? ==> s.holder.None? && (s.writers == {} || HasFiles(s.dir)))
    && (s.file.Standing? && s.file.record.earlierPublished ==>
          && OthersSafe(s, s.file.record.attempt)
          && (s.file.record.published && s.file.record.uploaded ==>
                s.file.record.attempt.Some? && Safe(s, s.file.record.attempt.value)))
    && (s.holder.Some? && s.holder.value.earlierPublished ==> OthersSafe(s, Some(s.holder.value.attempt)))
    && (s.holder.Some? ==> s.holder.value.attempt in s.admitted)
    && (s.holder.Some? && s.file.Standing? ==> s.file.record.attempt == Some(s.holder.value.attempt))
    && (s.upload.Some? ==>
          && s.upload.value.attempt in s.outcomes
          && (Publishes(s.upload.value) ==> Published(s.outcomes[s.upload.value.attempt])))
    && s.writers <= s.admitted && s.turnedAway <= s.admitted && s.writers !! s.turnedAway
    && s.outcomes.Keys <= s.admitted
    && (forall a :: a in s.outcomes ==>
          && Faithful(s.outcomes[a]) && (s.outcomes[a].path.TurnedAway? <==> a in s.turnedAway)
          && (Published(s.outcomes[a]) ==> Safe(s, a)))
  }

  lemma AdmissionKeepsSound(s: State, e: Event)
    requires Sound(s) && (e.Prepare? || e.OlderAgentRan? || e.OlderAgentLeftFiles?)
    ensures Sound(Step(s, e))
  {
    hide Faithful, EvidenceElsewhere, Publishes, Published;
  }

  lemma WorkloadKeepsSound(s: State, e: Event)
    requires Sound(s) && (e.Write? || e.DeleteFiles? || e.DeleteDirectory? || e.TurnAway?)
    ensures Sound(Step(s, e))
  {
    hide Faithful, EvidenceElsewhere, Publishes, Published;
  }

  lemma VerdictKeepsSound(s: State, e: Event)
    requires Sound(s) && (e.Uploads? || e.Finish? || e.ReleaseLease? || e.Crash?)
    ensures Sound(Step(s, e))
  {
    hide Faithful, Possible, EvidenceElsewhere, NewUploadRecord, Publishes, Published, PathOf, Heard;
    if e.Uploads? && s.holder.Some? && Possible(e.sending) {
      var a := s.holder.value.attempt;
      UploadIsJudged(a, a in s.turnedAway, e.sending);
    }
  }

  /** What one upload adds to the history. */
  lemma UploadIsJudged(a: AttemptId, turnedAway: bool, x: Sending)
    requires Possible(x)
    ensures var u, record := UploadOf(turnedAway, x), NewUploadRecord(a, UploadOf(turnedAway, x));
      && Faithful(u) && (u.path.TurnedAway? <==> turnedAway) && (Published(u) ==> EvidenceElsewhere(u))
      && (record.Some? ==> record.value.attempt == a && (Publishes(record.value) <==> Published(u)))
  {
    VerdictIsTheTruth(a, UploadOf(turnedAway, x));
  }

  lemma StartupKeepsSound(s: State, e: Event)
    requires Sound(s) && (e.Adopt? || e.AdoptDirectory?)
    ensures Sound(Step(s, e))
  {
    hide Faithful, EvidenceElsewhere, Publishes, Published;
  }

  lemma RemovalKeepsSound(s: State, e: Event)
    requires Sound(s) && (e.RemoveSome? || e.RemoveAll? || e.DropRecordOfGone? || e.DamageRecord?)
    ensures Sound(Step(s, e))
  {
    hide Faithful, EvidenceElsewhere, Publishes, Published;
  }

  lemma StepKeepsSound(s: State, e: Event)
    requires Sound(s)
    ensures Sound(Step(s, e))
  {
    hide Sound, Step;
    match e
    case Prepare(_, _, _) | OlderAgentRan(_, _, _) | OlderAgentLeftFiles(_) => AdmissionKeepsSound(s, e);
    case Write | DeleteFiles | DeleteDirectory | TurnAway => WorkloadKeepsSound(s, e);
    case Uploads(_, _) | Finish(_) | ReleaseLease | Crash => VerdictKeepsSound(s, e);
    case Adopt(_, _, _) | AdoptDirectory => StartupKeepsSound(s, e);
    case RemoveSome | RemoveAll(_) | DropRecordOfGone(_) | DamageRecord => RemovalKeepsSound(s, e);
  }

  lemma {:induction false} RunKeepsSound(s: State, events: seq<Event>)
    requires Sound(s)
    ensures Sound(Run(s, events))
    decreases |events|
  {
    hide Sound, Step;
    if events != [] {
      StepKeepsSound(s, events[0]);
      RunKeepsSound(Step(s, events[0]), events[1..]);
    }
  }

  /** In every run of admissions, refusals, uploads with and without a read, finishes,
      crashes, adoptions, reruns, removals and faults, a record that says its evidence
      reached the ledger says so truly of every attempt that wrote to the directory
      since it was last absent: what it left was read, and is elsewhere. */
  lemma PublishedRecordSpeaksForEveryWriter(events: seq<Event>)
    ensures var s := Run(INITIAL, events);
      s.file.Standing? && EvidenceReachedLedger(s.file.record) ==>
        forall w :: w in s.writers ==> Safe(s, w) && s.outcomes[w].path.Through?
  {
    RunKeepsSound(INITIAL, events);
  }

  /** Startup recovery of an attempt interrupted after its upload was recorded
      writes the very record its own finish would have written. */
  lemma RecoveryAgreesWithFinish(s: State, x: Sending)
    requires s.holder.Some? && s.dir.There?
    requires s.holder.value.attempt !in s.outcomes && Possible(x) && (x.reader.Some? || Sound(s))
    requires s.file == Standing(Record(Some(s.holder.value.attempt), false, false, false,
                                       s.holder.value.earlierPublished))
    ensures var uploaded := Step(s, Uploads(x, true));
      Step(Step(uploaded, Crash), Adopt(true, true, true)).file == Step(uploaded, Finish(true)).file
  {
    hide Sound, Published, NewUploadRecord, Publishes, Possible;
    var a := s.holder.value.attempt;
    var u := UploadOf(a in s.turnedAway, x);
    UploadIsJudged(a, a in s.turnedAway, x);
    NoRecordNoVerdict(a, u);
    if x.reader.Some? {
      ReaderMeansRecord(a, a in s.turnedAway, x);
    } else {
      OldRecordIsAnothers(s, a);
    }
  }

  lemma ReaderMeansRecord(a: AttemptId, turnedAway: bool, x: Sending)
    ensures x.reader.Some? || turnedAway ==> NewUploadRecord(a, UploadOf(turnedAway, x)).Some?
  {
  }

  lemma OldRecordIsAnothers(s: State, a: AttemptId)
    requires Sound(s) && a !in s.outcomes
    ensures s.upload.Some? ==> s.upload.value.attempt != a
  {
  }

  lemma NoRecordNoVerdict(a: AttemptId, u: Upload)
    ensures NewUploadRecord(a, u).None? ==> !Published(u)
  {
  }

  /** One undisturbed attempt: admitted, wrote, uploaded, finished, released. */
  function WholeAttempt(a: AttemptId, x: Sending): seq<Event> {
    [Prepare(a, true, true), Write, Uploads(x, true), Finish(true), ReleaseLease]
  }

  function WholeAttempts(outcomes: seq<Sending>): seq<Event> {
    if outcomes == [] then []
    else WholeAttempts(outcomes[..|outcomes| - 1]) + WholeAttempt(|outcomes| - 1, outcomes[|outcomes| - 1])
  }

  lemma {:induction false} RunAppend(s: State, before: seq<Event>, after: seq<Event>)
    ensures Run(s, before + after) == Run(Run(s, before), after)
    decreases |before|
  {
    if before == [] {
      assert before + after == after;
    } else {
      assert (before + after)[1..] == before[1..] + after;
      RunAppend(Step(s, before[0]), before[1..], after);
    }
  }

  lemma RunCons(s: State, e: Event, rest: seq<Event>)
    ensures Run(s, [e] + rest) == Run(Step(s, e), rest)
    ensures Run(s, []) == s
  {
    hide Step;
    assert ([e] + rest)[1..] == rest;
  }

  lemma RunOfFive(s: State, a: Event, b: Event, c: Event, d: Event, e: Event)
    ensures Run(s, [a, b, c, d, e]) == Step(Step(Step(Step(Step(s, a), b), c), d), e)
  {
    hide Step, Run;
    var s1 := Step(s, a);
    var s2 := Step(s1, b);
    var s3 := Step(s2, c);
    var s4 := Step(s3, d);
    assert [a, b, c, d, e] == [a] + [b, c, d, e] && [b, c, d, e] == [b] + [c, d, e];
    assert [c, d, e] == [c] + [d, e] && [d, e] == [d] + [e] && [e] == [e] + [];
    RunCons(s, a, [b, c, d, e]);
    RunCons(s1, b, [c, d, e]);
    RunCons(s2, c, [d, e]);
    RunCons(s3, d, [e]);
    RunCons(s4, e, []);
    RunCons(Step(s4, e), e, []);
  }

  /** One more attempt leaves the record saying: it published, and the record it
      replaced said so of everything before. */
  lemma OneMoreAttempt(s: State, a: AttemptId, x: Sending)
    requires s.holder.None? && a !in s.admitted && a !in s.outcomes && a !in s.turnedAway && Possible(x)
    requires s.file.Standing? ==> s.file.record.finished
    requires s.file.Missing? ==> s.dir.Gone?
    requires !s.file.Unreadable?
    ensures var after := Run(s, WholeAttempt(a, x));
      && after.holder.None? && after.admitted == s.admitted + {a} && after.outcomes.Keys == s.outcomes.Keys + {a}
      && after.turnedAway == s.turnedAway
      && after.file.Standing? && after.file.record.finished
      && (EvidenceReachedLedger(after.file.record) <==>
            Confirmed(UploadOf(false, x)) && (s.file.Standing? ==> EvidenceReachedLedger(s.file.record)))
  {
    RunOfFive(s, Prepare(a, true, true), Write, Uploads(x, true), Finish(true), ReleaseLease);
    VerdictIsTheTruth(a, UploadOf(false, x));
  }

  /** After these attempts the record stands finished and says what they all say. */
  ghost predicate Folded(s: State, outcomes: seq<Sending>) {
    && s.holder.None?
    && (forall a :: a in s.admitted || a in s.outcomes || a in s.turnedAway ==> a < |outcomes|)
    && (outcomes == [] ==> s.file.Missing? && s.dir.Gone?)
    && (outcomes != [] ==>
          && s.file.Standing? && s.file.record.finished
          && (EvidenceReachedLedger(s.file.record) <==>
                forall i :: 0 <= i < |outcomes| ==> Confirmed(UploadOf(false, outcomes[i]))))
  }

  lemma AllOfOneMore(before: seq<Sending>, x: Sending)
    ensures (forall i :: 0 <= i < |before + [x]| ==> Confirmed(UploadOf(false, (before + [x])[i]))) <==>
              Confirmed(UploadOf(false, x)) && forall i :: 0 <= i < |before| ==> Confirmed(UploadOf(false, before[i]))
  {
    var all := before + [x];
    assert all[|before|] == x;
    assert forall i :: 0 <= i < |before| ==> all[i] == before[i];
  }

  lemma OneMoreFolds(s: State, before: seq<Sending>, x: Sending)
    requires Folded(s, before) && Possible(x)
    ensures Folded(Run(s, WholeAttempt(|before|, x)), before + [x])
  {
    hide Run, Confirmed;
    OneMoreAttempt(s, |before|, x);
    AllOfOneMore(before, x);
  }

  /** The bits do not give data up and do not withhold it either: after any number
      of undisturbed attempts at one directory, the record says the evidence
      reached the ledger exactly when every one of them published. */
  lemma {:induction false} BitsFoldTheWholeHistory(outcomes: seq<Sending>)
    requires forall x :: x in outcomes ==> Possible(x)
    ensures Folded(Run(INITIAL, WholeAttempts(outcomes)), outcomes)
    decreases |outcomes|
  {
    if outcomes != [] {
      hide Step, Folded;
      var n := |outcomes| - 1;
      var before, x := outcomes[..n], outcomes[n];
      BitsFoldTheWholeHistory(before);
      RunAppend(INITIAL, WholeAttempts(before), WholeAttempt(n, x));
      OneMoreFolds(Run(INITIAL, WholeAttempts(before)), before, x);
      assert outcomes == before + [x];
    }
  }
}
