/** The same publication bits for an OCI handoff volume, which this node cannot
    look inside and whose terminal facts may arrive after a later attempt was
    admitted. Source: agent/handoff_oci_records.go. */
module OciPublication {
  import opened Common
  import opened Publication
  import opened ResultUpload

  /** One volume's owner on this node and the history of who wrote to the volume
      since it last did not exist and who was turned away before it ran. A record with
      `finished` false is live. */
  datatype Volume = Volume(
    file: RecordFile, upload: Option<UploadRecord>, holder: Option<AttemptId>,
    writers: set<AttemptId>, turnedAway: set<AttemptId>, outcomes: map<AttemptId, Upload>, admitted: set<AttemptId>)

  const NO_VOLUME := Volume(Missing, None, None, {}, {}, map[], {})

  /** Upload, Note and Finish name their attempt: each can land late. `trusted`
      is the record's validity at the moment it is read. */
  datatype VolumeEvent =
    | Admit(attempt: AttemptId, trusted: bool, uploadReadable: bool, recorded: bool)
    | Write
    | TurnAway
    | Uploaded(attempt: AttemptId, sending: Sending, recorded: bool)
    | Note(attempt: AttemptId, trusted: bool, recorded: bool)
    | Finished(attempt: AttemptId, trusted: bool, recorded: bool)
    | ReleaseLease
    | Crash
    | Reconcile(trusted: bool, uploadReadable: bool, recorded: bool)
    | HelperRemoved
    | Evict(recordRemoved: bool)
    | DamageRecord
    | OlderAgentRan(attempt: AttemptId, sending: Sending)

  function EarlierOciAttemptsPublished(v: Volume, trusted: bool, uploadReadable: bool): bool {
    match v.file
    case Missing => uploadReadable && v.upload.None?
    case Unreadable => false
    case Standing(r) => trusted && r.finished && EvidenceReachedLedger(r)
  }

  function VolumeVerdict(v: Volume, a: AttemptId): bool {
    a in v.outcomes && Published(v.outcomes[a])
  }

  function Finish(v: Volume, a: AttemptId, trusted: bool): RecordFile {
    match v.file
    case Unreadable => Unreadable
    case Missing => Standing(Record(Some(a), true, VolumeVerdict(v, a), VolumeVerdict(v, a), false))
    case Standing(r) =>
      // A record that fails its checks reads as none.
      if !trusted then Standing(Record(Some(a), true, VolumeVerdict(v, a), VolumeVerdict(v, a), false))
      else if r.attempt != Some(a) then v.file
      else Standing(r.(finished := true, published := VolumeVerdict(v, a), uploaded := VolumeVerdict(v, a)))
  }

  function VolumeStep(v: Volume, e: VolumeEvent): Volume {
    match e
    case Admit(a, trusted, uploadReadable, recorded) =>
      if v.holder.Some? || a in v.admitted then v
      else if !recorded then v.(admitted := v.admitted + {a})
      else v.(admitted := v.admitted + {a}, holder := Some(a),
              file := Standing(Record(Some(a), false, false, false,
                                      EarlierOciAttemptsPublished(v, trusted, uploadReadable))))
    case Write =>
      if v.holder.None? || v.holder.value in v.turnedAway then v else v.(writers := v.writers + {v.holder.value})
    case TurnAway =>
      // L1 refused the image, so the helper was never asked to run the attempt.
      if v.holder.None? || v.holder.value in v.writers || v.holder.value in v.outcomes then v
      else v.(turnedAway := v.turnedAway + {v.holder.value})
    case Uploaded(a, x, recorded) =>
      if a !in v.admitted || a in v.outcomes || !Possible(x) then v
      else
        var u := UploadOf(a in v.turnedAway, x);
        v.(outcomes := v.outcomes[a := u], upload := Noted(v.upload, NewUploadRecord(a, u), recorded))
    case Note(a, trusted, recorded) =>
      if !VolumeVerdict(v, a) || !v.file.Standing? || !trusted || v.file.record.attempt != Some(a) || !recorded then v
      else v.(file := Standing(v.file.record.(published := true, uploaded := true)))
    case Finished(a, trusted, recorded) =>
      if a !in v.admitted || !recorded then v else v.(file := Finish(v, a, trusted))
    case ReleaseLease => v.(holder := None)
    case Crash => v.(holder := None)
    case Reconcile(trusted, uploadReadable, recorded) =>
      if v.holder.Some? || !v.file.Standing? || !trusted || v.file.record.finished || !recorded then v
      else
        var r := v.file.record;
        var published := uploadReadable && v.upload.Some? && r.attempt == Some(v.upload.value.attempt)
            && Publishes(v.upload.value);
        v.(file := Standing(r.(finished := true, published := published, uploaded := published)))
    case HelperRemoved => if v.holder.Some? then v else v.(writers := {})
    case Evict(recordRemoved) =>
      if v.holder.Some? || !v.file.Standing? || !v.file.record.finished then v
      else v.(writers := {}, file := if recordRemoved then Missing else v.file)
    case DamageRecord => if v.file.Missing? then v else v.(file := Unreadable)
    case OlderAgentRan(a, x) =>
      // Before admissions were recorded, an upload record was all an attempt left.
      if v.holder.Some? || a in v.admitted || !v.file.Missing? || !Possible(x) || x.reader.None? then v
      else
        var u := UploadOf(false, x);
        v.(writers := v.writers + {a}, admitted := v.admitted + {a}, outcomes := v.outcomes[a := u],
           upload := NewUploadRecord(a, u))
  }

  function VolumeRun(v: Volume, events: seq<VolumeEvent>): Volume
    decreases |events|
  {
    if events == [] then v else VolumeRun(VolumeStep(v, events[0]), events[1..])
  }

  ghost predicate SafeIn(v: Volume, a: AttemptId) {
    a in v.outcomes && EvidenceElsewhere(v.outcomes[a])
  }

  ghost predicate OthersSafeIn(v: Volume, a: Option<AttemptId>) {
    forall w :: w in v.writers && Some(w) != a ==> SafeIn(v, w)
  }

  ghost predicate VolumeSound(v: Volume) {
    && (v.file.Missing? && v.upload.None? ==> v.writers == {})
    && (v.file.Missing? ==> v.holder.None?)
    && (v.file.Standing? && v.file.record.earlierPublished ==> OthersSafeIn(v, v.file.record.attempt))
    && (v.file.Standing? && v.file.record.published && v.file.record.uploaded && v.file.record.earlierPublished ==>
          v.file.record.attempt.Some? && SafeIn(v, v.file.record.attempt.value))
    && (v.holder.Some? && v.file.Standing? && v.file.record.earlierPublished ==> v.file.record.attempt == v.holder)
    && (v.holder.Some? ==> v.holder.value in v.admitted)
    && (v.upload.Some? ==>
          && v.upload.value.attempt in v.outcomes
          && (Publishes(v.upload.value) ==> Published(v.outcomes[v.upload.value.attempt])))
    && v.writers <= v.admitted && v.turnedAway <= v.admitted && v.writers !! v.turnedAway
    && v.outcomes.Keys <= v.admitted
    && (forall a :: a in v.outcomes ==>
          && Faithful(v.outcomes[a]) && (v.outcomes[a].path.TurnedAway? <==> a in v.turnedAway)
          && (Published(v.outcomes[a]) ==> SafeIn(v, a)))
  }

  lemma VolumeAdmissionKeepsSound(v: Volume, e: VolumeEvent)
    requires VolumeSound(v) && (e.Admit? || e.OlderAgentRan? || e.Write? || e.TurnAway?)
    ensures VolumeSound(VolumeStep(v, e))
  {
    hide Faithful, Possible, EvidenceElsewhere, NewUploadRecord, Publishes, Published, Heard;
    if e.OlderAgentRan? && Possible(e.sending) {
      UploadIsJudged(e.attempt, false, e.sending);
      ReaderMeansRecord(e.attempt, false, e.sending);
    }
  }

  lemma VolumeVerdictKeepsSound(v: Volume, e: VolumeEvent)
    requires VolumeSound(v) && (e.Uploaded? || e.Note? || e.Finished?)
    ensures VolumeSound(VolumeStep(v, e))
  {
    hide Faithful, Possible, EvidenceElsewhere, NewUploadRecord, Publishes, Published, PathOf, Heard;
    if e.Uploaded? && Possible(e.sending) {
      UploadIsJudged(e.attempt, e.attempt in v.turnedAway, e.sending);
    }
  }

  lemma VolumeRecoveryKeepsSound(v: Volume, e: VolumeEvent)
    requires VolumeSound(v) && (e.ReleaseLease? || e.Crash? || e.Reconcile?)
    ensures VolumeSound(VolumeStep(v, e))
  {
  }

  lemma VolumeRemovalKeepsSound(v: Volume, e: VolumeEvent)
    requires VolumeSound(v) && (e.HelperRemoved? || e.Evict? || e.DamageRecord?)
    ensures VolumeSound(VolumeStep(v, e))
  {
  }

  lemma VolumeStepKeepsSound(v: Volume, e: VolumeEvent)
    requires VolumeSound(v)
    ensures VolumeSound(VolumeStep(v, e))
  {
    hide VolumeSound, VolumeStep;
    match e
    case Admit(_, _, _, _) | OlderAgentRan(_, _) | Write | TurnAway => VolumeAdmissionKeepsSound(v, e);
    case Uploaded(_, _, _) | Note(_, _, _) | Finished(_, _, _) => VolumeVerdictKeepsSound(v, e);
    case ReleaseLease | Crash | Reconcile(_, _, _) => VolumeRecoveryKeepsSound(v, e);
    case HelperRemoved | Evict(_) | DamageRecord => VolumeRemovalKeepsSound(v, e);
  }

  lemma {:induction false} VolumeRunKeepsSound(v: Volume, events: seq<VolumeEvent>)
    requires VolumeSound(v)
    ensures VolumeSound(VolumeRun(v, events))
    decreases |events|
  {
    hide VolumeSound, VolumeStep;
    if events != [] {
      VolumeStepKeepsSound(v, events[0]);
      VolumeRunKeepsSound(VolumeStep(v, events[0]), events[1..]);
    }
  }

  /** In every run, late verdicts, refusals and attempts with no reader included, a
      volume's record that says its evidence reached the ledger says so truly of every
      attempt that wrote to the volume since it last did not exist: what it left was
      read, and is elsewhere. */
  lemma PublishedVolumeSpeaksForEveryWriter(events: seq<VolumeEvent>)
    ensures var v := VolumeRun(NO_VOLUME, events);
      v.file.Standing? && EvidenceReachedLedger(v.file.record) ==>
        forall w :: w in v.writers ==> SafeIn(v, w) && v.outcomes[w].path.Through?
  {
    VolumeRunKeepsSound(NO_VOLUME, events);
  }

  // ----- The bits do not withhold either -----

  /** One undisturbed attempt at a volume. */
  function WholeVolumeAttempt(v: Volume, a: AttemptId, x: Sending): Volume {
    var admitted := VolumeStep(VolumeStep(v, Admit(a, true, true, true)), VolumeEvent.Write);
    var uploaded := VolumeStep(VolumeStep(admitted, Uploaded(a, x, true)), Note(a, true, true));
    VolumeStep(VolumeStep(uploaded, Finished(a, true, true)), VolumeEvent.ReleaseLease)
  }

  /** It leaves the record saying: it published, and so did everything before; and
      startup recovery of the same attempt interrupted before its finish says the
      same. */
  lemma WholeVolumeAttemptFolds(v: Volume, a: AttemptId, x: Sending)
    requires v.holder.None? && a !in v.admitted && a !in v.outcomes && a !in v.turnedAway
    requires !v.file.Unreadable? && Possible(x)
    ensures var after := WholeVolumeAttempt(v, a, x);
      && after.file.Standing? && after.file.record.finished && after.writers == v.writers + {a}
      && (EvidenceReachedLedger(after.file.record) <==>
            && Confirmed(UploadOf(false, x))
            && match v.file
               case Standing(r) => r.finished && EvidenceReachedLedger(r)
               case _ => v.upload.None?)
    ensures var crashed := VolumeStep(VolumeStep(VolumeStep(v, Admit(a, true, true, true)), Uploaded(a, x, true)),
                                      VolumeEvent.Crash);
      x.reader.Some? || VolumeSound(v) ==>
        VolumeStep(crashed, Reconcile(true, true, true)).file == WholeVolumeAttempt(v, a, x).file
  {
    hide Possible, Confirmed, NewUploadRecord, Publishes, Published;
    UploadIsJudged(a, false, x);
    ReaderMeansRecord(a, false, x);
    NoRecordNoVerdict(a, UploadOf(false, x));
    VerdictIsTheTruth(a, UploadOf(false, x));
  }
}
