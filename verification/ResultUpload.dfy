/** What an attempt's result upload leaves where: the document the node found, the row
    L1 holds, the mailbox, and the record the node keeps of it.
    Source: agent/attempt_lifecycle.go, agent/result_upload.go, agent/handoff_records.go. */
module ResultUpload {
  import opened Common

  const MAX_RESULT_BYTES: nat := 0x10_0000

  type Bytes = seq<nat>
  type AttemptId = nat

  datatype Skip = Absent | NotReadable | NotFile | Oversize | NotJson | Transport

  /** The document, or why there is none to upload. */
  datatype AttemptResult = Document(bytes: Bytes) | Skipped(why: Skip)

  /** What stands at the result's name while it is read. */
  datatype AtName = Nothing | Irregular | Regular(content: Bytes)

  /** One call's answer: a value, nothing at that name, or any other failure. */
  datatype Answer<T> = Got(value: T) | NotThere | Failed

  /** The calls of one read, through the run's own directory or through the helper.
      `look` is whether the entry is a regular file and its size, `same` whether the file
      opened is regular and the one looked at. */
  datatype Reading =
    | Local(dir: Answer<()>, look: Answer<(bool, nat)>, open: Answer<()>, same: Answer<bool>, bytes: Answer<Bytes>)
    | Remote(file: Answer<(Bytes, bool)>, unusable: bool)

  /** What every read path shares. */
  function Classify(document: Bytes, truncated: bool, json: Bytes -> bool): AttemptResult {
    if truncated || |document| > MAX_RESULT_BYTES then Skipped(Oversize)
    else if !json(document) then Skipped(NotJson)
    else Document(document)
  }

  function Read(r: Reading, json: Bytes -> bool): AttemptResult {
    match r
    case Local(dir, look, open, same, bytes) =>
      if dir.NotThere? then Skipped(Absent)
      else if dir.Failed? then Skipped(NotReadable)
      else if look.NotThere? then Skipped(Absent)
      else if look.Failed? then Skipped(NotReadable)
      else if !look.value.0 then Skipped(NotFile)
      else if look.value.1 > MAX_RESULT_BYTES then Skipped(Oversize)
      else if open.NotThere? then Skipped(Absent)
      else if open.Failed? then Skipped(NotReadable)
      else if !same.Got? then Skipped(NotReadable)
      else if !same.value then Skipped(NotFile)
      else if !bytes.Got? then Skipped(NotReadable)
      else Classify(bytes.value, false, json)
    case Remote(file, unusable) =>
      if file.NotThere? then Skipped(Absent)
      else if file.Failed? then Skipped(if unusable then NotFile else NotReadable)
      else Classify(file.value.0, file.value.1, json)
  }

  /** No read is longer than one byte past the bound. */
  function Bounded(content: Bytes): Bytes {
    if |content| > MAX_RESULT_BYTES then content[..MAX_RESULT_BYTES + 1] else content
  }

  /** The calls answered about what stood there; any of them may still have failed. */
  predicate Truthful(stood: AtName, r: Reading) {
    match r
    case Local(dir, look, open, same, bytes) =>
      && (dir.NotThere? || look.NotThere? || open.NotThere? ==> stood.Nothing?)
      && (look.Got? && look.value.0 ==> stood.Regular? && look.value.1 == |stood.content|)
      && (look.Got? && !look.value.0 ==> stood.Irregular?)
      && (bytes.Got? ==> stood.Regular? && bytes.value == Bounded(stood.content))
    case Remote(file, _) =>
      && (file.NotThere? ==> stood.Nothing?)
      && (file.Got? ==>
            && stood.Regular? && (file.value.1 <==> |stood.content| > MAX_RESULT_BYTES)
            && (!file.value.1 ==> file.value.0 == stood.content))
  }

  /** L1's side of the upload. A reply that was lost may have landed. */
  datatype Reply = Accepted | Refused | Lost(landed: bool)

  /** `unpublished` are the events not yet at L3, `finalized` that the last drain ran. */
  datatype Mailbox = NoMailbox | Mailbox(finalized: bool, unpublished: nat)

  /** How an attempt comes to its result. One turned away before it ran has an absent
      result stored for it and reads nothing. Any other reads through its helper or its
      own receipt, or has nothing to read through. */
  datatype ReadPath = TurnedAway | Through(reading: Reading) | NoPath

  /** What happens around one upload: what stands at the result's name, what there is to
      read it through, what counts as JSON, what L1 answers, and the mailbox. */
  datatype Sending = Sending(stood: AtName, reader: Option<Reading>, json: Bytes -> bool, reply: Reply,
                             mailbox: Mailbox)

  datatype Upload = Upload(stood: AtName, path: ReadPath, json: Bytes -> bool, reply: Reply, mailbox: Mailbox)

  /** A stored result comes first, then whatever there is to read through. */
  function PathOf(turnedAway: bool, reader: Option<Reading>): ReadPath {
    if turnedAway then TurnedAway else if reader.Some? then Through(reader.value) else NoPath
  }

  function UploadOf(turnedAway: bool, x: Sending): Upload {
    Upload(x.stood, PathOf(turnedAway, x.reader), x.json, x.reply, x.mailbox)
  }

  /** The filesystem and the helper answer about what stands there, and nothing empty is
      JSON. */
  predicate Possible(x: Sending) {
    (x.reader.Some? ==> Truthful(x.stood, x.reader.value)) && !x.json([])
  }

  predicate Faithful(u: Upload) {
    (u.path.Through? ==> Truthful(u.stood, u.path.reading)) && !u.json([])
  }

  /** What the attempt has to upload; with nothing to read through, nothing is. */
  function ToUpload(u: Upload): Option<AttemptResult> {
    match u.path
    case TurnedAway => Some(Skipped(Absent))
    case Through(reading) => Some(Read(reading, u.json))
    case NoPath => None
  }

  /** What of this attempt's stands at the result's name: one that never ran put nothing
      there, whatever an earlier one left. */
  function Produced(u: Upload): AtName {
    if u.path.TurnedAway? then Nothing else u.stood
  }

  /** What L1 holds for the attempt afterwards. */
  function LedgerRow(u: Upload): Option<AttemptResult> {
    if u.reply.Accepted? || (u.reply.Lost? && u.reply.landed) then ToUpload(u) else None
  }

  /** Nothing on the node is the only copy: L1 holds the very bytes the attempt left, or
      accepted that it left none, and L3 holds every event. */
  predicate EvidenceElsewhere(u: Upload) {
    && (match Produced(u)
        case Nothing => LedgerRow(u) == Some(Skipped(Absent))
        case Irregular => false
        case Regular(content) => LedgerRow(u) == Some(Document(content)))
    && (u.mailbox.Mailbox? ==> u.mailbox.unpublished == 0)
  }

  /** The node heard that the upload landed, and its mailbox was drained. */
  predicate Heard(u: Upload) {
    u.reply.Accepted? && (u.mailbox.Mailbox? ==> u.mailbox.finalized)
  }

  predicate Confirmed(u: Upload) {
    Heard(u) && EvidenceElsewhere(u)
  }

  // ----- The node's own record of it -----

  datatype UploadRecord = UploadRecord(attempt: AttemptId, uploaded: bool, reason: Option<Skip>, mailboxDrained: bool)

  /** What became of the attempt's upload, and nothing when there was nothing to upload.
      An upload that did not land is recorded as a transport failure. */
  function NewUploadRecord(attempt: AttemptId, u: Upload): Option<UploadRecord> {
    var found := ToUpload(u);
    if found.None? then None
    else
      var o := if u.reply.Accepted? then found.value else Skipped(Transport);
      Some(UploadRecord(attempt, o.Document? && o.bytes != [], if o.Skipped? then Some(o.why) else None,
                        u.mailbox.Mailbox? ==> u.mailbox.finalized && u.mailbox.unpublished == 0))
  }

  predicate Publishes(u: UploadRecord) {
    (u.uploaded || u.reason == Some(Absent)) && u.mailboxDrained
  }

  /** The verdict an upload returns. */
  predicate Published(u: Upload) {
    var record := NewUploadRecord(0, u);
    record.Some? && Publishes(record.value)
  }

  /** A document offered is the whole of what the attempt left, and absence is only said
      when it left nothing. */
  lemma ReadingIsTruthful(u: Upload)
    requires Faithful(u)
    ensures ToUpload(u).Some? && ToUpload(u).value.Document? ==>
              Produced(u) == Regular(ToUpload(u).value.bytes) && ToUpload(u).value.bytes != []
    ensures ToUpload(u) == Some(Skipped(Absent)) ==> Produced(u).Nothing?
    ensures ToUpload(u).None? <==> u.path.NoPath?
  {
  }

  /** An upload publishes if and only if the node heard that it landed and the evidence
      really is elsewhere; with nothing to read through it never does. */
  lemma VerdictIsTheTruth(attempt: AttemptId, u: Upload)
    requires Faithful(u)
    ensures Published(u) <==> Confirmed(u)
    ensures u.path.NoPath? ==> NewUploadRecord(attempt, u).None? && !Published(u) && LedgerRow(u).None?
    ensures var record := NewUploadRecord(attempt, u);
      record.Some? ==> record.value.attempt == attempt && (Publishes(record.value) <==> Published(u))
  {
    hide Faithful, Produced, ToUpload;
    ReadingIsTruthful(u);
  }

  /** A landed upload whose reply was lost is elsewhere, and is not published. */
  lemma LostReplyWithholds() returns (u: Upload)
    ensures Faithful(u) && EvidenceElsewhere(u) && !Published(u)
  {
    u := Upload(Nothing, Through(Remote(NotThere, false)), b => b != [], Lost(true), NoMailbox);
  }
}
