/** Giving results up until the node fits its budget, published ones first, while
    runs finish, rerun and move underneath. Source: agent/handoff_budget.go. */
module NodeBudget {
  import opened Common
  import opened HandoffTally
  import opened HandoffWorld
  import opened NodeAccounting

  const MAX_NODE_BUDGET_EVICTIONS: nat := 256

  // ----- What the node can be asked -----

  /** A process run's record, as far as eviction reads it. `finished` says it has
      a terminal window; `evidence` is evidenceReachedLedger. */
  datatype RetentionRecord = RetentionRecord(run: Name, admittedAt: int, retainedAt: int,
                                             finished: bool, quarantined: bool, evidence: bool)

  datatype OciRecord = OciRecord(attempt: Name, admittedAt: int, retainedAt: int, live: bool, evidence: bool)

  datatype OciRead = ReadFailed | NotFound | Found(record: OciRecord)

  /** What Lstat answered at a run's name while the node was measured. */
  datatype Look = There | Absent | LookFailed

  datatype RunRow = RunRow(run: Name, charged: nat)

  /** One measurement of the process root. `looks` is kept for stating what the
      measurement knew; nothing the node decides reads it. */
  datatype ProcessRoot = ProcessRoot(charged: nat, truncated: nat, replaced: nat, perRun: seq<RunRow>,
                                     looks: map<Name, Look>)

  datatype VolumeRow = VolumeRow(ownerKey: Name, name: Name, live: bool, charged: nat, published: bool,
                                 terminalAt: int, terminalKnown: bool, record: Option<OciRecord>)

  datatype OciRoot = Unread | Inventory(charged: nat, truncated: nat, complete: bool, perVolume: seq<VolumeRow>)

  datatype Status = Status(process: ProcessRoot, oci: OciRoot)

  /** How removing a run's results ended. All of them can be gone and the record
      still stand, and some of them can be gone when the removal fails. */
  datatype Removal = Removed(recordGone: bool) | NothingThere(recordGone: bool) | RemovalFailed(someDeleted: bool)

  /** What the helper answered. An error does not say that the volume is still there. */
  datatype Freeing = Freed | FreeingFailed(freed: bool)

  /** Every answer the node could get, as a function of the instant it asks. */
  datatype Node = Node(
    hasHelper: bool, hasEvictor: bool,
    measure: nat -> ProcessRoot,
    inventory: nat -> OciRoot,
    records: nat -> seq<RetentionRecord>,
    runHeld: (nat, Name) -> bool,
    current: (nat, Name) -> Option<RetentionRecord>,
    remove: (nat, Name) -> Removal,
    volumeHeld: (nat, Name) -> bool,
    ociRecord: (nat, Name) -> OciRead,
    helper: (nat, Name) -> Freeing,
    cancelled: nat -> bool)

  function NodeCharged(s: Status): nat {
    s.process.charged + (if s.oci.Inventory? then s.oci.charged else 0)
  }

  // ----- Candidates and their order -----

  datatype Candidate =
    | ProcessRun(record: RetentionRecord, charged: nat)
    | HandoffVolume(row: VolumeRow)
  {
    predicate Published() {
      if ProcessRun? then record.evidence else row.published
    }

    predicate AtKnown() {
      ProcessRun? || row.terminalKnown
    }

    function At(): int {
      if ProcessRun? then record.retainedAt else row.terminalAt
    }

    function Identity(): Name {
      if ProcessRun? then "process:" + record.run else "oci:" + row.name
    }
  }

  /** A run's measured share: its last row's, or nothing. */
  function ChargedTo(rows: seq<RunRow>, run: Name): nat {
    if rows == [] then 0
    else if rows[|rows| - 1].run == run then rows[|rows| - 1].charged
    else ChargedTo(rows[..|rows| - 1], run)
  }

  predicate MayGiveUpRun(process: ProcessRoot, r: RetentionRecord) {
    r.finished && !r.quarantined && ChargedTo(process.perRun, r.run) > 0
  }

  predicate MayGiveUpVolume(row: VolumeRow) {
    !row.live && row.ownerKey != "" && row.charged > 0
  }

  function RunCandidates(process: ProcessRoot, records: seq<RetentionRecord>): seq<Candidate> {
    if records == [] then []
    else
      var r := records[|records| - 1];
      RunCandidates(process, records[..|records| - 1])
      + (if MayGiveUpRun(process, r) then [ProcessRun(r, ChargedTo(process.perRun, r.run))] else [])
  }

  function VolumeCandidates(rows: seq<VolumeRow>): seq<Candidate> {
    if rows == [] then []
    else
      VolumeCandidates(rows[..|rows| - 1])
      + (if MayGiveUpVolume(rows[|rows| - 1]) then [HandoffVolume(rows[|rows| - 1])] else [])
  }

  function Volumes(s: Status): seq<VolumeRow> {
    if s.oci.Inventory? then s.oci.perVolume else []
  }

  function Candidates(s: Status, records: seq<RetentionRecord>): seq<Candidate> {
    RunCandidates(s.process, records) + VolumeCandidates(Volumes(s))
  }

  predicate NameLess(a: Name, b: Name) {
    !NameAtMost(b, a)
  }

  predicate LessEvictable(a: Candidate, b: Candidate) {
    if a.AtKnown() != b.AtKnown() then a.AtKnown()
    else if a.AtKnown() && a.At() != b.At() then a.At() < b.At()
    else NameLess(a.Identity(), b.Identity())
  }

  predicate NotAfter(a: Candidate, b: Candidate) {
    !LessEvictable(b, a)
  }

  lemma EvictionOrderIsTotal(a: Candidate, b: Candidate)
    ensures NotAfter(a, b) || NotAfter(b, a)
    ensures NotAfter(a, b) && NotAfter(b, a) ==> a.Identity() == b.Identity()
  {
    NameOrderIsTotal(a.Identity(), b.Identity());
  }

  lemma EvictionOrderIsTransitive(a: Candidate, b: Candidate, c: Candidate)
    requires NotAfter(a, b) && NotAfter(b, c)
    ensures NotAfter(a, c)
  {
    var x, y, z := a.Identity(), b.Identity(), c.Identity();
    if NameAtMost(x, y) && NameAtMost(y, z) {
      NameOrderIsTransitive(x, y, z);
    }
  }

  ghost predicate InEvictionOrder(cs: seq<Candidate>) {
    forall i, j :: 0 <= i < j < |cs| ==> NotAfter(cs[i], cs[j])
  }

  function InsertCandidate(c: Candidate, cs: seq<Candidate>): seq<Candidate> {
    if cs == [] || LessEvictable(c, cs[0]) then [c] + cs
    else [cs[0]] + InsertCandidate(c, cs[1..])
  }

  /** A stable sort: each candidate goes after everything it does not precede. */
  function SortCandidates(cs: seq<Candidate>): seq<Candidate> {
    if cs == [] then [] else InsertCandidate(cs[|cs| - 1], SortCandidates(cs[..|cs| - 1]))
  }

  lemma {:induction false} InsertCandidateKeeps(c: Candidate, cs: seq<Candidate>)
    ensures multiset(InsertCandidate(c, cs)) == multiset(cs) + multiset{c}
    decreases |cs|
  {
    hide LessEvictable;
    if cs != [] {
      assert cs == [cs[0]] + cs[1..];
      InsertCandidateKeeps(c, cs[1..]);
    }
  }

  lemma HeadStaysFirst(c: Candidate, cs: seq<Candidate>)
    requires InEvictionOrder(cs) && cs != [] && NotAfter(cs[0], c)
    ensures forall x :: x in InsertCandidate(c, cs[1..]) ==> NotAfter(cs[0], x)
  {
    hide LessEvictable, InsertCandidate;
    var rest := InsertCandidate(c, cs[1..]);
    InsertCandidateKeeps(c, cs[1..]);
    forall x | x in rest ensures NotAfter(cs[0], x) {
      assert x in multiset(rest);
    }
  }

  lemma {:induction false} InsertCandidateSorts(c: Candidate, cs: seq<Candidate>)
    requires InEvictionOrder(cs)
    ensures InEvictionOrder(InsertCandidate(c, cs))
    decreases |cs|
  {
    hide LessEvictable;
    if cs != [] {
      EvictionOrderIsTotal(c, cs[0]);
      if LessEvictable(c, cs[0]) {
        forall j | 0 < j < |cs| ensures NotAfter(c, cs[j]) {
          EvictionOrderIsTransitive(c, cs[0], cs[j]);
        }
      } else {
        InsertCandidateSorts(c, cs[1..]);
        HeadStaysFirst(c, cs);
      }
    }
  }

  lemma {:induction false} SortCandidatesSorts(cs: seq<Candidate>)
    ensures multiset(SortCandidates(cs)) == multiset(cs)
    ensures InEvictionOrder(SortCandidates(cs))
    decreases |cs|
  {
    if cs != [] {
      var front := cs[..|cs| - 1];
      assert cs == front + [cs[|cs| - 1]];
      SortCandidatesSorts(front);
      InsertCandidateKeeps(cs[|cs| - 1], SortCandidates(front));
      InsertCandidateSorts(cs[|cs| - 1], SortCandidates(front));
    }
  }

  ghost predicate DistinctIdentities(cs: seq<Candidate>) {
    forall a, b :: a in cs && b in cs && a.Identity() == b.Identity() ==> a == b
  }

  lemma SameFirst(a: seq<Candidate>, b: seq<Candidate>)
    requires multiset(a) == multiset(b) && InEvictionOrder(a) && InEvictionOrder(b) && DistinctIdentities(a) && a != []
    requires b != []
    ensures a[0] == b[0]
  {
    hide LessEvictable;
    assert a[0] in multiset(b) && b[0] in multiset(a);
    EvictionOrderIsTotal(a[0], b[0]);
    EvictionOrderIsTotal(a[0], a[0]);
    EvictionOrderIsTotal(b[0], b[0]);
  }

  lemma {:induction false} SortedCandidatesAreUnique(a: seq<Candidate>, b: seq<Candidate>)
    requires multiset(a) == multiset(b) && InEvictionOrder(a) && InEvictionOrder(b) && DistinctIdentities(a)
    ensures a == b
    decreases |a|
  {
    hide NotAfter;
    SameCount(a, b);
    if a != [] {
      SameFirst(a, b);
      WithoutFirst(a);
      WithoutFirst(b);
      SortedCandidatesAreUnique(a[1..], b[1..]);
      assert a == [a[0]] + a[1..] && b == [b[0]] + b[1..];
    }
  }

  /** Whatever order records and volumes were listed in, the node gives up the same
      result next. */
  lemma EvictionOrderIgnoresListingOrder(a: seq<Candidate>, b: seq<Candidate>)
    requires multiset(a) == multiset(b) && DistinctIdentities(a)
    ensures SortCandidates(a) == SortCandidates(b)
  {
    hide LessEvictable, SortCandidates, InEvictionOrder;
    SortCandidatesSorts(a);
    SortCandidatesSorts(b);
    forall x | x in SortCandidates(a) ensures x in a {
      assert x in multiset(SortCandidates(a));
      assert x in multiset(a);
    }
    SortedCandidatesAreUnique(SortCandidates(a), SortCandidates(b));
  }

  /** One publication class, in the order the whole list was sorted in. */
  function InClass(cs: seq<Candidate>, published: bool): seq<Candidate> {
    if cs == [] then []
    else InClass(cs[..|cs| - 1], published) + (if cs[|cs| - 1].Published() == published then [cs[|cs| - 1]] else [])
  }

  lemma {:induction false} InClassKeeps(cs: seq<Candidate>, published: bool)
    requires InEvictionOrder(cs)
    ensures forall c :: c in InClass(cs, published) <==> c in cs && c.Published() == published
    ensures InEvictionOrder(InClass(cs, published))
    decreases |cs|
  {
    hide LessEvictable;
    if cs != [] {
      var n := |cs| - 1;
      InClassKeeps(cs[..n], published);
      assert cs == cs[..n] + [cs[n]];
      forall c | c in InClass(cs[..n], published) ensures NotAfter(c, cs[n]) {
        var i :| 0 <= i < n && cs[i] == c;
      }
    }
  }

  // ----- Choosing a class -----

  predicate KnowsBothRoots(s: Status, hasHelper: bool) {
    && s.process.truncated == 0 && s.process.replaced == 0
    && (hasHelper ==> s.oci.Inventory? && s.oci.complete && s.oci.truncated == 0)
  }

  function Class(s: Status, records: seq<RetentionRecord>, published: bool): seq<Candidate> {
    InClass(SortCandidates(Candidates(s, records)), published)
  }

  /** The class to give up from, or why nothing is. */
  datatype Choice = Give(results: seq<Candidate>) | NothingToGive | Withheld

  function NextEvictionClass(s: Status, records: seq<RetentionRecord>, hasHelper: bool): Choice {
    if Class(s, records, true) != [] then Give(Class(s, records, true))
    else if Class(s, records, false) == [] then NothingToGive
    else if !KnowsBothRoots(s, hasHelper) then Withheld
    else Give(Class(s, records, false))
  }

  lemma {:induction false} RunCandidatesCover(process: ProcessRoot, records: seq<RetentionRecord>, c: Candidate)
    ensures c in RunCandidates(process, records) <==>
              c.ProcessRun? && c.record in records && MayGiveUpRun(process, c.record)
                  && c.charged == ChargedTo(process.perRun, c.record.run)
    decreases |records|
  {
    if records != [] {
      var n := |records| - 1;
      RunCandidatesCover(process, records[..n], c);
      assert records == records[..n] + [records[n]];
    }
  }

  lemma {:induction false} VolumeCandidatesCover(rows: seq<VolumeRow>, c: Candidate)
    ensures c in VolumeCandidates(rows) <==> c.HandoffVolume? && c.row in rows && MayGiveUpVolume(c.row)
    decreases |rows|
  {
    if rows != [] {
      var n := |rows| - 1;
      VolumeCandidatesCover(rows[..n], c);
      assert rows == rows[..n] + [rows[n]];
    }
  }

  /** A class is exactly the results of that publication the node may give up,
      oldest first and undatable last. */
  lemma ClassIsComplete(s: Status, records: seq<RetentionRecord>, published: bool)
    ensures InEvictionOrder(Class(s, records, published))
    ensures forall c :: c in Class(s, records, published) <==>
              && c.Published() == published
              && (c.ProcessRun? ==>
                  && c.record in records && MayGiveUpRun(s.process, c.record)
                  && c.charged == ChargedTo(s.process.perRun, c.record.run))
              && (c.HandoffVolume? ==> c.row in Volumes(s) && MayGiveUpVolume(c.row))
  {
    hide InEvictionOrder, RunCandidates, VolumeCandidates, SortCandidates, InClass, MayGiveUpRun, MayGiveUpVolume;
    var all := Candidates(s, records);
    SortCandidatesSorts(all);
    InClassKeeps(SortCandidates(all), published);
    forall c
      ensures c in Class(s, records, published) <==>
                && c.Published() == published
                && (c.ProcessRun? ==>
                    && c.record in records && MayGiveUpRun(s.process, c.record)
                    && c.charged == ChargedTo(s.process.perRun, c.record.run))
                && (c.HandoffVolume? ==> c.row in Volumes(s) && MayGiveUpVolume(c.row))
    {
      RunCandidatesCover(s.process, records, c);
      VolumeCandidatesCover(Volumes(s), c);
      assert c in SortCandidates(all) <==> c in multiset(SortCandidates(all));
      assert c in all <==> c in multiset(all);
    }
  }

  // ----- What a choice says about the node -----

  /** A run has a charge exactly when Lstat found something at its name. */
  ghost predicate ProperlyMeasured(p: ProcessRoot) {
    forall id :: (id in p.looks && p.looks[id].There?) <==> ChargedTo(p.perRun, id) > 0
  }

  predicate PublishedAndRetained(r: RetentionRecord) {
    r.finished && !r.quarantined && r.evidence
  }

  /** An unpublished result is chosen exactly when there is one, both roots were
      read whole, and nothing published was found on either. */
  lemma UnpublishedIsChosenExactlyWhen(s: Status, records: seq<RetentionRecord>, hasHelper: bool)
    requires ProperlyMeasured(s.process)
    ensures (NextEvictionClass(s, records, hasHelper) == Give(Class(s, records, false))) <==>
              && Class(s, records, false) != []
              && KnowsBothRoots(s, hasHelper)
              && (forall r :: r in records && PublishedAndRetained(r) ==>
                  !(r.run in s.process.looks && s.process.looks[r.run].There?))
              && (forall v :: v in Volumes(s) && v.published ==> !MayGiveUpVolume(v))
  {
    hide Class, KnowsBothRoots;
    var published := Class(s, records, true);
    ClassIsComplete(s, records, true);
    ClassIsComplete(s, records, false);
    if published == [] {
      forall r | r in records && PublishedAndRetained(r)
        ensures !(r.run in s.process.looks && s.process.looks[r.run].There?)
      {
        assert ProcessRun(r, ChargedTo(s.process.perRun, r.run)) !in published;
      }
      forall v | v in Volumes(s) && v.published ensures !MayGiveUpVolume(v) {
        assert HandoffVolume(v) !in published;
      }
    } else {
      assert published[0] in published && published[0] !in Class(s, records, false);
    }
  }

  /** The directories that were there, as far as the looks could tell. */
  ghost predicate Agrees(looks: map<Name, Look>, there: set<Name>) {
    forall id :: id in looks ==> (looks[id].There? ==> id in there) && (looks[id].Absent? ==> id !in there)
  }

  /** Having chosen to give up an only copy, the node holds no published result it
      should have given up first, whatever its directories held, if and only if
      every published run's look came back with "not there". A look that failed
      any other way drops the run from the figures without marking them
      incomplete. */
  lemma OnlyCopyIsSafeExactlyWhenEveryLookAnswered(s: Status, records: seq<RetentionRecord>, hasHelper: bool)
    requires ProperlyMeasured(s.process)
    requires NextEvictionClass(s, records, hasHelper) == Give(Class(s, records, false))
    ensures (forall there :: Agrees(s.process.looks, there) ==>
               forall r :: r in records && PublishedAndRetained(r) ==> r.run !in there)
            <==>
            forall r :: r in records && PublishedAndRetained(r) ==>
              r.run in s.process.looks && s.process.looks[r.run].Absent?
  {
    hide NextEvictionClass, Class, KnowsBothRoots;
    UnpublishedIsChosenExactlyWhen(s, records, hasHelper);
    var looks := s.process.looks;
    forall r | r in records && PublishedAndRetained(r) && !(r.run in looks && looks[r.run].Absent?)
      ensures exists there :: Agrees(looks, there) && r.run in there
    {
      var there := (set id | id in looks && looks[id].There?) + {r.run};
      assert Agrees(looks, there) && r.run in there;
    }
  }

  // ----- The accounting pass measures properly -----

  function Rows(figures: seq<RunFigures>): seq<RunRow> {
    seq(|figures|, i requires 0 <= i < |figures| => RunRow(figures[i].id, figures[i].charged))
  }

  function LookOf(world: World, root: DirId, t: nat, id: Name): Look {
    match world.lstat(t, root, id)
    case Ok(_) => There
    case Err(e) => if e == NotExist then Absent else LookFailed
  }

  function MeasuredRoot(world: World, root: DirId, ids: seq<Name>, s: NodeStatus, looks: map<Name, nat>): ProcessRoot
    requires forall id :: id in ids ==> id in looks
  {
    ProcessRoot(s.charged, s.truncated, s.replaced, Rows(s.perRun),
                map id | id in ids :: LookOf(world, root, looks[id], id))
  }

  lemma {:induction false} ChargedRowsAreFound(figures: seq<RunFigures>, id: Name)
    requires forall k :: 0 <= k < |figures| ==> figures[k].charged > 0
    ensures ChargedTo(Rows(figures), id) > 0 <==> exists k :: 0 <= k < |figures| && figures[k].id == id
    decreases |figures|
  {
    if figures != [] {
      var n := |figures| - 1;
      assert Rows(figures)[..n] == Rows(figures[..n]);
      ChargedRowsAreFound(figures[..n], id);
      if figures[n].id != id && exists k :: 0 <= k < |figures| && figures[k].id == id {
        var k :| 0 <= k < |figures| && figures[k].id == id;
        assert figures[..n][k].id == id;
      }
    }
  }

  /** Every uncancelled accounting pass hands the budget proper measurements. */
  lemma AccountingMeasuresProperly(world: World, root: DirId, ids: seq<Name>, s: NodeStatus, looks: map<Name, nat>)
    requires Measuring(world, root, ids, s, looks)
    ensures ProperlyMeasured(MeasuredRoot(world, root, ids, s, looks))
  {
    var p := MeasuredRoot(world, root, ids, s, looks);
    forall id ensures (id in p.looks && p.looks[id].There?) <==> ChargedTo(p.perRun, id) > 0 {
      ChargedRowsAreFound(s.perRun, id);
      if id in ids {
        assert HasRow(s, id) <==> world.lstat(looks[id], root, id).Ok?;
      }
    }
  }

  /** Everything fails but the look at one name, which finds a file. */
  function OneFile(name: Name, info: Info): World {
    World((t, d, n) => Err(OtherFailure), (t, d) => Err(OtherFailure), (t, d) => Err(OtherFailure),
          (t, d, n) => if n == name then Ok(info) else Err(OtherFailure), t => false, (t, d) => false)
  }

  lemma TwoRuns(a: Run, b: Run)
    requires a.id != b.id
    ensures DistinctIds([a, b]) == [a.id, b.id]
  {
    assert [a, b][..1] == [a] && [a][..0] == [] && DistinctIds([]) == [];
    assert DistinctIds([a]) == [a.id];
  }

  /** A pass measures two runs. The look at the published one fails, so it has no row and
      nothing says the figures are incomplete; the unpublished one is chosen. */
  method AFailedLookHidesAPublishedRun()
    returns (pass: Pass, ghost s: Status, records: seq<RetentionRecord>, hidden: RetentionRecord)
    ensures s.process.charged == pass.status.charged && s.process.truncated == pass.status.truncated == 0
    ensures s.process.perRun == Rows(pass.status.perRun) && !pass.cancelled
    ensures ProperlyMeasured(s.process) && KnowsBothRoots(s, false)
    ensures hidden in records && PublishedAndRetained(hidden)
    ensures hidden.run in s.process.looks && s.process.looks[hidden.run].LookFailed?
    ensures NextEvictionClass(s, records, false) == Give(Class(s, records, false)) && Class(s, records, false) != []
  {
    hide Class, NextEvictionClass, LessEvictable, Measuring, RowsAddUp, DistinctIds, ChargedTo;
    hidden := RetentionRecord("a", 0, 1, true, false, true);
    var only := RetentionRecord("b", 2, 3, true, false, false);
    records := [hidden, only];
    assert "a"[0] != "b"[0];
    var world := OneFile("b", Info(Regular, 1, 7, 1));
    var runs := [Run("a", false, false, true), Run("b", false, false, false)];
    TwoRuns(runs[0], runs[1]);
    ghost var looks;
    pass, looks := MeasureNode(world, 0, 0, runs, map[], d => 0);
    assert Measuring(world, 0, ["a", "b"], pass.status, looks);
    LooksAreKept(world, 0, ["a", "b"], pass.status, looks);
    AccountingMeasuresProperly(world, 0, ["a", "b"], pass.status, looks);
    s := Status(MeasuredRoot(world, 0, ["a", "b"], pass.status, looks), Unread);
    assert ChargedTo(s.process.perRun, "b") > 0;
    ClassIsComplete(s, records, false);
    assert ProcessRun(only, ChargedTo(s.process.perRun, "b")) in Class(s, records, false);
    UnpublishedIsChosenExactlyWhen(s, records, false);
  }

  lemma LooksAreKept(world: World, root: DirId, ids: seq<Name>, s: NodeStatus, looks: map<Name, nat>)
    requires Measuring(world, root, ids, s, looks)
    ensures forall id :: id in ids ==> id in looks
  {
  }
}
