/** One budget pass: walks over a publication class, and everything a removal deletes
    on the way, counted or not. Source: agent/handoff_budget.go. */
module NodeEviction {
  import opened Common
  import opened HandoffTally
  import opened HandoffWorld
  import opened NodeBudget

  // ----- Giving one candidate up -----

  datatype Outcome = Done | Reselect | Unavailable

  predicate RunMoved(node: Node, t: nat, r: RetentionRecord) {
    match node.current(t, r.run)
    case None => true
    case Some(c) => c.evidence != r.evidence || c.admittedAt != r.admittedAt || c.retainedAt != r.retainedAt
  }

  function EvictRetainedRun(node: Node, t: nat, r: RetentionRecord): Outcome {
    if node.runHeld(t, r.run) then
      if RunMoved(node, t + 1, r) then Reselect else Unavailable
    else
      match node.current(t + 1, r.run)
      case None => Reselect
      case Some(c) =>
        if !c.finished || c.quarantined then Unavailable
        else if RunMoved(node, t + 2, r) then Reselect
        else if node.remove(t + 3, r.run) == Removed(true) then Done
        else Unavailable
  }

  predicate VolumeMoved(node: Node, t: nat, row: VolumeRow) {
    match node.ociRecord(t, row.ownerKey)
    case ReadFailed => true
    case NotFound => row.record.Some?
    case Found(c) =>
      && !c.live
      && (c.evidence != row.published || row.record.None? || !SameGeneration(c, row.record.value))
  }

  predicate SameGeneration(a: OciRecord, b: OciRecord) {
    a.attempt == b.attempt && a.admittedAt == b.admittedAt && a.retainedAt == b.retainedAt
  }

  function EvictHandoffVolume(node: Node, t: nat, row: VolumeRow): Outcome {
    if !node.hasEvictor then Unavailable
    else if node.volumeHeld(t, row.ownerKey) then
      if VolumeMoved(node, t + 1, row) then Reselect else Unavailable
    else
      var read := node.ociRecord(t + 1, row.ownerKey);
      if read.ReadFailed? then Reselect
      else if read.Found? && read.record.live then Unavailable
      else if read.Found? && read.record.evidence != row.published then Reselect
      else if VolumeMoved(node, t + 2, row) then Reselect
      else if node.helper(t + 3, row.ownerKey).Freed? then Done
      else Unavailable
  }

  function EvictCandidate(node: Node, t: nat, c: Candidate): Outcome {
    match c
    case ProcessRun(r, _) => EvictRetainedRun(node, t, r)
    case HandoffVolume(row) => EvictHandoffVolume(node, t, row)
  }

  /** The guards before the removal let it be tried. */
  predicate RemovalTried(node: Node, t: nat, c: Candidate) {
    match c
    case ProcessRun(r, _) =>
      var now := node.current(t + 1, r.run);
      && !node.runHeld(t, r.run) && now.Some? && now.value.finished && !now.value.quarantined
      && !RunMoved(node, t + 2, r)
    case HandoffVolume(row) =>
      var now := node.ociRecord(t + 1, row.ownerKey);
      && node.hasEvictor && !node.volumeHeld(t, row.ownerKey) && !now.ReadFailed?
      && (now.Found? ==> !now.record.live && now.record.evidence == row.published)
      && !VolumeMoved(node, t + 2, row)
  }

  /** Trying this candidate destroyed something, whatever was answered. */
  predicate Deletes(node: Node, t: nat, c: Candidate) {
    && RemovalTried(node, t, c)
    && match c
       case ProcessRun(r, _) =>
         var removal := node.remove(t + 3, r.run);
         removal.Removed? || (removal.RemovalFailed? && removal.someDeleted)
       case HandoffVolume(row) =>
         var freeing := node.helper(t + 3, row.ownerKey);
         freeing.Freed? || freeing.freed
  }

  lemma DoneDeletes(node: Node, t: nat, c: Candidate)
    ensures EvictCandidate(node, t, c).Done? ==> Deletes(node, t, c)
    ensures EvictCandidate(node, t, c).Reselect? ==> !Deletes(node, t, c)
  {
  }

  predicate AttemptHolds(node: Node, t: nat, c: Candidate) {
    match c
    case ProcessRun(r, _) => node.runHeld(t, r.run)
    case HandoffVolume(row) => node.volumeHeld(t, row.ownerKey)
  }

  /** Every writer of a record holds its lease, so while this pass holds it the record
      does not change. `Sweep` proves this of the leases on a run's record. */
  ghost predicate LeaseFreezesRecord(node: Node, t: nat, c: Candidate) {
    !AttemptHolds(node, t, c) ==>
      match c
      case ProcessRun(r, _) => node.current(t + 1, r.run) == node.current(t + 2, r.run) == node.current(t + 3, r.run)
      case HandoffVolume(row) =>
        node.ociRecord(t + 1, row.ownerKey) == node.ociRecord(t + 2, row.ownerKey) ==
            node.ociRecord(t + 3, row.ownerKey)
  }

  /** What stands at this instant is the finished result the order chose: its class
      and its generation, or a volume that never had a record and has none. */
  predicate ChosenResultStands(node: Node, t: nat, c: Candidate) {
    match c
    case ProcessRun(r, _) =>
      var now := node.current(t, r.run);
      && now.Some? && now.value.finished && !now.value.quarantined && now.value.evidence == c.Published()
      && now.value.admittedAt == r.admittedAt && now.value.retainedAt == r.retainedAt
    case HandoffVolume(row) =>
      match node.ociRecord(t, row.ownerKey)
      case ReadFailed => false
      case NotFound => row.record.None?
      case Found(now) =>
        !now.live && row.record.Some? && now.evidence == c.Published() && SameGeneration(now, row.record.value)
  }

  /** Whatever is destroyed, reported or not, is held by no attempt and is, at that
      instant, the finished result the order chose. */
  lemma OnlyTheChosenResultIsDestroyed(node: Node, t: nat, c: Candidate)
    requires LeaseFreezesRecord(node, t, c)
    ensures Deletes(node, t, c) ==> !AttemptHolds(node, t, c) && ChosenResultStands(node, t + 3, c)
  {
  }

  /** A candidate an attempt holds makes the node choose again exactly when its record
      names another finished result, or none that can be read. */
  lemma HeldCandidateIsChosenAgainExactlyWhenItMoved(node: Node, t: nat, c: Candidate)
    requires AttemptHolds(node, t, c) && (c.HandoffVolume? ==> node.hasEvictor)
    ensures EvictCandidate(node, t, c).Reselect? <==>
              match c
              case ProcessRun(r, _) =>
                var now := node.current(t + 1, r.run);
                now.None? || now.value.evidence != c.Published() || now.value.admittedAt != r.admittedAt
                || now.value.retainedAt != r.retainedAt
              case HandoffVolume(row) =>
                var now := node.ociRecord(t + 1, row.ownerKey);
                !(now.Found? && now.record.live) && !ChosenResultStands(node, t + 1, c)
  {
  }

  // ----- One class, in order -----

  /** Instants one candidate takes: four questions, then whether to go on. */
  const TICKS: nat := 5

  /** How a walk of a class ended. */
  datatype WalkEnd = GaveUp | Moved | Exhausted | Stopped

  /** Everything before position `k` was tried and reported as not available. */
  ghost predicate TriedBefore(node: Node, start: nat, results: seq<Candidate>, k: nat) {
    k <= |results| && forall j :: 0 <= j < k ==> EvictCandidate(node, start + TICKS * j, results[j]).Unavailable?
  }

  ghost predicate EndedSo(node: Node, start: nat, results: seq<Candidate>, tried: nat, end: WalkEnd) {
    match end
    case GaveUp => tried < |results| && EvictCandidate(node, start + TICKS * tried, results[tried]).Done?
    case Moved => tried < |results| && EvictCandidate(node, start + TICKS * tried, results[tried]).Reselect?
    case Exhausted => tried == |results|
    case Stopped => 0 < tried && node.cancelled(start + TICKS * tried - 1)
  }

  /** Candidates a walk looked at. */
  function Looked(tried: nat, end: WalkEnd): nat {
    if end.GaveUp? || end.Moved? then tried + 1 else tried
  }

  /** Walks one class until something is given up, or until a candidate shows that
      the order being walked is stale: nothing after that candidate is touched. */
  method EvictFromClass(node: Node, start: nat, results: seq<Candidate>)
    returns (tried: nat, end: WalkEnd, next: nat)
    ensures TriedBefore(node, start, results, tried) && EndedSo(node, start, results, tried, end)
    ensures next == start + TICKS * Looked(tried, end)
  {
    next := start;
    for i := 0 to |results|
      invariant next == start + TICKS * i
      invariant TriedBefore(node, start, results, i)
    {
      var outcome := EvictCandidate(node, next, results[i]);
      next := next + TICKS;
      if outcome.Done? {
        return i, GaveUp, next;
      }
      if outcome.Reselect? {
        return i, Moved, next;
      }
      if node.cancelled(next - 1) {
        return i + 1, Stopped, next;
      }
    }
    return |results|, Exhausted, next;
  }

  // ----- The whole pass -----

  /** One walk with everything its choice rested on: the measurement and when each
      root's half of it was taken, the records, and the class. */
  datatype Walk = Walk(status: Status, processAt: nat, ociAt: nat, records: seq<RetentionRecord>,
                       start: nat, results: seq<Candidate>, tried: nat, end: WalkEnd)
  {
    function Over(): nat {
      start + TICKS * Looked(tried, end)
    }

    /** When the figures of one root were taken. */
    function MeasuredAt(oci: bool): nat {
      if oci then ociAt else processAt
    }

    predicate FromVolume(p: nat) {
      p < |results| && results[p].HandoffVolume?
    }

    /** The instant a candidate's removal was answered. */
    function GoneAt(p: nat): nat {
      start + TICKS * p + 3
    }
  }

  ghost predicate Justified(node: Node, budget: int, w: Walk) {
    && NodeCharged(w.status) > budget
    && NextEvictionClass(w.status, w.records, node.hasHelper) == Give(w.results)
    && TriedBefore(node, w.start, w.results, w.tried)
    && EndedSo(node, w.start, w.results, w.tried, w.end)
  }

  /** The removal of the candidate at `p` of this walk destroyed something. */
  ghost predicate Deleted(node: Node, w: Walk, p: nat) {
    p < Looked(w.tried, w.end) && p < |w.results| && Deletes(node, w.start + TICKS * p, w.results[p])
  }

  ghost predicate Figures(node: Node, first: Status, s: Status, processAt: nat, ociAt: nat) {
    && s.process == (if processAt == 0 then first.process else node.measure(processAt))
    && s.oci == (if ociAt == 0 then first.oci else node.inventory(ociAt))
  }

  /** A walk after `u` rests on figures measured again: of both roots when a candidate
      moved, of the root the eviction came from when one was given up. */
  ghost predicate Follows(u: Walk, start: nat, processAt: nat, ociAt: nat) {
    && u.Over() <= start && u.processAt <= processAt && u.ociAt <= ociAt
    && match u.end
       case Moved => u.Over() <= processAt && u.Over() <= ociAt
       case GaveUp =>
         u.tried < |u.results| && if u.results[u.tried].HandoffVolume? then u.Over() <= ociAt else u.Over() <= processAt
       case _ => false
  }

  /** The walks of one pass, in order. */
  ghost predicate Chained(node: Node, budget: int, first: Status, walks: seq<Walk>) {
    && (forall w :: w in walks ==>
          Justified(node, budget, w) && Figures(node, first, w.status, w.processAt, w.ociAt)
          && w.processAt < w.start && w.ociAt < w.start)
    && forall i :: 0 <= i < |walks| - 1 ==> Follows(walks[i], walks[i + 1].start, walks[i + 1].processAt,
                                                    walks[i + 1].ociAt)
  }

  function Count(walks: seq<Walk>, end: WalkEnd): nat {
    if walks == [] then 0 else Count(walks[..|walks| - 1], end) + (if walks[|walks| - 1].end == end then 1 else 0)
  }

  lemma CountSnoc(walks: seq<Walk>, w: Walk, end: WalkEnd)
    ensures Count(walks + [w], end) == Count(walks, end) + (if w.end == end then 1 else 0)
  {
    assert (walks + [w])[..|walks|] == walks;
  }

  datatype Ending =
    | Fits | Disabled | Cancelled | GaveUpEnough | HasNothingToGive | WithheldOnlyCopies | Refused | KeptMoving

  /** Where a pass stands between two walks. */
  ghost predicate PassSoFar(node: Node, budget: int, first: Status, walks: seq<Walk>,
                            s: Status, processAt: nat, ociAt: nat, now: nat) {
    && Chained(node, budget, first, walks)
    && Figures(node, first, s, processAt, ociAt) && processAt < now && ociAt < now
    && (walks != [] ==> Follows(walks[|walks| - 1], now, processAt, ociAt))
  }

  lemma PassBegins(node: Node, budget: int, first: Status)
    ensures PassSoFar(node, budget, first, [], first, 0, 0, 1)
  {
  }

  lemma OneMoreWalk(node: Node, budget: int, first: Status, walks: seq<Walk>,
                    s: Status, processAt: nat, ociAt: nat, now: nat, w: Walk)
    requires PassSoFar(node, budget, first, walks, s, processAt, ociAt, now)
    requires Justified(node, budget, w) && w.status == s && w.processAt == processAt && w.ociAt == ociAt
    requires now <= w.start
    ensures Chained(node, budget, first, walks + [w])
  {
    hide Justified, Figures;
    var all := walks + [w];
    forall i | 0 <= i < |all| - 1 ensures Follows(all[i], all[i + 1].start, all[i + 1].processAt, all[i + 1].ociAt) {
      if i + 1 < |walks| {
        assert all[i] == walks[i] && all[i + 1] == walks[i + 1];
      }
    }
  }

  lemma IsJustified(node: Node, budget: int, w: Walk)
    requires NodeCharged(w.status) > budget
    requires NextEvictionClass(w.status, w.records, node.hasHelper) == Give(w.results)
    requires TriedBefore(node, w.start, w.results, w.tried) && EndedSo(node, w.start, w.results, w.tried, w.end)
    ensures Justified(node, budget, w)
  {
  }

  /** The figures the next walk rests on. */
  function Remeasure(node: Node, w: Walk): (Status, nat, nat) {
    if w.end.Moved? then (Status(node.measure(w.Over()), node.inventory(w.Over() + 1)), w.Over(), w.Over() + 1)
    else if w.tried < |w.results| && w.results[w.tried].HandoffVolume? then
      (w.status.(oci := node.inventory(w.Over())), w.processAt, w.Over())
    else (w.status.(process := node.measure(w.Over())), w.Over(), w.ociAt)
  }

  lemma RemeasuredAfter(node: Node, budget: int, first: Status, walks: seq<Walk>, w: Walk)
    requires Chained(node, budget, first, walks + [w]) && (w.end.Moved? || w.end.GaveUp?)
    ensures var (s, processAt, ociAt) := Remeasure(node, w);
      PassSoFar(node, budget, first, walks + [w], s, processAt, ociAt, w.Over() + 2)
  {
    hide NextEvictionClass, NodeCharged, TriedBefore, EvictCandidate;
    var all := walks + [w];
    assert all[|walks|] == w && w in all;
  }

  /** One walk over the class chosen, and the figures the next one would rest on. */
  method WalkClass(node: Node, budget: int, ghost first: Status, ghost walks: seq<Walk>, last: Status,
                   processAt: nat, ociAt: nat, now: nat, records: seq<RetentionRecord>, results: seq<Candidate>)
    returns (w: Walk, next: nat)
    requires PassSoFar(node, budget, first, walks, last, processAt, ociAt, now) && NodeCharged(last) > budget
    requires NextEvictionClass(last, records, node.hasHelper) == Give(results)
    ensures Chained(node, budget, first, walks + [w]) && w.status == last && now < w.Over() == next
    ensures w.end.Moved? || w.end.GaveUp? ==>
              var (s, processAt', ociAt') := Remeasure(node, w);
              PassSoFar(node, budget, first, walks + [w], s, processAt', ociAt', next + 2)
  {
    hide Justified, Figures, NextEvictionClass, TriedBefore, EndedSo, EvictCandidate, NodeCharged, Chained, Follows;
    hide Remeasure, PassSoFar;
    var tried, end;
    tried, end, next := EvictFromClass(node, now + 2, results);
    w := Walk(last, processAt, ociAt, records, now + 2, results, tried, end);
    IsJustified(node, budget, w);
    OneMoreWalk(node, budget, first, walks, last, processAt, ociAt, now, w);
    if end.Moved? || end.GaveUp? {
      RemeasuredAfter(node, budget, first, walks, w);
    }
  }

  /** Gives results up until the node fits. */
  method EnforceNodeBudget(node: Node, budget: int, first: Status)
    returns (walks: seq<Walk>, ending: Ending, last: Status, report: Option<Status>)
    ensures Chained(node, budget, first, walks)
    ensures Count(walks, GaveUp) <= MAX_NODE_BUDGET_EVICTIONS
    ensures Count(walks, Moved) - (if ending.KeptMoving? then 1 else 0) < MAX_NODE_BUDGET_EVICTIONS
    ensures ending.Disabled? <==> budget <= 0
    ensures budget > 0 ==> (ending.Fits? <==> NodeCharged(last) <= budget)
    ensures ending.Disabled? || NodeCharged(first) <= budget ==> walks == [] && last == first
    ensures ending.GaveUpEnough? ==> Count(walks, GaveUp) == MAX_NODE_BUDGET_EVICTIONS
    ensures ending.Cancelled? ==> exists t: nat :: node.cancelled(t)
    ensures ending.KeptMoving? ==> Count(walks, Moved) == MAX_NODE_BUDGET_EVICTIONS
    ensures ending.Refused? <==> walks != [] && (walks[|walks| - 1].end.Exhausted? || walks[|walks| - 1].end.Stopped?)
    ensures ending.WithheldOnlyCopies? ==>
              exists t: nat :: NextEvictionClass(last, node.records(t), node.hasHelper).Withheld?
    ensures ending.HasNothingToGive? ==>
              exists t: nat :: NextEvictionClass(last, node.records(t), node.hasHelper).NothingToGive?
    ensures report.Some? <==> Count(walks, GaveUp) > 0
    ensures report.Some? ==> exists t: nat :: report.value == Status(node.measure(t), node.inventory(t + 1))
                                              && forall w :: w in walks ==> w.Over() <= t
  {
    hide Justified, Figures, NextEvictionClass, TriedBefore, EndedSo, EvictCandidate, NodeCharged, Chained, Follows;
    hide Count, Remeasure, PassSoFar;
    walks, last, report := [], first, None;
    PassBegins(node, budget, first);
    NoWalks(node, budget, first);
    if budget <= 0 {
      return walks, Disabled, last, report;
    }
    var now, processAt, ociAt, evicted, reselects := 1, 0, 0, 0, 0;
    while true
      invariant PassSoFar(node, budget, first, walks, last, processAt, ociAt, now)
      invariant Chained(node, budget, first, walks)
      invariant evicted == Count(walks, GaveUp) <= MAX_NODE_BUDGET_EVICTIONS
      invariant reselects == Count(walks, Moved) < MAX_NODE_BUDGET_EVICTIONS
      invariant forall w :: w in walks ==> w.Over() <= now && !w.end.Exhausted? && !w.end.Stopped?
      invariant report.None? && (walks == [] ==> last == first) && (walks != [] ==> NodeCharged(first) > budget)
      decreases 2 * MAX_NODE_BUDGET_EVICTIONS - evicted - reselects
    {
      if NodeCharged(last) <= budget {
        ending := Fits;
        break;
      }
      if node.cancelled(now) {
        ending := Cancelled;
        break;
      }
      if evicted >= MAX_NODE_BUDGET_EVICTIONS {
        ending := GaveUpEnough;
        break;
      }
      var records := node.records(now + 1);
      var choice := NextEvictionClass(last, records, node.hasHelper);
      if !choice.Give? {
        ending := if choice.Withheld? then WithheldOnlyCopies else HasNothingToGive;
        break;
      }
      var w, next := WalkClass(node, budget, first, walks, last, processAt, ociAt, now, records, choice.results);
      CountSnoc(walks, w, GaveUp);
      CountSnoc(walks, w, Moved);
      walks := walks + [w];
      if w.end.Exhausted? || w.end.Stopped? {
        now, ending := next, Refused;
        break;
      }
      if w.end.Moved? {
        reselects := reselects + 1;
        if reselects >= MAX_NODE_BUDGET_EVICTIONS {
          now, ending := next, KeptMoving;
          break;
        }
      } else {
        evicted := evicted + 1;
      }
      var again := Remeasure(node, w);
      last, processAt, ociAt, now := again.0, again.1, again.2, next + 2;
    }
    if evicted != 0 {
      report := Some(Status(node.measure(now), node.inventory(now + 1)));
    }
  }

  lemma NoWalks(node: Node, budget: int, first: Status)
    ensures Chained(node, budget, first, []) && Count([], GaveUp) == 0 && Count([], Moved) == 0
  {
  }

  // ----- What every deletion rests on -----

  /** The deletion at `p` of one walk comes before the one at `q` of another. */
  predicate Earlier(i: nat, p: nat, j: nat, q: nat) {
    i < j || (i == j && p < q)
  }

  /** No deletion, counted or not, was decided on figures of a root that are older
      than a deletion from that root. */
  ghost predicate EveryDeletionIsFresh(node: Node, walks: seq<Walk>) {
    forall i, p, j, q {:trigger Deleted(node, walks[i], p), Deleted(node, walks[j], q)} ::
      0 <= i < |walks| && 0 <= j < |walks| && 0 <= p && 0 <= q && Earlier(i, p, j, q)
      && Deleted(node, walks[i], p) && Deleted(node, walks[j], q) ==>
        walks[j].MeasuredAt(walks[i].FromVolume(p)) > walks[i].GoneAt(p)
  }

  /** No candidate's removal deleted anything after an earlier one's in the same walk
      already had. */
  ghost predicate NoWalkDeletedTwice(node: Node, walks: seq<Walk>) {
    forall i, p: nat, q: nat {:trigger Deleted(node, walks[i], p), Deleted(node, walks[i], q)} ::
      0 <= i < |walks| && Deleted(node, walks[i], p) && Deleted(node, walks[i], q) ==> p == q
  }

  lemma {:induction false} FiguresOnlyGetNewer(node: Node, budget: int, first: Status, walks: seq<Walk>, i: nat,
                                               j: nat, oci: bool)
    requires Chained(node, budget, first, walks) && i <= j < |walks|
    ensures walks[i].MeasuredAt(oci) <= walks[j].MeasuredAt(oci)
    decreases j
  {
    hide Justified, Figures;
    if i < j {
      FiguresOnlyGetNewer(node, budget, first, walks, i, j - 1, oci);
      assert Follows(walks[j - 1], walks[j - 1 + 1].start, walks[j - 1 + 1].processAt, walks[j - 1 + 1].ociAt);
    }
  }

  /** The one deletion of a walk is measured before the next walk. */
  lemma NextWalkIsFresh(node: Node, budget: int, first: Status, walks: seq<Walk>, i: nat, p: nat)
    requires Chained(node, budget, first, walks) && i + 1 < |walks| && NoWalkDeletedTwice(node, walks)
    requires Deleted(node, walks[i], p)
    ensures walks[i + 1].MeasuredAt(walks[i].FromVolume(p)) > walks[i].GoneAt(p)
  {
    hide Figures, NextEvictionClass, EvictCandidate, Deletes, NodeCharged;
    var w := walks[i];
    assert w in walks && Justified(node, budget, w);
    assert Follows(w, walks[i + 1].start, walks[i + 1].processAt, walks[i + 1].ociAt);
    assert p < Looked(w.tried, w.end);
    if w.end.GaveUp? {
      DoneDeletes(node, w.start + TICKS * w.tried, w.results[w.tried]);
      assert Deleted(node, w, w.tried);
      assert p == w.tried;
    }
  }

  /** Every deletion of a pass rests on fresh figures if and only if no removal tried
      earlier in the same walk had deleted anything. */
  lemma DeletionsAreFreshExactlyWhenNoWalkDeletedTwice(node: Node, budget: int, first: Status, walks: seq<Walk>)
    requires Chained(node, budget, first, walks)
    ensures EveryDeletionIsFresh(node, walks) <==> NoWalkDeletedTwice(node, walks)
  {
    hide Deleted, Figures, Justified;
    if NoWalkDeletedTwice(node, walks) {
      forall i, p, j, q | 0 <= i < |walks| && 0 <= j < |walks| && 0 <= p && 0 <= q && Earlier(i, p, j, q)
                          && Deleted(node, walks[i], p) && Deleted(node, walks[j], q)
        ensures walks[j].MeasuredAt(walks[i].FromVolume(p)) > walks[i].GoneAt(p)
      {
        if i < j {
          NextWalkIsFresh(node, budget, first, walks, i, p);
          FiguresOnlyGetNewer(node, budget, first, walks, i + 1, j, walks[i].FromVolume(p));
        }
      }
    }
    if EveryDeletionIsFresh(node, walks) {
      forall i, p: nat, q: nat | 0 <= i < |walks| && Deleted(node, walks[i], p) && Deleted(node, walks[i], q)
        ensures p == q
      {
        assert walks[i] in walks;
        SameWalkIsStale(node, walks, i, p, q);
        SameWalkIsStale(node, walks, i, q, p);
      }
    }
  }

  lemma SameWalkIsStale(node: Node, walks: seq<Walk>, i: nat, p: nat, q: nat)
    requires EveryDeletionIsFresh(node, walks) && i < |walks| && Deleted(node, walks[i], p)
    requires Deleted(node, walks[i], q)
    requires walks[i].processAt < walks[i].start && walks[i].ociAt < walks[i].start
    ensures !(p < q)
  {
    hide Deletes;
  }

  /** No removal ever deletes and reports a failure. */
  ghost predicate RemovalsSayWhatTheyDid(node: Node) {
    && (forall t, run {:trigger node.remove(t, run)} ::
          node.remove(t, run) != Removed(false) && node.remove(t, run) != RemovalFailed(true))
    && (forall t, key {:trigger node.helper(t, key)} :: node.helper(t, key) != FreeingFailed(true))
  }

  lemma HonestWalkDeletesOnlyWhatItGaveUp(node: Node, budget: int, w: Walk, p: nat)
    requires Justified(node, budget, w) && RemovalsSayWhatTheyDid(node) && Deleted(node, w, p)
    ensures w.end.GaveUp? && p == w.tried
  {
    var t, c := w.start + TICKS * p, w.results[p];
    HonestDeletionIsDone(node, t, c);
    hide NextEvictionClass, NodeCharged, EvictCandidate, Deletes, RemovalsSayWhatTheyDid;
  }

  /** On such a node only what is counted is deleted: at most 256 results a pass, each
      on fresh figures. */
  lemma HonestRemovalsDeleteOnlyWhatIsCounted(node: Node, budget: int, first: Status, walks: seq<Walk>)
    requires Chained(node, budget, first, walks) && RemovalsSayWhatTheyDid(node)
    ensures forall w, p: nat :: w in walks && Deleted(node, w, p) ==> w.end.GaveUp? && p == w.tried
    ensures EveryDeletionIsFresh(node, walks)
  {
    hide Figures, Justified, Deleted, RemovalsSayWhatTheyDid, Follows, EveryDeletionIsFresh;
    forall w, p: nat | w in walks && Deleted(node, w, p) ensures w.end.GaveUp? && p == w.tried {
      HonestWalkDeletesOnlyWhatItGaveUp(node, budget, w, p);
    }
    assert forall i :: 0 <= i < |walks| ==> walks[i] in walks;
    DeletionsAreFreshExactlyWhenNoWalkDeletedTwice(node, budget, first, walks);
  }

  lemma HonestDeletionIsDone(node: Node, t: nat, c: Candidate)
    requires RemovalsSayWhatTheyDid(node) && Deletes(node, t, c)
    ensures EvictCandidate(node, t, c).Done?
  {
  }

  // ----- In order, and only copies last -----

  /** Whatever is destroyed, reported or not, is the first of its class, in order, not
      reported unavailable before it, and of the class that was chosen. */
  lemma DestroyedInOrder(node: Node, budget: int, w: Walk, p: nat)
    requires Justified(node, budget, w) && Deleted(node, w, p)
    ensures TriedBefore(node, w.start, w.results, p)
    ensures forall j :: p < j < |w.results| ==> NotAfter(w.results[p], w.results[j])
    ensures forall c :: c in w.results ==> c.Published() == w.results[p].Published()
  {
    hide EvictCandidate, LessEvictable, Class, KnowsBothRoots, Deletes;
    ClassIsComplete(w.status, w.records, true);
    ClassIsComplete(w.status, w.records, false);
  }

  /** An only copy is destroyed only in a walk chosen with both roots read whole and
      nothing published found on either. */
  lemma OnlyCopyDestroyedLast(node: Node, budget: int, w: Walk, p: nat)
    requires Justified(node, budget, w) && Deleted(node, w, p) && !w.results[p].Published()
    requires ProperlyMeasured(w.status.process)
    ensures KnowsBothRoots(w.status, node.hasHelper)
    ensures forall r :: r in w.records && PublishedAndRetained(r) ==>
              !(r.run in w.status.process.looks && w.status.process.looks[r.run].There?)
    ensures forall v :: v in Volumes(w.status) && v.published ==> !MayGiveUpVolume(v)
  {
    hide EvictCandidate, KnowsBothRoots, TriedBefore, Deletes;
    ClassIsComplete(w.status, w.records, true);
    assert w.results[p] in w.results;
    UnpublishedIsChosenExactlyWhen(w.status, w.records, node.hasHelper);
  }

  // ----- A record file that cannot be removed -----

  function Repeat(n: nat): Name {
    if n == 0 then [] else Repeat(n - 1) + ['r']
  }

  lemma {:induction false} RepeatLength(n: nat)
    ensures |Repeat(n)| == n
    decreases n
  {
    if n > 0 {
      RepeatLength(n - 1);
    }
  }

  /** The only copy of run number `i`, retained at second `i`. */
  function OnlyCopy(i: nat): RetentionRecord {
    RetentionRecord(Repeat(i), i, i, true, false, false)
  }

  function OnlyCopies(n: nat): seq<RetentionRecord> {
    if n == 0 then [] else OnlyCopies(n - 1) + [OnlyCopy(n - 1)]
  }

  function ChargedRows(n: nat): seq<RunRow> {
    if n == 0 then [] else ChargedRows(n - 1) + [RunRow(Repeat(n - 1), ENTRY_FLOOR)]
  }

  lemma {:induction false} EveryCopyIsCharged(n: nat, i: nat)
    ensures ChargedTo(ChargedRows(n), Repeat(i)) > 0 <==> i < n
    decreases n
  {
    if n > 0 {
      var front, last := ChargedRows(n - 1), RunRow(Repeat(n - 1), ENTRY_FLOOR);
      assert ChargedRows(n) == front + [last];
      hide Repeat, ChargedRows, ChargedTo;
      RepeatLength(n - 1);
      RepeatLength(i);
      EveryCopyIsCharged(n - 1, i);
      LastRowCharges(front, last, Repeat(i));
    }
  }

  lemma LastRowCharges(front: seq<RunRow>, last: RunRow, run: Name)
    ensures ChargedTo(front + [last], run) == if last.run == run then last.charged else ChargedTo(front, run)
  {
    assert (front + [last])[..|front|] == front;
  }

  lemma {:induction false} CopiesAre(n: nat, r: RetentionRecord)
    ensures r in OnlyCopies(n) <==> exists i: nat :: i < n && r == OnlyCopy(i)
    decreases n
  {
    if n > 0 {
      CopiesAre(n - 1, r);
      if exists i: nat :: i < n && r == OnlyCopy(i) {
        var i: nat :| i < n && r == OnlyCopy(i);
        assert i < n - 1 || r == OnlyCopy(n - 1);
      }
    }
  }

  /** A node with `n` only copies, no helper, and record files nobody can remove. */
  function StubbornNode(n: nat): Node {
    Node(false, false,
         _ => StubbornRoot(n), _ => Unread, _ => OnlyCopies(n),
         (_, _) => false, (_, run) => Some(OnlyCopy(|run|)), (_, _) => Removed(false),
         (_, _) => false, (_, _) => NotFound, (_, _) => Freed, _ => false)
  }

  function StubbornRoot(n: nat): ProcessRoot {
    ProcessRoot(n * ENTRY_FLOOR, 0, 0, ChargedRows(n), map[])
  }

  lemma FirstIsIn(cs: seq<Candidate>)
    ensures cs != [] ==> cs[0] in cs
  {
  }

  ghost predicate HoldsEveryCopy(cs: seq<Candidate>, n: nat) {
    forall i: nat :: i < n ==> exists c :: c in cs && c.ProcessRun? && c.record == OnlyCopy(i)
  }

  lemma StubbornClass(n: nat)
    requires n > 0
    ensures var s := Status(StubbornRoot(n), Unread);
      && NextEvictionClass(s, OnlyCopies(n), false) == Give(Class(s, OnlyCopies(n), false))
      && (forall c :: c in Class(s, OnlyCopies(n), false) ==>
            c.ProcessRun? && exists i: nat :: i < n && c.record == OnlyCopy(i))
      && HoldsEveryCopy(Class(s, OnlyCopies(n), false), n)
  {
    hide Class, LessEvictable, ChargedRows;
    var s, records := Status(StubbornRoot(n), Unread), OnlyCopies(n);
    ClassIsComplete(s, records, true);
    ClassIsComplete(s, records, false);
    var published := Class(s, records, true);
    forall c ensures c !in published {
      if c.ProcessRun? {
        CopiesAre(n, c.record);
      }
    }
    FirstIsIn(published);
    forall c | c in Class(s, records, false)
      ensures c.ProcessRun? && exists i: nat :: i < n && c.record == OnlyCopy(i)
    {
      CopiesAre(n, c.record);
    }
    forall i: nat | i < n
      ensures exists c :: c in Class(s, records, false) && c.ProcessRun? && c.record == OnlyCopy(i)
    {
      CopiesAre(n, OnlyCopy(i));
      EveryCopyIsCharged(n, i);
      var c := ProcessRun(OnlyCopy(i), ChargedTo(s.process.perRun, Repeat(i)));
      assert c in Class(s, records, false) && c.record == OnlyCopy(i);
    }
  }

  /** Over its budget by one byte, such a node loses every one of its `n` only copies
      in one walk, for any `n`: the first would have been enough, none is counted, and
      nothing is measured in between. */
  method UncountedDeletionsPassEveryBound(n: nat) returns (tried: nat, end: WalkEnd, results: seq<Candidate>)
    requires n > 0
    ensures var node, s := StubbornNode(n), Status(StubbornRoot(n), Unread);
      && NodeCharged(s) == n * ENTRY_FLOOR && NextEvictionClass(s, node.records(0), node.hasHelper) == Give(results)
      && end.Exhausted? && tried == |results|
      && (forall p :: 0 <= p < |results| ==> !results[p].Published() && Deletes(node, TICKS * p, results[p]))
      && HoldsEveryCopy(results, n)
  {
    hide Class, NextEvictionClass, ChargedRows, OnlyCopies, HoldsEveryCopy;
    var node, s := StubbornNode(n), Status(StubbornRoot(n), Unread);
    StubbornClass(n);
    results := Class(s, OnlyCopies(n), false);
    var next;
    tried, end, next := EvictFromClass(node, 0, results);
    forall p | 0 <= p < |results|
      ensures !results[p].Published() && Deletes(node, TICKS * p, results[p])
      ensures EvictCandidate(node, TICKS * p, results[p]).Unavailable?
    {
      assert results[p] in results;
      var i: nat :| i < n && results[p].record == OnlyCopy(i);
      RepeatLength(i);
    }
  }
}
