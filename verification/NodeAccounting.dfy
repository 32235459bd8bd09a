/** The accounting pass over every run this node has a record for.
    Source: agent/handoff_accounting.go, measureNode. */
module NodeAccounting {
  import opened HandoffTally
  import opened HandoffWorld
  import opened HandoffTrace
  import opened HandoffFrames
  import opened HandoffWalk

  const MAX_WALK_OPENS: nat := 4_000_000

  /** One retention record, as far as measuring reads it. */
  datatype Run = Run(id: Name, inFlight: bool, quarantined: bool, published: bool)

  datatype RunFigures = RunFigures(id: Name, entries: nat, logical: nat, charged: nat, published: bool, truncated: bool)

  datatype NodeStatus = NodeStatus(runs: nat, inFlight: nat, quarantined: nat,
                                   entries: nat, logical: nat, charged: nat,
                                   replaced: nat, truncated: nat, perRun: seq<RunFigures>)

  // ----- What an unchanging root amounts to -----

  /** The handoff root of an unchanging tree: a name it does not hold is not there. */
  ghost predicate StillRoot(w: World, fs: Filesystem, rank: DirId -> nat, root: DirId) {
    && FiniteTree(fs, rank) && Frozen(w, fs) && root in fs
    && forall t, n {:trigger w.lstat(t, root, n)} :: n !in Names(fs[root]) ==> w.lstat(t, root, n) == Err(NotExist)
  }

  /** Every entry of one run's results: its own, and everything beneath it. */
  ghost function RunInfos(fs: Filesystem, rank: DirId -> nat, root: DirId, id: Name): seq<Info>
    requires FiniteTree(fs, rank) && root in fs
  {
    if id !in Names(fs[root]) then []
    else
      var info := InfoOf(fs[root], id);
      [info] + (if IsDirectory(info) && info.inode in fs then Below(fs, rank, info.inode) else [])
  }

  ghost function NodeInfos(fs: Filesystem, rank: DirId -> nat, root: DirId, ids: seq<Name>): seq<Info>
    requires FiniteTree(fs, rank) && root in fs
  {
    if ids == [] then []
    else NodeInfos(fs, rank, root, ids[..|ids| - 1]) + RunInfos(fs, rank, root, ids[|ids| - 1])
  }

  lemma NodeInfosSnoc(fs: Filesystem, rank: DirId -> nat, root: DirId, ids: seq<Name>, id: Name)
    requires FiniteTree(fs, rank) && root in fs
    ensures multiset(NodeInfos(fs, rank, root, ids + [id]))
            == multiset(NodeInfos(fs, rank, root, ids)) + multiset(RunInfos(fs, rank, root, id))
  {
    hide RunInfos, FiniteTree;
    assert (ids + [id])[..|ids|] == ids;
  }

  lemma Regroup(front: multiset<Info>, between: multiset<Info>, one: multiset<Info>, last: multiset<Info>)
    requires front == between + one
    ensures front + last == (between + last) + one
  {
  }

  lemma SkipThenLast(ids: seq<Name>, i: nat)
    requires i < |ids| - 1
    ensures var front := ids[..|ids| - 1];
      && ids == front + [ids[|ids| - 1]] && front[i] == ids[i]
      && ids[..i] + ids[i + 1..] == (front[..i] + front[i + 1..]) + [ids[|ids| - 1]]
  {
  }

  lemma {:induction false} NodeInfosMoveToEnd(fs: Filesystem, rank: DirId -> nat, root: DirId, ids: seq<Name>, i: nat)
    requires FiniteTree(fs, rank) && root in fs && i < |ids|
    ensures multiset(NodeInfos(fs, rank, root, ids))
            == multiset(NodeInfos(fs, rank, root, ids[..i] + ids[i + 1..])) + multiset(RunInfos(fs, rank, root, ids[i]))
    decreases |ids|
  {
    hide RunInfos, FiniteTree;
    var last := |ids| - 1;
    var front, rest := ids[..last], ids[..i] + ids[i + 1..];
    if i == last {
      assert rest == front;
    } else {
      SkipThenLast(ids, i);
      NodeInfosMoveToEnd(fs, rank, root, front, i);
      var between := front[..i] + front[i + 1..];
      Regroup(multiset(NodeInfos(fs, rank, root, front)), multiset(NodeInfos(fs, rank, root, between)),
              multiset(RunInfos(fs, rank, root, ids[i])), multiset(RunInfos(fs, rank, root, ids[last])));
      NodeInfosSnoc(fs, rank, root, between, ids[last]);
      NodeInfosSnoc(fs, rank, root, front, ids[last]);
    }
  }

  lemma {:induction false} NodeInfosIgnoreOrder(fs: Filesystem, rank: DirId -> nat, root: DirId, a: seq<Name>,
                                                b: seq<Name>)
    requires FiniteTree(fs, rank) && root in fs && multiset(a) == multiset(b)
    ensures multiset(NodeInfos(fs, rank, root, a)) == multiset(NodeInfos(fs, rank, root, b))
    decreases |a|
  {
    SameCount(a, b);
    if b != [] {
      var i, rest := Matching(a, b);
      NodeInfosMoveToEnd(fs, rank, root, a, i);
      NodeInfosMoveToEnd(fs, rank, root, b, 0);
      assert b[..0] + b[1..] == b[1..];
      NodeInfosIgnoreOrder(fs, rank, root, rest, b[1..]);
    }
  }

  /** Whatever order the records load in, the node's figures are the same. */
  lemma RecordOrderDoesNotMatter(fs: Filesystem, rank: DirId -> nat, root: DirId, t: Tally, a: seq<Name>, b: seq<Name>)
    requires FiniteTree(fs, rank) && root in fs && multiset(a) == multiset(b)
    requires Consistent(NodeInfos(fs, rank, root, a))
    ensures CountAll(t, NodeInfos(fs, rank, root, a)) == CountAll(t, NodeInfos(fs, rank, root, b))
  {
    NodeInfosIgnoreOrder(fs, rank, root, a, b);
    OrderDoesNotMatter(t, NodeInfos(fs, rank, root, a), NodeInfos(fs, rank, root, b));
  }

  // ----- Adding one run's figures to the node's -----

  function Plus(a: Tally, b: Tally): Tally {
    Tally(a.entries + b.entries, a.logical + b.logical, a.charged + b.charged, b.seen)
  }

  lemma {:induction false} CountingIsAdditive(t: Tally, u: Tally, infos: seq<Info>)
    ensures CountAll(Plus(t, u), infos) == Plus(t, CountAll(u, infos))
    decreases |infos|
  {
    if infos != [] {
      assert Count(Plus(t, u), infos[0]) == Plus(t, Count(u, infos[0]));
      CountingIsAdditive(t, Count(u, infos[0]), infos[1..]);
    }
  }

  /** What one pass reports and what it left behind: the identities charged, the
      budget and the instant it stopped at, and whether it stopped early. */
  datatype Pass = Pass(status: NodeStatus, seen: Seen, opensLeft: nat, now: nat, cancelled: bool)

  ghost function Figures(p: Pass): Tally {
    Tally(p.status.entries, p.status.logical, p.status.charged, p.seen)
  }

  /** A run not charged twice: one row per run measured, and the totals are the rows'. */
  ghost predicate RowsAddUp(s: NodeStatus) {
    && s.entries == SumEntries(s.perRun) && s.charged == SumCharged(s.perRun)
    && forall i, j :: 0 <= i < j < |s.perRun| ==> s.perRun[i].id != s.perRun[j].id
  }

  function SumEntries(rows: seq<RunFigures>): nat {
    if rows == [] then 0 else SumEntries(rows[..|rows| - 1]) + rows[|rows| - 1].entries
  }

  function SumCharged(rows: seq<RunFigures>): nat {
    if rows == [] then 0 else SumCharged(rows[..|rows| - 1]) + rows[|rows| - 1].charged
  }

  lemma RunWalked(world: World, fs: Filesystem, rank: DirId -> nat, root: DirId, id: Name, p: Pass, report: WalkReport)
    requires world.lstat(p.now, root, id).Ok?
    requires var info := world.lstat(p.now, root, id).value;
      var zero := Tally(0, 0, 0, p.seen);
      && (!IsDirectory(info) ==> report.tally == Count(zero, info) && report.vanished == report.replaced == 0)
      && var c := Still(world, root, id, fs, rank, info.inode, info);
         var whole := if StillTree(c) then [info] + Below(fs, rank, info.inode) else [];
         IsDirectory(info) && StillTree(c) && Consistent(whole) ==>
           && report.vanished == 0 && report.replaced == 0
           && (!report.truncated ==>
                report.tally == RecursiveSum(fs, rank, Count(zero, info), info.inode, fs[info.inode]))
    ensures StillRoot(world, fs, rank, root) && Consistent(RunInfos(fs, rank, root, id)) && !report.truncated ==>
              && Plus(Figures(p), report.tally) == CountAll(Figures(p), RunInfos(fs, rank, root, id))
              && report.vanished == 0 && report.replaced == 0
  {
    if StillRoot(world, fs, rank, root) && Consistent(RunInfos(fs, rank, root, id)) && !report.truncated {
      var info := world.lstat(p.now, root, id).value;
      var zero := Tally(0, 0, 0, p.seen);
      var infos := RunInfos(fs, rank, root, id);
      assert id in Names(fs[root]) && info == InfoOf(fs[root], id);
      if IsDirectory(info) {
        var c := Still(world, root, id, fs, rank, info.inode, info);
        assert StillTree(c);
        RecursiveSumCountsBelow(fs, rank, Count(zero, info), info.inode, fs[info.inode]);
        CountAllCons(zero, info, Below(fs, rank, info.inode));
      } else {
        CountAllCons(zero, info, []);
        assert infos == [info] + [];
      }
      assert report.tally == CountAll(zero, infos);
      CountingIsAdditive(Figures(p), zero, infos);
      assert Plus(Figures(p), zero) == Figures(p);
    }
  }

  lemma AbsentRun(world: World, fs: Filesystem, rank: DirId -> nat, root: DirId, id: Name, p: Pass)
    requires world.lstat(p.now, root, id).Err?
    ensures StillRoot(world, fs, rank, root) ==> CountAll(Figures(p), RunInfos(fs, rank, root, id)) == Figures(p)
  {
  }

  /** Measures one run and folds its figures in. */
  method MeasureRun(world: World, root: DirId, run: Run, p: Pass, ghost fs: Filesystem, ghost rank: DirId -> nat)
    returns (q: Pass)
    requires p.seen.Inodes?
    ensures q.seen.Inodes? && q.cancelled == p.cancelled
    ensures q.status.runs == p.status.runs + 1
    ensures q.status.truncated > p.status.truncated ==> MayStop(world, q.opensLeft)
    ensures world.lstat(p.now, root, run.id).Err? || !IsDirectory(world.lstat(p.now, root, run.id).value) ==>
              q.status.truncated == p.status.truncated && q.status.replaced == p.status.replaced
    ensures match world.lstat(p.now, root, run.id) {
      case Err(_) => q.status == p.status.(runs := q.status.runs, inFlight := q.status.inFlight,
                                           quarantined := q.status.quarantined)
      case Ok(_) => |q.status.perRun| == |p.status.perRun| + 1
                    && q.status.perRun[..|p.status.perRun|] == p.status.perRun
                    && q.status.perRun[|p.status.perRun|].id == run.id
                    && q.status.perRun[|p.status.perRun|].published == run.published
                    && q.status.perRun[|p.status.perRun|].charged >= ENTRY_FLOOR
                    && q.status.truncated == p.status.truncated
                       + (if q.status.perRun[|p.status.perRun|].truncated then 1 else 0)
                    && q.status.entries == p.status.entries + q.status.perRun[|p.status.perRun|].entries
                    && q.status.charged == p.status.charged + q.status.perRun[|p.status.perRun|].charged
    }
    ensures StillRoot(world, fs, rank, root) && Consistent(RunInfos(fs, rank, root, run.id))
            && q.status.truncated == p.status.truncated ==>
              && Figures(q) == CountAll(Figures(p), RunInfos(fs, rank, root, run.id))
              && q.status.replaced == p.status.replaced
  {
    hide StillRoot, StillTree, Consistent, RunInfos, RecursiveSum, Below, CountAll, Count, MayStop, Enough;
    hide Lawful, OpenedByListedNames, NothingLeftOut, MayFail, PeakOf, LiveOf, LossesOf, CountedIn, Attempts, NoMore;
    var s := p.status.(runs := p.status.runs + 1,
                       inFlight := p.status.inFlight + (if run.inFlight then 1 else 0),
                       quarantined := p.status.quarantined + (if run.quarantined then 1 else 0));
    var info := world.lstat(p.now, root, run.id);
    if info.Err? {
      AbsentRun(world, fs, rank, root, run.id, p);
      q := p.(status := s, now := p.now + 1);
      return;
    }
    var report, _ := WalkHandoffTree(world, p.now + 1, p.opensLeft, root, run.id, info.value, p.seen, fs, rank);
    RunWalked(world, fs, rank, root, run.id, p, report);
    var row := RunFigures(run.id, report.tally.entries, report.tally.logical, report.tally.charged, run.published,
                          report.truncated);
    q := Pass(s.(entries := s.entries + row.entries, logical := s.logical + row.logical,
                 charged := s.charged + row.charged,
                 replaced := s.replaced + report.replaced + report.vanished,
                 truncated := s.truncated + (if report.truncated then 1 else 0),
                 perRun := s.perRun + [row]),
              report.tally.seen, report.opensLeft, report.now, p.cancelled);
  }

  /** The runs in the order met, each once. */
  function DistinctIds(runs: seq<Run>): seq<Name> {
    if runs == [] then []
    else
      var front := DistinctIds(runs[..|runs| - 1]);
      if runs[|runs| - 1].id in front then front else front + [runs[|runs| - 1].id]
  }

  lemma {:induction false} DistinctIdsCover(runs: seq<Run>, run: Run)
    requires run in runs
    ensures run.id in DistinctIds(runs)
    decreases |runs|
  {
    if run != runs[|runs| - 1] {
      assert run in runs[..|runs| - 1];
      DistinctIdsCover(runs[..|runs| - 1], run);
    }
  }

  ghost predicate HasRow(s: NodeStatus, id: Name) {
    exists k :: 0 <= k < |s.perRun| && s.perRun[k].id == id
  }

  /** What holds after the first `i` records: each run once, every run looked at
      either has its row or answered the look with an error. */
  ghost predicate Measuring(world: World, root: DirId, ids: seq<Name>, s: NodeStatus, looks: map<Name, nat>) {
    && s.runs == |ids|
    && RowsAddUp(s)
    && (forall k :: 0 <= k < |s.perRun| ==> s.perRun[k].id in ids && s.perRun[k].charged >= ENTRY_FLOOR)
    && (forall id :: id in ids ==> id in looks && (HasRow(s, id) <==> world.lstat(looks[id], root, id).Ok?))
  }

  lemma MeasuredOneMore(world: World, root: DirId, ids: seq<Name>, s: NodeStatus, looks: map<Name, nat>,
                        id: Name, t: nat, next: NodeStatus)
    requires Measuring(world, root, ids, s, looks) && id !in ids && next.runs == s.runs + 1
    requires match world.lstat(t, root, id) {
      case Err(_) => next.perRun == s.perRun && next.entries == s.entries && next.charged == s.charged
      case Ok(_) => |next.perRun| == |s.perRun| + 1 && next.perRun[..|s.perRun|] == s.perRun
                    && next.perRun[|s.perRun|].id == id && next.perRun[|s.perRun|].charged >= ENTRY_FLOOR
                    && next.entries == s.entries + next.perRun[|s.perRun|].entries
                    && next.charged == s.charged + next.perRun[|s.perRun|].charged
    }
    ensures Measuring(world, root, ids + [id], next, looks[id := t])
  {
    var n := |s.perRun|;
    assert forall k :: 0 <= k < n ==> next.perRun[k] == s.perRun[k];
    if world.lstat(t, root, id).Ok? {
      assert next.perRun[n].id == id;
    }
    forall x | x in ids + [id]
      ensures x in looks[id := t] && (HasRow(next, x) <==> world.lstat(looks[id := t][x], root, x).Ok?)
    {
      if x != id {
        assert x in ids;
        if HasRow(s, x) {
          var k :| 0 <= k < n && s.perRun[k].id == x;
          assert next.perRun[k].id == x;
        }
      }
    }
  }

  /** No look at a run's name ever finds a directory. */
  ghost predicate NoDirectories(world: World, root: DirId) {
    forall t, id {:trigger world.lstat(t, root, id)} :: world.lstat(t, root, id).Ok? ==>
        !IsDirectory(world.lstat(t, root, id).value)
  }

  /** The accounting pass. One set of charged identities and one budget of opens
      span every run. `looks` is the instant each run's name was looked up at. */
  method MeasureNode(world: World, now: nat, root: DirId, runs: seq<Run>, ghost fs: Filesystem,
                     ghost rank: DirId -> nat)
    returns (pass: Pass, ghost looks: map<Name, nat>)
    ensures RowsAddUp(pass.status)
    ensures pass.cancelled ==> EverCancelled(world)
    ensures !pass.cancelled ==> Measuring(world, root, DistinctIds(runs), pass.status, looks)
    ensures NoDirectories(world, root) ==> pass.status.truncated == 0 && pass.status.replaced == 0
    ensures StillRoot(world, fs, rank, root) && Consistent(NodeInfos(fs, rank, root, DistinctIds(runs)))
            && pass.status.truncated == 0 && !pass.cancelled ==>
              && Figures(pass) == CountAll(Tally(0, 0, 0, Inodes({})), NodeInfos(fs, rank, root, DistinctIds(runs)))
              && pass.status.replaced == 0
  {
    hide StillRoot, Consistent, CountAll, Measuring, RowsAddUp, IsDirectory;
    pass := Pass(NodeStatus(0, 0, 0, 0, 0, 0, 0, 0, []), Inodes({}), MAX_WALK_OPENS, now, false);
    var recorded: set<Name> := {};
    looks := map[];
    NothingMeasured(world, fs, rank, root, pass, looks);
    for i := 0 to |runs|
      invariant pass.seen.Inodes? && !pass.cancelled
      invariant forall id :: id in recorded <==> id in DistinctIds(runs[..i])
      invariant Measuring(world, root, DistinctIds(runs[..i]), pass.status, looks)
      invariant FiguresOf(world, fs, rank, root, DistinctIds(runs[..i]), pass)
      invariant NoDirectories(world, root) ==> pass.status.truncated == 0 && pass.status.replaced == 0
    {
      var run := runs[i];
      assert runs[..i + 1][..i] == runs[..i];
      if run.id in recorded {
        continue;
      }
      recorded := recorded + {run.id};
      var before := pass;
      pass := MeasureRun(world, root, run, before, fs, rank);
      MeasuredOneMore(world, root, DistinctIds(runs[..i]), before.status, looks, run.id, before.now, pass.status);
      FiguresGrow(world, fs, rank, root, DistinctIds(runs[..i]), run.id, before, pass);
      looks := looks[run.id := before.now];
      MeasuredRowsAddUp(world, root, DistinctIds(runs[..i + 1]), pass.status, looks);
      if |pass.status.perRun| > |before.status.perRun| && world.cancelled(pass.now) {
        pass := pass.(cancelled := true);
        return;
      }
    }
    assert runs[..|runs|] == runs;
    MeasuredRowsAddUp(world, root, DistinctIds(runs), pass.status, looks);
  }

  lemma MeasuredRowsAddUp(world: World, root: DirId, ids: seq<Name>, s: NodeStatus, looks: map<Name, nat>)
    requires Measuring(world, root, ids, s, looks)
    ensures RowsAddUp(s)
  {
  }

  ghost predicate FiguresOf(world: World, fs: Filesystem, rank: DirId -> nat, root: DirId, ids: seq<Name>, p: Pass) {
    StillRoot(world, fs, rank, root) && Consistent(NodeInfos(fs, rank, root, ids)) && p.status.truncated == 0 ==>
      && Figures(p) == CountAll(Tally(0, 0, 0, Inodes({})), NodeInfos(fs, rank, root, ids))
      && p.status.replaced == 0
  }

  lemma FiguresGrow(world: World, fs: Filesystem, rank: DirId -> nat, root: DirId, ids: seq<Name>, id: Name, p: Pass,
                    q: Pass)
    requires FiguresOf(world, fs, rank, root, ids, p) && q.status.truncated >= p.status.truncated
    requires StillRoot(world, fs, rank, root) && Consistent(RunInfos(fs, rank, root, id))
             && q.status.truncated == p.status.truncated ==>
               && Figures(q) == CountAll(Figures(p), RunInfos(fs, rank, root, id))
               && q.status.replaced == p.status.replaced
    ensures FiguresOf(world, fs, rank, root, ids + [id], q)
  {
    if StillRoot(world, fs, rank, root) && Consistent(NodeInfos(fs, rank, root, ids + [id]))
        && q.status.truncated == 0 {
      assert (ids + [id])[..|ids|] == ids;
      var front, back := NodeInfos(fs, rank, root, ids), RunInfos(fs, rank, root, id);
      assert forall x :: x in front || x in back ==> x in NodeInfos(fs, rank, root, ids + [id]);
      assert Consistent(front) && Consistent(back);
      CountAllAppend(Tally(0, 0, 0, Inodes({})), front, back);
    }
  }

  lemma NothingMeasured(world: World, fs: Filesystem, rank: DirId -> nat, root: DirId, p: Pass, looks: map<Name, nat>)
    requires p.status == NodeStatus(0, 0, 0, 0, 0, 0, 0, 0, []) && p.seen == Inodes({})
    ensures Measuring(world, root, [], p.status, looks) && FiguresOf(world, fs, rank, root, [], p)
  {
  }
}
