/** The stack of a walk: its frames, what they owe of an unchanging tree, the handles
    they own, and what a walk with such a stack may cost.
    Source: agent/handoff_accounting.go, handoffWalk. */
module HandoffFrames {
  import opened Common
  import opened HandoffTally
  import opened HandoffWorld
  import opened HandoffConservation
  import opened HandoffTrace

  const MAX_OPEN_FRAMES: nat := 64

  datatype WalkError = Io(error: IoError) | Moved | Truncated

  /** The two ways a directory can stop being one mid-pass. */
  predicate Skips(e: WalkError) {
    e.Io? && GoneOrReplaced(e.error)
  }

  /** Why a pass may stop early: its budget is spent, or it was cancelled. */
  ghost predicate MayStop(world: World, opens: nat) {
    opens == 0 || EverCancelled(world)
  }

  ghost predicate EverCancelled(world: World) {
    exists t: nat :: world.cancelled(t)
  }

  /** Why a walk may fail: some call was refused, and not because what it asked about is
      gone or is no longer a directory. */
  ghost predicate MayFail(world: World) {
    exists t, d, n :: Refuses(world, t, d, n)
  }

  ghost predicate Refuses(world: World, t: nat, d: DirId, n: Name) {
    || (world.open(t, d, n).Err? && !GoneOrReplaced(world.open(t, d, n).error))
    || (world.statSelf(t, d).Err? && !GoneOrReplaced(world.statSelf(t, d).error))
    || world.list(t, d).Err?
    || (world.lstat(t, d, n).Err? && world.lstat(t, d, n).error != NotExist)
  }

  lemma OpenRefused(world: World, t: nat, d: DirId, n: Name)
    ensures world.open(t, d, n).Err? && !GoneOrReplaced(world.open(t, d, n).error) ==> MayFail(world)
  {
    assert world.open(t, d, n).Err? && !GoneOrReplaced(world.open(t, d, n).error) ==> Refuses(world, t, d, n);
  }

  lemma StatFailed(world: World, t: nat, d: DirId, n: Name)
    ensures world.statSelf(t, d).Err? && !GoneOrReplaced(world.statSelf(t, d).error) ==> MayFail(world)
  {
    assert world.statSelf(t, d).Err? && !GoneOrReplaced(world.statSelf(t, d).error) ==> Refuses(world, t, d, n);
  }

  lemma ListFailed(world: World, t: nat, d: DirId)
    ensures world.list(t, d).Err? ==> MayFail(world)
  {
    assert world.list(t, d).Err? ==> Refuses(world, t, d, []);
  }

  lemma LstatFailed(world: World, t: nat, d: DirId, n: Name)
    ensures world.lstat(t, d, n).Err? && world.lstat(t, d, n).error != NotExist ==> MayFail(world)
  {
    assert world.lstat(t, d, n).Err? && world.lstat(t, d, n).error != NotExist ==> Refuses(world, t, d, n);
  }

  /** One directory read, with subdirectories left to descend into. */
  datatype Frame = Frame(depth: nat, run: Option<DirId>, identity: DirId, directories: seq<Name>)

  /** What became of the next subdirectory. */
  datatype Step = Next(depth: nat, name: Name, run: DirId, via: DirId) | Passed | Stopped(error: WalkError)

  ghost predicate FramesListed(fs: Filesystem, stack: seq<Frame>) {
    forall f :: f in stack ==> ListedDirectories(fs, f.identity, f.directories)
  }

  /** What the whole stack still owes. */
  ghost function Owing(fs: Filesystem, rank: DirId -> nat, stack: seq<Frame>): multiset<Info>
    requires FiniteTree(fs, rank) && FramesListed(fs, stack)
    decreases |stack|
  {
    if stack == [] then multiset{}
    else
      var top := stack[|stack| - 1];
      Owing(fs, rank, stack[..|stack| - 1]) + Owed(fs, rank, top.identity, top.directories)
  }

  /** Opening and closing handles moves no work. */
  predicate SameWork(a: seq<Frame>, b: seq<Frame>) {
    && |a| == |b|
    && forall i :: 0 <= i < |a| ==>
         a[i].depth == b[i].depth && a[i].identity == b[i].identity && a[i].directories == b[i].directories
  }

  lemma {:induction false} SameWorkOwesTheSame(fs: Filesystem, rank: DirId -> nat, a: seq<Frame>, b: seq<Frame>)
    requires FiniteTree(fs, rank) && FramesListed(fs, a) && SameWork(a, b)
    ensures FramesListed(fs, b) && Owing(fs, rank, a) == Owing(fs, rank, b)
    decreases |a|
  {
    forall f | f in b ensures ListedDirectories(fs, f.identity, f.directories) {
      var i :| 0 <= i < |b| && b[i] == f;
      assert a[i] in a;
    }
    if a != [] {
      SameWorkOwesTheSame(fs, rank, a[..|a| - 1], b[..|b| - 1]);
    }
  }

  /** Frames sit at strictly increasing depths of the ancestry, each standing for
      the directory its own component led to. */
  ghost predicate Ancestry(stack: seq<Frame>, path: seq<Name>, trail: seq<DirId>) {
    && |trail| == |path|
    && (forall i :: 0 <= i < |stack| ==> stack[i].depth < |path| && stack[i].identity == trail[stack[i].depth])
    && (forall i, j :: 0 <= i < j < |stack| ==> stack[i].depth < stack[j].depth)
  }

  lemma UnwoundAncestry(stack: seq<Frame>, path: seq<Name>, trail: seq<DirId>)
    requires stack != [] && Ancestry(stack, path, trail)
    ensures var last, depth := |stack| - 1, stack[|stack| - 1].depth;
      depth < |path| == |trail| && Ancestry(stack[..last], path[..depth], trail[..depth])
  {
  }

  lemma AncestryAt(stack: seq<Frame>, path: seq<Name>, trail: seq<DirId>, i: nat)
    requires Ancestry(stack, path, trail) && i < |stack|
    ensures stack[i].depth < |trail| && stack[i].identity == trail[stack[i].depth]
  {
  }

  /** The frames above `depth` are the first `reached`. */
  ghost predicate Above(stack: seq<Frame>, depth: nat, reached: nat) {
    reached <= |stack| && forall i :: 0 <= i < |stack| ==> (stack[i].depth < depth <==> i < reached)
  }

  lemma AboveNext(stack: seq<Frame>, path: seq<Name>, trail: seq<DirId>, depth: nat, reached: nat, after: seq<Frame>)
    requires Ancestry(stack, path, trail) && Above(stack, depth, reached) && SameWork(stack, after)
    ensures Above(after, depth + 1, if reached < |stack| && stack[reached].depth == depth then reached + 1 else reached)
    ensures stack != [] && depth == stack[|stack| - 1].depth ==> reached < |stack| && stack[reached].depth == depth
  {
  }

  // ----- A walk over an unchanging tree -----

  /** The tree a walk is over, when nothing changes it: the answers the world gives
      and where the walk starts in it. */
  datatype Still = Still(world: World, base: DirId, rootName: Name,
                         fs: Filesystem, rank: DirId -> nat, root: DirId, rootInfo: Info)

  ghost predicate StillTree(c: Still) {
    && FiniteTree(c.fs, c.rank) && Frozen(c.world, c.fs) && c.root in c.fs
    && forall t {:trigger c.world.open(t, c.base, c.rootName)} :: c.world.open(t, c.base, c.rootName) == Ok(c.root)
  }

  /** The part of a walk's state the figures depend on. */
  datatype Progress = Progress(stack: seq<Frame>, path: seq<Name>, trail: seq<DirId>, counted: seq<Info>)

  ghost function ParentOf(base: DirId, trail: seq<DirId>, i: nat): DirId
    requires i <= |trail|
  {
    if i == 0 then base else trail[i - 1]
  }

  /** `name`, in the directory at `depth - 1` of the ancestry, is `run`. */
  ghost predicate LeadsTo(c: Still, trail: seq<DirId>, depth: nat, name: Name, run: DirId) {
    && depth <= |trail|
    && run in c.fs
    && (depth == 0 ==> name == c.rootName && run == c.root)
    && (depth > 0 ==> trail[depth - 1] in c.fs && name in Names(c.fs[trail[depth - 1]])
                      && IsDirectory(InfoOf(c.fs[trail[depth - 1]], name))
                      && InfoOf(c.fs[trail[depth - 1]], name).inode == run)
  }

  ghost predicate Route(c: Still, path: seq<Name>, trail: seq<DirId>) {
    |path| == |trail| && forall i :: 0 <= i < |path| ==> LeadsTo(c, trail, i, path[i], trail[i])
  }

  /** Re-opening the recorded ancestry, at any instant, leads where it led. */
  ghost predicate Resolving(w: World, base: DirId, path: seq<Name>, trail: seq<DirId>) {
    |path| == |trail|
    && forall t, i :: 0 <= i < |path| ==> w.open(t, ParentOf(base, trail, i), path[i]) == Ok(trail[i])
                                          && w.statSelf(t, trail[i]).Ok?
  }

  ghost predicate AlwaysLeads(w: World, via: DirId, name: Name, d: DirId) {
    forall t :: w.open(t, via, name) == Ok(d)
  }

  ghost predicate AlwaysSeen(w: World, d: DirId) {
    forall t :: w.statSelf(t, d).Ok?
  }

  lemma ResolvesAt(w: World, base: DirId, path: seq<Name>, trail: seq<DirId>, i: nat)
    requires i < |path| == |trail|
    ensures Resolving(w, base, path, trail) ==>
              AlwaysLeads(w, ParentOf(base, trail, i), path[i], trail[i]) && AlwaysSeen(w, trail[i])
  {
  }

  lemma RouteResolves(c: Still, path: seq<Name>, trail: seq<DirId>)
    requires StillTree(c) && Route(c, path, trail)
    ensures Resolving(c.world, c.base, path, trail)
  {
    forall t, i | 0 <= i < |path|
      ensures c.world.open(t, ParentOf(c.base, trail, i), path[i]) == Ok(trail[i]) && c.world.statSelf(t, trail[i]).Ok?
    {
      assert LeadsTo(c, trail, i, path[i], trail[i]);
    }
  }

  ghost function Whole(c: Still): multiset<Info>
    requires StillTree(c)
  {
    multiset{c.rootInfo} + multiset(Below(c.fs, c.rank, c.root))
  }

  /** Everything beneath a directory of the tree. */
  ghost function Beneath(c: Still, d: DirId): multiset<Info> {
    if StillTree(c) && d in c.fs then multiset(Below(c.fs, c.rank, d)) else multiset{}
  }

  /** What was counted, what the stack owes and what is in hand make up the tree,
      and the recorded ancestry leads where it led. */
  ghost predicate Conserves(c: Still, p: Progress, inHand: multiset<Info>) {
    && StillTree(c)
    && Route(c, p.path, p.trail)
    && Ancestry(p.stack, p.path, p.trail)
    && FramesListed(c.fs, p.stack)
    && multiset(p.counted) + Owing(c.fs, c.rank, p.stack) + inHand == Whole(c)
  }

  /** Nothing counted twice: a walk stopped anywhere has counted part of the tree. */
  lemma ConservedIsPart(c: Still, p: Progress, inHand: multiset<Info>)
    requires Conserves(c, p, inHand)
    ensures multiset(p.counted) <= Whole(c)
    ensures p.stack == [] && inHand == multiset{} ==> multiset(p.counted) == Whole(c)
  {
  }

  lemma HandleMovesConserve(c: Still, p: Progress, stack: seq<Frame>, inHand: multiset<Info>)
    requires Conserves(c, p, inHand) && SameWork(p.stack, stack)
    ensures Conserves(c, p.(stack := stack), inHand)
  {
    SameWorkOwesTheSame(c.fs, c.rank, p.stack, stack);
  }

  lemma CutRoute(c: Still, path: seq<Name>, trail: seq<DirId>, depth: nat)
    requires Route(c, path, trail) && depth <= |path|
    ensures Route(c, path[..depth], trail[..depth])
  {
    hide LeadsTo;
    forall i | 0 <= i < depth ensures LeadsTo(c, trail[..depth], i, path[..depth][i], trail[..depth][i]) {
      assert LeadsTo(c, trail, i, path[i], trail[i]);
      LeadsStill(c, trail, trail[..depth], i, path[i], trail[i]);
    }
  }

  lemma DroppedFrame(fs: Filesystem, rank: DirId -> nat, stack: seq<Frame>)
    requires FiniteTree(fs, rank) && FramesListed(fs, stack) && stack != [] && stack[|stack| - 1].directories == []
    ensures FramesListed(fs, stack[..|stack| - 1]) && Owing(fs, rank, stack[..|stack| - 1]) == Owing(fs, rank, stack)
  {
    assert stack[|stack| - 1] in stack;
    assert forall f :: f in stack[..|stack| - 1] ==> f in stack;
  }

  /** A finished frame leaves the stack and its component the ancestry. */
  lemma CompletionConserves(c: Still, p: Progress)
    requires Conserves(c, p, multiset{}) && p.stack != [] && p.stack[|p.stack| - 1].directories == []
    ensures var depth := p.stack[|p.stack| - 1].depth;
      Conserves(c, p.(stack := p.stack[..|p.stack| - 1], path := p.path[..depth], trail := p.trail[..depth]),
                multiset{})
  {
    hide StillTree, LeadsTo, Whole;
    var depth := p.stack[|p.stack| - 1].depth;
    CutRoute(c, p.path, p.trail, depth);
    assert FiniteTree(c.fs, c.rank) by { TreeIsFinite(c); }
    DroppedFrame(c.fs, c.rank, p.stack);
  }

  lemma TreeIsFinite(c: Still)
    requires StillTree(c)
    ensures FiniteTree(c.fs, c.rank) && c.root in c.fs
  {
  }

  function Popped(stack: seq<Frame>): seq<Frame>
    requires stack != [] && stack[|stack| - 1].directories != []
  {
    var last := |stack| - 1;
    var popped := stack[last].(directories := stack[last].directories[1..]);
    if popped.directories == [] then stack[..last] else stack[last := popped]
  }

  lemma OwedTail(fs: Filesystem, rank: DirId -> nat, d: DirId, names: seq<Name>)
    requires FiniteTree(fs, rank) && ListedDirectories(fs, d, names) && names != []
    ensures d in fs && names[0] in Names(fs[d]) && InfoOf(fs[d], names[0]).inode in fs
    ensures ListedDirectories(fs, d, names[1..])
    ensures Owed(fs, rank, d, names) == multiset(Below(fs, rank, InfoOf(fs[d], names[0]).inode))
              + Owed(fs, rank, d, names[1..])
  {
    hide Below;
    assert names[0] in names;
    ChildIsPresent(fs, rank, d, names[0]);
    assert forall n :: n in names[1..] ==> n in names;
  }

  lemma OwingSnoc(fs: Filesystem, rank: DirId -> nat, front: seq<Frame>, f: Frame)
    requires FiniteTree(fs, rank) && FramesListed(fs, front) && ListedDirectories(fs, f.identity, f.directories)
    ensures FramesListed(fs, front + [f])
    ensures Owing(fs, rank, front + [f]) == Owing(fs, rank, front) + Owed(fs, rank, f.identity, f.directories)
  {
    hide Owed, FiniteTree, ListedDirectories;
    assert (front + [f])[..|front|] == front;
  }

  lemma TakingOwesLess(fs: Filesystem, rank: DirId -> nat, stack: seq<Frame>)
    requires FiniteTree(fs, rank) && FramesListed(fs, stack) && stack != [] && stack[|stack| - 1].directories != []
    ensures var top := stack[|stack| - 1];
      && top.identity in fs && top.directories[0] in Names(fs[top.identity])
      && InfoOf(fs[top.identity], top.directories[0]).inode in fs
      && FramesListed(fs, Popped(stack))
      && Owing(fs, rank, stack)
         == Owing(fs, rank, Popped(stack))
            + multiset(Below(fs, rank, InfoOf(fs[top.identity], top.directories[0]).inode))
  {
    hide Owing, Below, FiniteTree, ListedDirectories, InfoOf, Names;
    var front, top := stack[..|stack| - 1], stack[|stack| - 1];
    var popped := top.(directories := top.directories[1..]);
    assert stack == front + [top] && top in stack;
    assert forall f :: f in front ==> f in stack;
    OwedTail(fs, rank, top.identity, top.directories);
    OwingSnoc(fs, rank, front, top);
    OwingSnoc(fs, rank, front, popped);
    assert stack[|stack| - 1 := popped] == front + [popped];
    var rest := Owed(fs, rank, top.identity, popped.directories);
    assert popped.directories == [] ==> rest == multiset{} && Popped(stack) == front;
    assert popped.directories != [] ==> Popped(stack) == front + [popped];
    assert Owing(fs, rank, Popped(stack)) == Owing(fs, rank, front) + rest;
  }

  lemma PoppedAncestry(stack: seq<Frame>, path: seq<Name>, trail: seq<DirId>)
    requires Ancestry(stack, path, trail) && stack != [] && stack[|stack| - 1].directories != []
    ensures Ancestry(Popped(stack), path, trail)
  {
    var popped := Popped(stack);
    assert |popped| <= |stack|;
    assert forall i :: 0 <= i < |popped| ==>
        && popped[i].depth == stack[i].depth
        && popped[i].identity == stack[i].identity;
  }

  lemma GrownAncestry(stack: seq<Frame>, path: seq<Name>, trail: seq<DirId>, frame: Frame, name: Name,
                      grown: seq<Frame>)
    requires Ancestry(stack, path, trail) && frame.depth <= |path|
    requires forall i :: 0 <= i < |stack| ==> stack[i].depth < frame.depth
    requires SameWork(stack + [frame], grown)
    ensures Ancestry(grown, path[..frame.depth] + [name], trail[..frame.depth] + [frame.identity])
  {
    var plain := stack + [frame];
    assert Ancestry(plain, path[..frame.depth] + [name], trail[..frame.depth] + [frame.identity]);
    assert forall i :: 0 <= i < |grown| ==> grown[i].depth == plain[i].depth && grown[i].identity == plain[i].identity;
  }

  ghost function TakenChild(c: Still, p: Progress): DirId
    requires p.stack != [] && p.stack[|p.stack| - 1].directories != []
  {
    var top := p.stack[|p.stack| - 1];
    if top.identity in c.fs && top.directories[0] in Names(c.fs[top.identity])
    then InfoOf(c.fs[top.identity], top.directories[0]).inode else 0
  }

  /** The name taken is a subdirectory of the frame it came from. */
  lemma TakenLeads(c: Still, p: Progress, t: nat)
    requires Conserves(c, p, multiset{}) && p.stack != [] && p.stack[|p.stack| - 1].directories != []
    ensures var top := p.stack[|p.stack| - 1];
      && TakenChild(c, p) in c.fs
      && LeadsTo(c, p.trail, top.depth + 1, top.directories[0], TakenChild(c, p))
      && c.world.open(t, top.identity, top.directories[0]) == Ok(TakenChild(c, p))
  {
    TakingOwesLess(c.fs, c.rank, p.stack);
    var top := p.stack[|p.stack| - 1];
    assert top in p.stack && top.directories[0] in top.directories;
  }

  /** Taking the next subdirectory moves what is beneath it from the stack to the
      hand, whether or not the frame it came from stays. */
  lemma TakingConserves(c: Still, p: Progress)
    requires Conserves(c, p, multiset{}) && p.stack != [] && p.stack[|p.stack| - 1].directories != []
    ensures Conserves(c, p.(stack := Popped(p.stack)), Beneath(c, TakenChild(c, p)))
  {
    TakingOwesLess(c.fs, c.rank, p.stack);
    PoppedAncestry(p.stack, p.path, p.trail);
    var rest, deeper := Owing(c.fs, c.rank, Popped(p.stack)), Beneath(c, TakenChild(c, p));
    assert multiset(p.counted) + (rest + deeper) == multiset(p.counted) + rest + deeper;
  }

  lemma TakenConserves(c: Still, p: Progress, stack: seq<Frame>)
    requires Conserves(c, p, multiset{}) && p.stack != [] && p.stack[|p.stack| - 1].directories != []
    requires SameWork(Popped(p.stack), stack)
    ensures Conserves(c, p.(stack := stack), Beneath(c, TakenChild(c, p)))
  {
    hide Conserves, Beneath;
    TakingConserves(c, p);
    var popped := p.(stack := Popped(p.stack));
    HandleMovesConserve(c, popped, stack, Beneath(c, TakenChild(c, p)));
    assert popped.(stack := stack) == p.(stack := stack);
  }

  lemma StartConserves(c: Still, p: Progress, t: nat)
    requires StillTree(c) && p == Progress([], [], [], [c.rootInfo])
    ensures Conserves(c, p, Beneath(c, c.root)) && LeadsTo(c, [], 0, c.rootName, c.root)
    ensures c.world.open(t, c.base, c.rootName) == Ok(c.root) && c.root in c.fs
    ensures multiset(p.counted) <= Whole(c)
  {
  }

  lemma VisitIsSafe(c: Still, p: Progress)
    requires Conserves(c, p, multiset{})
    ensures StillTree(c) && Resolving(c.world, c.base, p.path, p.trail) && multiset(p.counted) <= Whole(c)
  {
    RouteResolves(c, p.path, p.trail);
    ConservedIsPart(c, p, multiset{});
  }

  /** Reading the directory in hand splits what is beneath it into what was counted
      and what its own frame owes. */
  lemma ReadingInHandConserves(c: Still, p: Progress, run: DirId, names: seq<Name>)
    requires StillTree(c) && run in c.fs && multiset(names) == multiset(Names(c.fs[run]))
    requires HandoffConservation.Listed(c.fs, run, names)
    requires Conserves(c, p, Beneath(c, run))
    ensures Conserves(c, p.(counted := p.counted + InfosFor(c.fs[run], names)),
                      Owed(c.fs, c.rank, run, DirsFor(c.fs[run], names)))
  {
    ReadingConserves(c.fs, c.rank, run, names);
  }

  /** A directory with subdirectories becomes a frame owing them. */
  lemma KeepingConserves(c: Still, p: Progress, depth: nat, name: Name, run: DirId, dirs: seq<Name>, stack: seq<Frame>)
    requires StillTree(c) && ListedDirectories(c.fs, run, dirs)
    requires Conserves(c, p, Owed(c.fs, c.rank, run, dirs))
    requires LeadsTo(c, p.trail, depth, name, run)
    requires forall i :: 0 <= i < |p.stack| ==> p.stack[i].depth < depth
    requires SameWork(p.stack + [Frame(depth, None, run, dirs)], stack)
    ensures Conserves(c, Progress(stack, p.path[..depth] + [name], p.trail[..depth] + [run], p.counted), multiset{})
  {
    KeepingOwes(c.fs, c.rank, p.stack, Frame(depth, None, run, dirs), stack);
    KeepingRoutes(c, p.path, p.trail, depth, name, run);
    GrownAncestry(p.stack, p.path, p.trail, Frame(depth, None, run, dirs), name, stack);
  }

  lemma StillBeneath(c: Still, run: DirId)
    requires StillTree(c) && run in c.fs
    ensures StillDirectory(c.world, run, c.fs[run])
  {
  }

  lemma EnteringConserves(c: Still, p: Progress, q: Progress, depth: nat, name: Name, run: DirId, names: seq<Name>,
                          dirs: seq<Name>)
    requires StillTree(c) && run in c.fs && Conserves(c, p, Beneath(c, run))
    requires multiset(names) == multiset(Names(c.fs[run])) && forall n :: n in names ==> n in Names(c.fs[run])
    requires dirs == DirsFor(c.fs[run], names) && q.counted == p.counted + InfosFor(c.fs[run], names)
    requires LeadsTo(c, p.trail, depth, name, run)
    requires forall i :: 0 <= i < |p.stack| ==> p.stack[i].depth < depth
    requires if dirs == [] then q.stack == p.stack && q.path == p.path && q.trail == p.trail
             else && SameWork(p.stack + [Frame(depth, None, run, dirs)], q.stack)
                  && depth <= |p.path| && q.path == p.path[..depth] + [name] && q.trail == p.trail[..depth] + [run]
    ensures Conserves(c, q, multiset{})
  {
    ReadingInHandConserves(c, p, run, names);
    var read := p.(counted := q.counted);
    if dirs == [] {
      assert q == read;
    } else {
      KeepingConserves(c, read, depth, name, run, dirs, q.stack);
      assert q == Progress(q.stack, p.path[..depth] + [name], p.trail[..depth] + [run], q.counted);
    }
  }

  lemma KeepingOwes(fs: Filesystem, rank: DirId -> nat, stack: seq<Frame>, frame: Frame, grown: seq<Frame>)
    requires FiniteTree(fs, rank) && FramesListed(fs, stack) && ListedDirectories(fs, frame.identity, frame.directories)
    requires SameWork(stack + [frame], grown)
    ensures FramesListed(fs, grown)
    ensures Owing(fs, rank, grown) == Owing(fs, rank, stack) + Owed(fs, rank, frame.identity, frame.directories)
  {
    var plain := stack + [frame];
    assert plain[..|stack|] == stack;
    assert FramesListed(fs, plain);
    SameWorkOwesTheSame(fs, rank, plain, grown);
  }

  lemma KeepingRoutes(c: Still, path: seq<Name>, trail: seq<DirId>, depth: nat, name: Name, run: DirId)
    requires Route(c, path, trail) && depth <= |trail| && LeadsTo(c, trail, depth, name, run)
    ensures Route(c, path[..depth] + [name], trail[..depth] + [run])
  {
    hide LeadsTo;
    var longerPath, longerTrail := path[..depth] + [name], trail[..depth] + [run];
    LeadsStill(c, trail, longerTrail, depth, name, run);
    forall i | 0 <= i < depth ensures LeadsTo(c, longerTrail, i, longerPath[i], longerTrail[i]) {
      assert LeadsTo(c, trail, i, path[i], trail[i]);
      LeadsStill(c, trail, longerTrail, i, path[i], trail[i]);
    }
  }

  lemma LeadsStill(c: Still, a: seq<DirId>, b: seq<DirId>, depth: nat, name: Name, run: DirId)
    requires LeadsTo(c, a, depth, name, run) && depth <= |b| && (depth > 0 ==> b[depth - 1] == a[depth - 1])
    ensures LeadsTo(c, b, depth, name, run)
  {
  }


  // ----- What a walk may cost -----

  /** Subdirectories listed and not yet opened. */
  function Pending(stack: seq<Frame>): nat {
    if stack == [] then 0 else Pending(stack[..|stack| - 1]) + |stack[|stack| - 1].directories|
  }

  function DirsIn(infos: seq<Info>): nat {
    if infos == [] then 0 else DirsIn(infos[..|infos| - 1]) + (if IsDirectory(infos[|infos| - 1]) then 1 else 0)
  }

  lemma {:induction false} DirsInAppend(a: seq<Info>, b: seq<Info>)
    ensures DirsIn(a + b) == DirsIn(a) + DirsIn(b)
    decreases |b|
  {
    if b == [] {
      assert a + b == a;
    } else {
      assert (a + b)[..|a + b| - 1] == a + b[..|b| - 1];
      DirsInAppend(a, b[..|b| - 1]);
    }
  }

  lemma {:induction false} DirsInWithout(a: seq<Info>, i: nat)
    requires i < |a|
    ensures DirsIn(a) == DirsIn(a[..i] + a[i + 1..]) + (if IsDirectory(a[i]) then 1 else 0)
  {
    hide IsDirectory;
    assert a == (a[..i] + [a[i]]) + a[i + 1..];
    assert [a[i]][..0] == [];
    DirsInAppend(a[..i] + [a[i]], a[i + 1..]);
    DirsInAppend(a[..i], [a[i]]);
    DirsInAppend(a[..i], a[i + 1..]);
  }

  /** Part of a collection of entries holds no more directories than all of it. */
  lemma {:induction false} PartHasNoMoreDirs(part: seq<Info>, whole: seq<Info>)
    requires multiset(part) <= multiset(whole)
    ensures DirsIn(part) <= DirsIn(whole)
    decreases |part|
  {
    if part != [] {
      var front, last := part[..|part| - 1], part[|part| - 1];
      assert part == front + [last];
      assert last in multiset(whole);
      var i :| 0 <= i < |whole| && whole[i] == last;
      WithoutOne(whole, i);
      DirsInWithout(whole, i);
      PartHasNoMoreDirs(front, whole[..i] + whole[i + 1..]);
    }
  }

  lemma {:induction false} ListedDirsAreCounted(entries: seq<Entry>, names: seq<Name>)
    requires forall n :: n in names ==> n in Names(entries)
    ensures DirsIn(InfosFor(entries, names)) == |DirsFor(entries, names)|
    decreases |names|
  {
    if names != [] {
      ListedDirsAreCounted(entries, names[1..]);
      var head := InfoOf(entries, names[0]);
      assert [head][..0] == [];
      DirsInAppend([head], InfosFor(entries, names[1..]));
    }
  }

  lemma {:induction false} SameWorkPendsTheSame(a: seq<Frame>, b: seq<Frame>)
    requires SameWork(a, b)
    ensures Pending(a) == Pending(b)
    decreases |a|
  {
    if a != [] {
      SameWorkPendsTheSame(a[..|a| - 1], b[..|b| - 1]);
    }
  }

  lemma TakingPendsOneLess(stack: seq<Frame>, after: seq<Frame>)
    requires stack != [] && stack[|stack| - 1].directories != [] && SameWork(Popped(stack), after)
    ensures Pending(after) + 1 == Pending(stack)
  {
    var last := |stack| - 1;
    var popped := stack[last].(directories := stack[last].directories[1..]);
    assert stack[last := popped][..last] == stack[..last];
    SameWorkPendsTheSame(Popped(stack), after);
  }

  lemma KeepingPends(stack: seq<Frame>, frame: Frame, after: seq<Frame>)
    requires SameWork(stack + [frame], after)
    ensures Pending(after) == Pending(stack) + |frame.directories|
  {
    assert (stack + [frame])[..|stack|] == stack;
    SameWorkPendsTheSame(stack + [frame], after);
  }

  /** The most opens one turn of the loop can take: the whole ancestry again, and
      the subdirectory itself. */
  ghost function TurnCost(c: Still): nat {
    c.rank(c.root) + 2
  }

  ghost function Folders(c: Still): nat {
    if StillTree(c) then DirsIn([c.rootInfo] + Below(c.fs, c.rank, c.root)) else 0
  }

  /** A budget that covers a turn for every directory of the tree. */
  ghost predicate Enough(c: Still, budget: nat) {
    Folders(c) * TurnCost(c) <= budget
  }

  /** The directories counted and no longer pending were opened, at no more than a
      turn's cost each. */
  ghost predicate Frugal(c: Still, stack: seq<Frame>, counted: seq<Info>, opens: nat, budget: nat) {
    StillTree(c) ==>
        && Pending(stack) <= DirsIn(counted)
        && budget <= opens + (DirsIn(counted) - Pending(stack)) * TurnCost(c)
  }

  lemma LeadsDown(c: Still, trail: seq<DirId>, depth: nat, name: Name, run: DirId)
    requires FiniteTree(c.fs, c.rank) && LeadsTo(c, trail, depth, name, run)
    ensures if depth == 0 then run == c.root else trail[depth - 1] in c.fs && c.rank(run) < c.rank(trail[depth - 1])
  {
    hide FiniteTree;
    if depth > 0 {
      ChildIsPresent(c.fs, c.rank, trail[depth - 1], name);
    }
  }

  lemma {:induction false} RanksFall(c: Still, path: seq<Name>, trail: seq<DirId>, i: nat)
    requires StillTree(c) && Route(c, path, trail) && i < |trail|
    ensures c.rank(trail[i]) + i <= c.rank(c.root)
    decreases i
  {
    hide LeadsTo, StillTree, FiniteTree;
    TreeIsFinite(c);
    LeadsDown(c, trail, i, path[i], trail[i]);
    if i > 0 {
      RanksFall(c, path, trail, i - 1);
    }
  }

  /** No ancestry is longer than the tree is deep. */
  lemma RouteIsShort(c: Still, path: seq<Name>, trail: seq<DirId>)
    requires StillTree(c) && Route(c, path, trail)
    ensures |path| < TurnCost(c)
  {
    if |path| > 0 {
      RanksFall(c, path, trail, |trail| - 1);
    }
  }

  lemma FewerTurns(turns: nat, folders: nat, cost: nat, opens: nat, budget: nat)
    requires turns < folders && folders * cost <= budget <= opens + turns * cost
    ensures opens >= cost
  {
    assert (turns + 1) * cost <= folders * cost;
    assert (turns + 1) * cost == turns * cost + cost;
  }

  lemma CountedFolders(c: Still, counted: seq<Info>)
    requires StillTree(c) && multiset(counted) <= Whole(c)
    ensures DirsIn(counted) <= Folders(c)
  {
    hide DirsIn, Below;
    var whole := [c.rootInfo] + Below(c.fs, c.rank, c.root);
    assert multiset(whole) == Whole(c);
    PartHasNoMoreDirs(counted, whole);
  }

  lemma ConservedRoute(c: Still, p: Progress)
    requires Conserves(c, p, multiset{})
    ensures StillTree(c) && Route(c, p.path, p.trail) && multiset(p.counted) <= Whole(c)
  {
    hide StillTree, Route, Whole;
  }

  lemma SomePending(stack: seq<Frame>)
    requires stack != [] && stack[|stack| - 1].directories != []
    ensures Pending(stack) >= 1
  {
  }

  /** A walk that has been frugal can afford its next turn. */
  lemma NextTurnIsAffordable(c: Still, p: Progress, opens: nat, budget: nat)
    requires Conserves(c, p, multiset{}) && p.stack != [] && p.stack[|p.stack| - 1].directories != []
    requires Frugal(c, p.stack, p.counted, opens, budget)
    ensures StillTree(c) && |p.path| < TurnCost(c)
    ensures Enough(c, budget) ==> opens >= TurnCost(c)
  {
    hide Conserves, StillTree, Route, Whole, DirsIn, Pending, Folders, TurnCost;
    ConservedRoute(c, p);
    RouteIsShort(c, p.path, p.trail);
    CountedFolders(c, p.counted);
    SomePending(p.stack);
    if Enough(c, budget) {
      FewerTurns(DirsIn(p.counted) - Pending(p.stack), Folders(c), TurnCost(c), opens, budget);
    }
  }

  /** Reading a directory leaves its subdirectories pending. */
  lemma EnteringPends(entries: seq<Entry>, names: seq<Name>, before: seq<Info>, after: seq<Info>, stack: seq<Frame>,
                      frame: Frame, grown: seq<Frame>)
    requires forall n :: n in names ==> n in Names(entries)
    requires after == before + InfosFor(entries, names) && frame.directories == DirsFor(entries, names)
    requires if frame.directories == [] then grown == stack else SameWork(stack + [frame], grown)
    ensures DirsIn(after) + Pending(stack) == DirsIn(before) + Pending(grown)
  {
    hide Pending, DirsIn;
    DirsInAppend(before, InfosFor(entries, names));
    ListedDirsAreCounted(entries, names);
    if frame.directories != [] {
      KeepingPends(stack, frame, grown);
    }
  }

  lemma TurnStaysFrugal(c: Still, stack: seq<Frame>, counted: seq<Info>, opens: nat, budget: nat,
                        stack': seq<Frame>, counted': seq<Info>, opens': nat)
    requires Frugal(c, stack, counted, opens, budget)
    requires StillTree(c) ==>
               && opens <= opens' + TurnCost(c)
               && DirsIn(counted') + Pending(stack) == DirsIn(counted) + Pending(stack') + 1
    ensures Frugal(c, stack', counted', opens', budget)
  {
    hide StillTree, DirsIn, Pending, TurnCost;
    var turns, cost := DirsIn(counted) - Pending(stack), TurnCost(c);
    assert (turns + 1) * cost == turns * cost + cost;
  }

  lemma NothingToSave(c: Still, stack: seq<Frame>, counted: seq<Info>, opens: nat, budget: nat)
    ensures !StillTree(c) ==> Frugal(c, stack, counted, opens, budget)
  {
    hide StillTree;
  }

  lemma FinishedFrameStaysFrugal(c: Still, stack: seq<Frame>, counted: seq<Info>, opens: nat, budget: nat)
    requires Frugal(c, stack, counted, opens, budget) && stack != [] && stack[|stack| - 1].directories == []
    ensures Frugal(c, stack[..|stack| - 1], counted, opens, budget)
  {
    hide StillTree;
  }

  /** The first open is affordable. */
  lemma FrugalStart(c: Still, budget: nat)
    requires StillTree(c) && IsDirectory(c.rootInfo)
    ensures Enough(c, budget) ==> budget > 0
    ensures DirsIn([c.rootInfo]) == 1 && Pending([]) == 0
  {
    hide StillTree;
    TreeIsFinite(c);
    assert [c.rootInfo][..0] == [];
    DirsInAppend([c.rootInfo], Below(c.fs, c.rank, c.root));
    assert 1 * TurnCost(c) <= Folders(c) * TurnCost(c);
  }

  /** It leaves the walk frugal. */
  lemma FirstFolder(c: Still, budget: nat, stack: seq<Frame>, counted: seq<Info>, opens: nat)
    requires StillTree(c) ==> DirsIn(counted) == 1 + Pending(stack) && budget <= opens + 1
    ensures Frugal(c, stack, counted, opens, budget)
  {
    hide StillTree, DirsIn, Pending;
    assert 1 * TurnCost(c) == TurnCost(c);
  }

  // ----- The handles a stack owns -----

  function InHand(run: Option<DirId>): multiset<DirId> {
    if run.Some? then multiset{run.value} else multiset{}
  }

  function HeldBy(stack: seq<Frame>): multiset<DirId> {
    if stack == [] then multiset{} else HeldBy(stack[..|stack| - 1]) + InHand(stack[|stack| - 1].run)
  }

  lemma {:induction false} HeldAfterUpdate(stack: seq<Frame>, i: nat, run: Option<DirId>)
    requires i < |stack|
    ensures HeldBy(stack[i := stack[i].(run := run)]) + InHand(stack[i].run) == HeldBy(stack) + InHand(run)
    decreases |stack|
  {
    hide InHand;
    var last, frame := |stack| - 1, stack[i].(run := run);
    if i == last {
      assert stack[i := frame][..last] == stack[..last];
    } else {
      assert stack[i := frame][..last] == stack[..last][i := frame];
      HeldAfterUpdate(stack[..last], i, run);
      var top := InHand(stack[last].run);
      assert HeldBy(stack[..last][i := frame]) + top + InHand(stack[i].run)
          == HeldBy(stack[..last][i := frame]) + InHand(stack[i].run) + top;
    }
  }

  lemma {:induction false} FrameIsHeld(stack: seq<Frame>, i: nat)
    requires i < |stack| && stack[i].run.Some?
    ensures stack[i].run.value in HeldBy(stack)
    decreases |stack|
  {
    if i < |stack| - 1 {
      FrameIsHeld(stack[..|stack| - 1], i);
    }
  }

  lemma {:induction false} NoneHeld(stack: seq<Frame>)
    requires forall i :: 0 <= i < |stack| ==> stack[i].run.None?
    ensures HeldBy(stack) == multiset{}
    decreases |stack|
  {
    if stack != [] {
      NoneHeld(stack[..|stack| - 1]);
    }
  }

  lemma {:induction false} SameRunsHeld(a: seq<Frame>, b: seq<Frame>)
    requires |a| == |b| && forall i :: 0 <= i < |a| ==> a[i].run == b[i].run
    ensures HeldBy(a) == HeldBy(b)
    decreases |a|
  {
    if a != [] {
      SameRunsHeld(a[..|a| - 1], b[..|b| - 1]);
    }
  }

  lemma HeldWithoutTheLast(stack: seq<Frame>)
    requires stack != [] && stack[|stack| - 1].run.None?
    ensures HeldBy(stack[..|stack| - 1]) == HeldBy(stack)
  {
  }

  lemma HeldWithOneMore(stack: seq<Frame>, frame: Frame)
    ensures HeldBy(stack + [frame]) == HeldBy(stack) + InHand(frame.run)
  {
    hide InHand;
    assert (stack + [frame])[..|stack|] == stack;
  }

  lemma OneMoreHandle(held: multiset<DirId>, inHand: multiset<DirId>, dir: DirId)
    ensures held + inHand + multiset{dir} == held + (inHand + multiset{dir})
    ensures |held + inHand + multiset{dir}| == |held| + |inHand| + 1
  {
  }

  // ----- Leaving no listed name behind -----

  ghost predicate Owes(stack: seq<Frame>, dir: DirId, name: Name) {
    exists i :: 0 <= i < |stack| && stack[i].identity == dir && name in stack[i].directories
  }

  /** Every subdirectory an enumeration listed is settled or still waiting on the stack. */
  ghost predicate AllSettled(world: World, trace: seq<Act>, log: seq<Enumeration>, stack: seq<Frame>) {
    forall k, n :: 0 <= k < |log| && n in log[k].listed ==>
      Settled(world, trace, log[k].dir, n) || Owes(stack, log[k].dir, n)
  }

  lemma NothingListedYet(world: World, trace: seq<Act>)
    ensures AllSettled(world, trace, [], [])
  {
  }

  /** A name taken off the deepest frame and settled leaves nothing behind. */
  lemma TakenSettles(world: World, trace: seq<Act>, log: seq<Enumeration>, stack: seq<Frame>,
                     longer: seq<Act>, after: seq<Frame>)
    requires AllSettled(world, trace, log, stack) && trace <= longer
    requires stack != [] && stack[|stack| - 1].directories != [] && SameWork(Popped(stack), after)
    requires Settled(world, longer, stack[|stack| - 1].identity, stack[|stack| - 1].directories[0])
    ensures AllSettled(world, longer, log, after)
  {
    hide Settled;
    forall k, n | 0 <= k < |log| && n in log[k].listed
      ensures Settled(world, longer, log[k].dir, n) || Owes(after, log[k].dir, n)
    {
      if Settled(world, trace, log[k].dir, n) {
        SettledStays(world, trace, longer, log[k].dir, n);
      } else {
        OwedAfterTaking(stack, after, log[k].dir, n);
      }
    }
  }

  lemma OwedAfterTaking(stack: seq<Frame>, after: seq<Frame>, dir: DirId, name: Name)
    requires stack != [] && stack[|stack| - 1].directories != [] && SameWork(Popped(stack), after)
    requires Owes(stack, dir, name)
    ensures Owes(after, dir, name) || (dir == stack[|stack| - 1].identity && name == stack[|stack| - 1].directories[0])
  {
    var i :| 0 <= i < |stack| && stack[i].identity == dir && name in stack[i].directories;
    var last := |stack| - 1;
    if i < last {
      assert after[i].identity == dir && name in after[i].directories;
    } else if name != stack[last].directories[0] {
      assert name in stack[last].directories[1..];
      assert after[last].identity == dir && name in after[last].directories;
    }
  }

  /** A directory read leaves its subdirectories waiting. */
  lemma ReadSettles(world: World, trace: seq<Act>, log: seq<Enumeration>, stack: seq<Frame>,
                    e: Enumeration, depth: nat, after: seq<Frame>)
    requires AllSettled(world, trace, log, stack)
    requires if e.listed == [] then after == stack else SameWork(stack + [Frame(depth, None, e.dir, e.listed)], after)
    ensures AllSettled(world, trace, log + [e], after)
  {
    hide Settled;
    var longer := log + [e];
    forall k, n | 0 <= k < |longer| && n in longer[k].listed
      ensures Settled(world, trace, longer[k].dir, n) || Owes(after, longer[k].dir, n)
    {
      if k == |log| {
        assert after[|stack|].identity == e.dir && n in after[|stack|].directories;
      } else if !Settled(world, trace, log[k].dir, n) {
        var i :| 0 <= i < |stack| && stack[i].identity == log[k].dir && n in stack[i].directories;
        assert e.listed != [] ==> (stack + [Frame(depth, None, e.dir, e.listed)])[i] == stack[i];
        assert after[i].identity == log[k].dir && n in after[i].directories;
      }
    }
  }

  lemma FinishedSettles(world: World, trace: seq<Act>, log: seq<Enumeration>, stack: seq<Frame>, longer: seq<Act>)
    requires AllSettled(world, trace, log, stack) && trace <= longer
    requires stack != [] && stack[|stack| - 1].directories == []
    ensures AllSettled(world, longer, log, stack[..|stack| - 1])
  {
    hide Settled;
    var after := stack[..|stack| - 1];
    forall k, n | 0 <= k < |log| && n in log[k].listed
      ensures Settled(world, longer, log[k].dir, n) || Owes(after, log[k].dir, n)
    {
      if Settled(world, trace, log[k].dir, n) {
        SettledStays(world, trace, longer, log[k].dir, n);
      } else {
        var i :| 0 <= i < |stack| && stack[i].identity == log[k].dir && n in stack[i].directories;
        assert after[i] == stack[i];
      }
    }
  }

  /** With nothing left on the stack, nothing was left out. */
  lemma NothingIsLeftOut(world: World, trace: seq<Act>, longer: seq<Act>, base: DirId, name: Name)
    requires AllSettled(world, trace, Enumerations(trace), []) && Settled(world, trace, base, name)
    requires trace <= longer && Enumerations(longer) == Enumerations(trace)
    ensures NothingLeftOut(world, longer, base, name)
  {
    hide Settled, Enumerations;
    SettledStays(world, trace, longer, base, name);
    var log := Enumerations(longer);
    forall k, n | 0 <= k < |log| && n in log[k].listed ensures Settled(world, longer, log[k].dir, n) {
      SettledStays(world, trace, longer, log[k].dir, n);
    }
  }

  // ----- The next subdirectory -----

  predicate HasNext(stack: seq<Frame>) {
    stack != [] && stack[|stack| - 1].directories != []
  }

  function TopDir(stack: seq<Frame>): DirId {
    if stack == [] then 0 else stack[|stack| - 1].identity
  }

  function TopDepth(stack: seq<Frame>): nat {
    if stack == [] then 0 else stack[|stack| - 1].depth
  }

  function TopName(stack: seq<Frame>): Name {
    if HasNext(stack) then stack[|stack| - 1].directories[0] else []
  }

  ghost predicate TookNext(stack: seq<Frame>, after: seq<Frame>) {
    HasNext(stack) && SameWork(Popped(stack), after)
  }

  /** The name taken off the deepest frame, which stays only if it has others. */
  lemma TakingTookNext(stack: seq<Frame>, taken: seq<Frame>, after: seq<Frame>)
    requires HasNext(stack)
    requires var last, top := |stack| - 1, stack[|stack| - 1];
      && taken == stack[last := top.(directories := top.directories[1..])]
      && SameWork(if taken[last].directories == [] then taken[..last] else taken, after)
    ensures TookNext(stack, after)
  {
    var last := |stack| - 1;
    assert taken[..last] == stack[..last];
  }

  lemma TakenStaysShallow(taken: seq<Frame>, after: seq<Frame>, depth: nat)
    requires taken != [] && forall i :: 0 <= i < |taken| ==> taken[i].depth <= depth
    requires var last := |taken| - 1; SameWork(if taken[last].directories == [] then taken[..last] else taken, after)
    ensures forall i :: 0 <= i < |after| ==> after[i].depth <= depth
  {
  }

  lemma ShorterSameWork(stack: seq<Frame>, after: seq<Frame>)
    requires stack != [] && SameWork(stack, after)
    ensures SameWork(stack[..|stack| - 1], after[..|after| - 1])
  {
  }

  // ----- One directory -----

  ghost predicate FramesWereListed(log: seq<Enumeration>, stack: seq<Frame>) {
    forall i :: 0 <= i < |stack| ==> WasListed(log, stack[i].identity, stack[i].directories)
  }

  lemma WithoutTheDeepest(stack: seq<Frame>, path: seq<Name>, trail: seq<DirId>, log: seq<Enumeration>)
    requires stack != [] && Ancestry(stack, path, trail) && FramesWereListed(log, stack)
    ensures Ancestry(stack[..|stack| - 1], path, trail) && FramesWereListed(log, stack[..|stack| - 1])
  {
    hide WasListed;
  }

  lemma AncestryIsNamed(stack: seq<Frame>, path: seq<Name>, trail: seq<DirId>)
    requires Ancestry(stack, path, trail)
    ensures |path| == |trail|
  {
  }

  lemma SameWorkTwice(a: seq<Frame>, b: seq<Frame>, c: seq<Frame>)
    requires SameWork(a, b) && SameWork(b, c)
    ensures SameWork(a, c) && |a| == |b| == |c|
    ensures a != [] ==> a[|a| - 1].depth == b[|b| - 1].depth == c[|c| - 1].depth
  {
  }

  lemma SameWorkSameAncestry(stack: seq<Frame>, after: seq<Frame>, path: seq<Name>, trail: seq<DirId>)
    requires Ancestry(stack, path, trail) && SameWork(stack, after)
    ensures Ancestry(after, path, trail)
  {
  }

  lemma AllAbove(stack: seq<Frame>, path: seq<Name>, trail: seq<DirId>, reached: nat)
    requires stack != [] && Ancestry(stack, path, trail) && Above(stack, stack[|stack| - 1].depth + 1, reached)
    ensures reached == |stack|
  {
  }

  lemma AboveAfter(stack: seq<Frame>, after: seq<Frame>, depth: nat, reached: nat)
    requires SameWork(stack, after)
    ensures Above(stack, depth, reached) ==> Above(after, depth, reached)
    ensures stack != [] ==> stack[|stack| - 1].depth == after[|after| - 1].depth
  {
  }

  lemma FramesStayListed(stack: seq<Frame>, after: seq<Frame>, log: seq<Enumeration>)
    requires SameWork(stack, after)
    ensures FramesWereListed(log, stack) ==> FramesWereListed(log, after)
    ensures |stack| == |after|
    ensures stack != [] ==>
              var last := |stack| - 1;
              stack[last].directories == after[last].directories && stack[last].identity == after[last].identity
  {
    hide WasListed;
  }

  lemma GrownFramesWereListed(log: seq<Enumeration>, stack: seq<Frame>, frame: Frame, grown: seq<Frame>)
    requires FramesWereListed(log, stack) && WasListed(log, frame.identity, frame.directories)
    requires SameWork(stack + [frame], grown)
    ensures FramesWereListed(log, grown)
  {
    hide WasListed;
    var plain := stack + [frame];
    forall i | 0 <= i < |grown| ensures WasListed(log, grown[i].identity, grown[i].directories) {
      assert i < |stack| ==> plain[i] == stack[i];
    }
  }

  lemma StillLstat(world: World, run: DirId, entries: seq<Entry>, t: nat, child: Name)
    requires StillDirectory(world, run, entries) && child in Names(entries)
    ensures world.lstat(t, run, child) == Ok(InfoOf(entries, child))
  {
  }

  lemma StillListing(world: World, run: DirId, entries: seq<Entry>, t: nat)
    requires StillDirectory(world, run, entries)
    ensures world.list(t, run).Ok? && multiset(SortNames(world.list(t, run).value)) == multiset(Names(entries))
    ensures forall n :: n in SortNames(world.list(t, run).value) ==> n in Names(entries)
  {
    var sorted := SortNames(world.list(t, run).value);
    SortNamesSorts(world.list(t, run).value);
    forall n | n in sorted ensures n in Names(entries) {
      assert n in multiset(sorted);
    }
  }

  lemma SortedKeepsNames(names: seq<Name>)
    ensures forall n :: n in SortNames(names) <==> n in names
  {
    SortNamesSorts(names);
    forall n ensures n in SortNames(names) <==> n in names {
      assert n in multiset(SortNames(names)) <==> n in multiset(names);
    }
  }

  lemma ReadToTheEnd(trace: seq<Act>, at: nat, t: nat, dir: DirId, names: seq<Name>, kept: seq<Name>)
    requires at < |trace| && trace[at] == Act.Listed(t, dir, names)
    requires forall n :: n in names ==> Accounted(trace, at, dir, n, kept)
    requires forall n :: n in kept ==> CountedAsDirectory(trace, dir, n)
    ensures ReadWhole(trace, dir, kept)
  {
    hide Accounted, CountedAsDirectory;
    assert ListingReadWhole(trace, at, dir, kept);
  }

  lemma NothingReadYet(entries: seq<Entry>)
    ensures InfosFor(entries, []) == [] && DirsFor(entries, []) == []
  {
  }

  lemma CountingOne(t: Tally, info: Info)
    ensures CountAll(t, [info]) == Count(t, info)
  {
    assert [info][1..] == [];
  }

  /** A failure names the ancestor remembered exactly when it is at the depth remembered. */
  lemma SameLoss(path: seq<Name>, lostDepth: int, depthLost: nat, ancestor: Option<seq<Name>>)
    requires depthLost < |path|
    requires ancestor.None? ==> lostDepth == -1
    requires ancestor.Some? ==> || (0 <= lostDepth < |path| && ancestor.value == path[..lostDepth + 1])
                                || (lostDepth == -1 && |ancestor.value| > |path|)
    ensures depthLost == lostDepth <==> ancestor == Some(path[..depthLost + 1])
  {
  }

  /** One lost ancestor is one loss, told apart by the depth it sits at. */
  lemma LossIsNoted(path: seq<Name>, lostDepth: int, depthLost: nat, trace: seq<Act>, moved: bool)
    requires depthLost < |path|
    requires var ancestor := LossesOf(trace).ancestor;
      && (ancestor.None? ==> lostDepth == -1)
      && (ancestor.Some? ==> || (0 <= lostDepth < |path| && ancestor.value == path[..lostDepth + 1])
                             || (lostDepth == -1 && |ancestor.value| > |path|))
    ensures var losses, after := LossesOf(trace), LossesAfter(LossesOf(trace), Lost(path[..depthLost + 1], moved));
      && after.ancestor == Some(path[..depthLost + 1]) && after.replaced + after.vanished > 0
      && after.replaced == losses.replaced + (if depthLost != lostDepth && moved then 1 else 0)
      && after.vanished == losses.vanished + (if depthLost != lostDepth && !moved then 1 else 0)
  {
    hide LossesOf;
    SameLoss(path, lostDepth, depthLost, LossesOf(trace).ancestor);
    LostAncestorWasReported(trace);
  }

  lemma OpeningStays(world: World, before: seq<Act>, longer: seq<Act>, via: DirId, name: Name, next: Result<DirId,
                     WalkError>)
    requires before <= longer
    ensures next.Ok? && OpenedAs(before, via, name, next.value) ==> OpenedAs(longer, via, name, next.value)
    ensures Settled(world, before, via, name) ==> Settled(world, longer, via, name)
  {
    hide OpenedAs, Settled;
    if next.Ok? && OpenedAs(before, via, name, next.value) {
      OpenedAsStays(before, longer, via, name, next.value);
    }
    if Settled(world, before, via, name) {
      SettledStays(world, before, longer, via, name);
    }
  }

  lemma FiguresOfTree(c: Still, start: Tally, counted: seq<Info>)
    ensures StillTree(c) && multiset(counted) <= Whole(c) && Consistent([c.rootInfo] + Below(c.fs, c.rank, c.root)) ==>
              && NoMore(CountAll(start, counted), CountAll(start, [c.rootInfo] + Below(c.fs, c.rank, c.root)))
              && (multiset(counted) == Whole(c) ==>
                    CountAll(start, counted) == RecursiveSum(c.fs, c.rank, Count(start, c.rootInfo), c.root,
                                                             c.fs[c.root]))
  {
    if StillTree(c) && multiset(counted) <= Whole(c) && Consistent([c.rootInfo] + Below(c.fs, c.rank, c.root)) {
      var whole := [c.rootInfo] + Below(c.fs, c.rank, c.root);
      PartialIsNoMore(start, counted, whole);
      if multiset(counted) == Whole(c) {
        OrderDoesNotMatter(start, whole, counted);
        assert whole[1..] == Below(c.fs, c.rank, c.root);
        RecursiveSumCountsBelow(c.fs, c.rank, Count(start, c.rootInfo), c.root, c.fs[c.root]);
      }
    }
  }

  lemma {:induction false} InfosForAppend(entries: seq<Entry>, names: seq<Name>, n: Name)
    requires forall x :: x in names ==> x in Names(entries)
    requires n in Names(entries)
    ensures InfosFor(entries, names + [n]) == InfosFor(entries, names) + [InfoOf(entries, n)]
    decreases |names|
  {
    hide InfoOf, Names;
    if names == [] {
      assert names + [n] == [n];
    } else {
      assert (names + [n])[1..] == names[1..] + [n];
      InfosForAppend(entries, names[1..], n);
    }
  }

  lemma {:induction false} DirsForAppend(entries: seq<Entry>, names: seq<Name>, n: Name)
    requires forall x :: x in names ==> x in Names(entries)
    requires n in Names(entries)
    ensures DirsFor(entries, names + [n])
            == DirsFor(entries, names) + (if IsDirectory(InfoOf(entries, n)) then [n] else [])
    decreases |names|
  {
    hide InfoOf, IsDirectory, Names;
    if names == [] {
      assert names + [n] == [n];
    } else {
      var head := if IsDirectory(InfoOf(entries, names[0])) then [names[0]] else [];
      var last := if IsDirectory(InfoOf(entries, n)) then [n] else [];
      assert (names + [n])[0] == names[0] && (names + [n])[1..] == names[1..] + [n];
      DirsForAppend(entries, names[1..], n);
      assert head + (DirsFor(entries, names[1..]) + last) == (head + DirsFor(entries, names[1..])) + last;
    }
  }
}
