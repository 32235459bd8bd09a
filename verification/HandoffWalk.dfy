/** One iterative, handle-bounded walk over one retained run's tree.
    Source: agent/handoff_accounting.go, walkHandoffTree and handoffWalk. */
module HandoffWalk {
  import opened Common
  import opened HandoffTally
  import opened HandoffWorld
  import opened HandoffConservation
  import opened HandoffTrace
  import opened HandoffFrames

  class HandoffWalk {
    const world: World
    const base: DirId
    const rootName: Name
    var tally: Tally
    var vanished: nat
    var replaced: nat
    var closeFailures: nat
    var reopenOpens: nat
    var reopenFailures: nat
    var stack: seq<Frame>
    var path: seq<Name>
    var firstOpen: nat
    var opens: nat
    var now: nat
    var lostDepth: int
    var openFrames: int
    var liveHandles: int
    var peakOpenFrames: int

    // Everything the walk did, in order.
    ghost var trace: seq<Act>
    // Where the tally started and every entry added to it since.
    ghost const start: Tally
    ghost var counted: seq<Info>
    // The directory each component of `path` led to.
    ghost var trail: seq<DirId>
    ghost var log: seq<Enumeration>
    // The unchanging tree this walk is over, when there is one.
    ghost const still: Still
    // The opens it was given.
    ghost const budget: nat

    /** The tally is what was counted, beginning with the entry the walk is for. */
    ghost predicate Tallied()
      reads `tally, `counted
    {
      tally == CountAll(start, counted) && counted != [] && counted[0] == still.rootInfo
    }

    /** The trace is lawful, and what was counted, enumerated and spent is what it says. */
    ghost predicate Traced()
      reads `trace, `log, `counted, `opens
    {
      && Lawful(world, base, trace)
      && log == Enumerations(trace)
      && counted == [still.rootInfo] + CountedIn(trace)
      && opens + Attempts(trace) == budget
    }

    /** The handles open are the frames' own and those in hand, and the figures kept
        about them are true: there were never more than two beyond the frames' peak. */
    ghost predicate Held(inHand: multiset<DirId>)
      reads `trace, `stack, `openFrames, `liveHandles, `peakOpenFrames
    {
      && LiveOf(trace) == HeldBy(stack) + inHand
      && openFrames == |HeldBy(stack)|
      && liveHandles == |LiveOf(trace)|
      && openFrames <= peakOpenFrames
      && PeakOf(trace) <= peakOpenFrames + 2
    }

    /** The losses reported are the trace's, and the depth remembered is where the last
        ancestor lost sits, unless the walk has unwound past it. */
    ghost predicate Losing()
      reads `trace, `replaced, `vanished, `lostDepth, `path
    {
      var losses := LossesOf(trace);
      && replaced == losses.replaced && vanished == losses.vanished
      && (losses.ancestor.None? ==> lostDepth == -1)
      && (losses.ancestor.Some? ==>
            || (0 <= lostDepth < |path| && losses.ancestor.value == path[..lostDepth + 1])
            || (lostDepth == -1 && |losses.ancestor.value| > |path|))
    }

    ghost predicate Shape()
      reads `stack, `path, `trail
    {
      Ancestry(stack, path, trail)
    }

    /** Frames owning a handle are exactly the stack from `firstOpen` on, there are
        at most MAX_OPEN_FRAMES of them, and besides those only `inHand` is open. */
    ghost predicate Handles(inHand: multiset<DirId>)
      reads `stack, `firstOpen, `openFrames, `peakOpenFrames, `liveHandles, `trace, `log, `counted, `opens
    {
      && firstOpen <= |stack|
      && |stack| - firstOpen <= MAX_OPEN_FRAMES
      && (forall i :: 0 <= i < |stack| ==> stack[i].run == if i < firstOpen then None else Some(stack[i].identity))
      && openFrames == |stack| - firstOpen
      && peakOpenFrames <= MAX_OPEN_FRAMES
      && Held(inHand) && Traced()
    }

    ghost predicate Logged()
      reads `stack, `log
    {
      FramesWereListed(log, stack) && OpenedByListedNames(log, base, rootName)
    }

    ghost method Note(a: Act)
      requires Lawful(world, base, trace) && ActOk(world, base, trace, a)
      modifies `trace
      ensures trace == old(trace) + [a] && Lawful(world, base, trace)
      ensures LiveOf(trace) == LiveAfter(LiveOf(old(trace)), a)
      ensures PeakOf(trace) == Most(PeakOf(old(trace)), |LiveOf(trace)|)
      ensures LossesOf(trace) == LossesAfter(LossesOf(old(trace)), a)
      ensures Attempts(trace) == Attempts(old(trace)) + (if a.Opened? || a.OpenFailed? then 1 else 0)
      ensures CountedIn(trace) == CountedIn(old(trace)) + (if a.Counted? then [a.info] else [])
      ensures Enumerations(trace) == Enumerations(old(trace)) + (if a.Enumerated? then [a.e] else [])
      ensures OnlyLooks(a) ==> FootingOf(trace) == FootingOf(old(trace))
      ensures a.Closed? ==> PeakOf(trace) == PeakOf(old(trace)) && |LiveOf(trace)| == |LiveOf(old(trace))| - 1
    {
      hide LiveOf, PeakOf, LossesOf, Attempts, CountedIn, Enumerations, FootingOf, LossesAfter;
      LawfulAppend(world, base, trace, a);
      After(trace, a);
      if OnlyLooks(a) {
        Quietly(trace, a);
      }
      if a.Closed? {
        ClosingKeepsThePeak(trace, a.dir);
      }
      trace := trace + [a];
    }

    // ----- Handles -----

    /** What asking for one directory leaves in the trace. */
    static function AskedFor(t: nat, via: DirId, name: Name, r: Result<DirId, WalkError>): seq<Act> {
      if r == Err(Truncated) then []
      else if r.Ok? then [Act.Opened(t, via, name, r.value)]
      else [OpenFailed(t, via, name)]
    }

    method OpenDirectory(parent: DirId, name: Name, ghost inHand: multiset<DirId>) returns (r: Result<DirId, WalkError>)
      requires Traced() && Held(inHand) && |inHand| <= 1 && Reachable(base, trace, parent)
      modifies `opens, `now, `liveHandles, `trace
      ensures Traced() && Held(if r.Ok? then inHand + multiset{r.value} else inHand)
      ensures LossesOf(trace) == LossesOf(old(trace))
      ensures trace == old(trace) + AskedFor(old(now), parent, name, r)
      ensures r == Err(Truncated) <==> world.cancelled(old(now)) || old(opens) == 0
      ensures r == Err(Truncated) ==> opens == old(opens) && MayStop(world, opens)
      ensures r != Err(Truncated) ==> opens == old(opens) - 1
      ensures r.Err? ==> r.error != Moved
      ensures r != Err(Truncated) ==>
                match world.open(old(now), parent, name) { case Ok(d) => r == Ok(d) case Err(e) => r == Err(Io(e)) }
    {
      hide LiveOf, PeakOf, LossesOf, Attempts, CountedIn, Enumerations, FootingOf, Lawful, HeldBy;
      if world.cancelled(now) || opens == 0 {
        return Err(Truncated);
      }
      opens := opens - 1;
      var answer := world.open(now, parent, name);
      now := now + 1;
      if answer.Ok? {
        TakeInHand(now - 1, parent, name, answer.value, inHand);
        return Ok(answer.value);
      }
      PeakCoversNow(trace);
      Note(OpenFailed(now - 1, parent, name));
      r := Err(Io(answer.error));
    }

    method TakeInHand(t: nat, parent: DirId, name: Name, dir: DirId, ghost inHand: multiset<DirId>)
      requires Lawful(world, base, trace) && world.open(t, parent, name) == Ok(dir) && Reachable(base, trace, parent)
      requires log == Enumerations(trace) && counted == [still.rootInfo] + CountedIn(trace)
      requires opens + Attempts(trace) + 1 == budget
      requires Held(inHand) && |inHand| <= 1
      modifies `liveHandles, `trace
      ensures Traced() && Held(inHand + multiset{dir}) && LossesOf(trace) == LossesOf(old(trace))
      ensures trace == old(trace) + [Act.Opened(t, parent, name, dir)]
    {
      hide LiveOf, PeakOf, LossesOf, Attempts, CountedIn, Enumerations, FootingOf, Lawful, HeldBy;
      OneMoreHandle(HeldBy(stack), inHand, dir);
      Note(Act.Opened(t, parent, name, dir));
      liveHandles := liveHandles + 1;
    }

    method CloseHandle(run: DirId) returns (failed: bool)
      requires Traced() && run in LiveOf(trace)
      modifies `now, `liveHandles, `trace
      ensures Traced() && trace == old(trace) + [Closed(run)]
      ensures LiveOf(trace) == LiveOf(old(trace)) - multiset{run} && |LiveOf(trace)| == |LiveOf(old(trace))| - 1
      ensures PeakOf(trace) == PeakOf(old(trace)) && LossesOf(trace) == LossesOf(old(trace))
      ensures liveHandles == old(liveHandles) - 1
      ensures failed == world.closeFails(old(now), run)
    {
      hide LiveOf, PeakOf, LossesOf, Attempts, CountedIn, Enumerations, FootingOf, Lawful;
      Note(Closed(run));
      failed := world.closeFails(now, run);
      now := now + 1;
      liveHandles := liveHandles - 1;
    }

    /** Closes the handle in hand. */
    method PutDown(run: DirId) returns (failed: bool)
      requires Traced() && Held(multiset{run})
      modifies `now, `liveHandles, `trace
      ensures Traced() && Held(multiset{}) && trace == old(trace) + [Closed(run)]
      ensures LossesOf(trace) == LossesOf(old(trace))
      ensures failed == world.closeFails(old(now), run)
    {
      hide LiveOf, PeakOf, LossesOf, Attempts, CountedIn, Enumerations, FootingOf, Lawful, HeldBy, Traced;
      failed := CloseHandle(run);
      assert HeldBy(stack) + multiset{run} - multiset{run} == HeldBy(stack) + multiset{};
    }

    /** Gives a frame the handle in hand. A frame that owns one already refuses. */
    method Own(i: nat, run: DirId, ghost inHand: multiset<DirId>) returns (owned: bool)
      requires i < |stack| && Held(inHand + multiset{run})
      modifies `stack, `openFrames, `peakOpenFrames
      ensures owned <==> old(stack)[i].run.None?
      ensures !owned ==> unchanged(`stack, `openFrames, `peakOpenFrames)
      ensures owned ==>
                && Held(inHand)
                && stack == old(stack)[i := old(stack)[i].(run := Some(run))]
                && openFrames == old(openFrames) + 1
                && peakOpenFrames == if openFrames > old(peakOpenFrames) then openFrames else old(peakOpenFrames)
    {
      hide LiveOf, PeakOf, HeldBy;
      if stack[i].run.Some? {
        return false;
      }
      HeldAfterUpdate(stack, i, Some(run));
      assert HeldBy(stack) + (inHand + multiset{run}) == (HeldBy(stack) + multiset{run}) + inHand;
      stack := stack[i := stack[i].(run := Some(run))];
      openFrames := openFrames + 1;
      if openFrames > peakOpenFrames {
        peakOpenFrames := openFrames;
      }
      owned := true;
    }

    method Release(i: nat, ghost inHand: multiset<DirId>)
      requires i < |stack| && Traced() && Held(inHand)
      modifies `stack, `openFrames, `liveHandles, `now, `trace
      ensures Traced() && Held(inHand)
      ensures stack == old(stack)[i := old(stack)[i].(run := None)]
      ensures openFrames == old(openFrames) - (if old(stack)[i].run.Some? then 1 else 0)
      ensures trace == old(trace) + (if old(stack)[i].run.Some? then [Closed(old(stack)[i].run.value)] else [])
      ensures LossesOf(trace) == LossesOf(old(trace))
    {
      hide LiveOf, PeakOf, LossesOf, HeldBy, Traced;
      if stack[i].run.None? {
        assert stack[i].(run := None) == stack[i];
        return;
      }
      var run := stack[i].run.value;
      FrameIsHeld(stack, i);
      HeldAfterUpdate(stack, i, None);
      ghost var held := HeldBy(stack);
      var _ := CloseHandle(run);
      stack := stack[i := stack[i].(run := None)];
      openFrames := openFrames - 1;
      assert held == HeldBy(stack) + multiset{run};
      assert held + inHand - multiset{run} == HeldBy(stack) + inHand;
    }

    /** Releases the oldest open frames until at most MAX_OPEN_FRAMES handles would
        be alive once the frame at `position` owns its own. The open frames are
        the ones from `firstOpen` up to, not including, `position`. */
    method Trim(position: nat, ghost inHand: multiset<DirId>)
      requires firstOpen <= position <= |stack|
      requires forall i :: 0 <= i < |stack| ==> (stack[i].run.Some? <==> firstOpen <= i < position)
      requires openFrames == position - firstOpen
      requires Traced() && Held(inHand)
      modifies `stack, `openFrames, `liveHandles, `now, `firstOpen, `trace
      ensures Traced() && Held(inHand) && LossesOf(trace) == LossesOf(old(trace)) && old(trace) <= trace
      ensures SameWork(old(stack), stack)
      ensures old(firstOpen) <= firstOpen <= position && position - firstOpen < MAX_OPEN_FRAMES
      ensures position - old(firstOpen) < MAX_OPEN_FRAMES ==> firstOpen == old(firstOpen)
      ensures position - old(firstOpen) >= MAX_OPEN_FRAMES ==> firstOpen == position - MAX_OPEN_FRAMES + 1
      ensures forall i :: 0 <= i < |stack| ==>
                stack[i].run == if firstOpen <= i < position then old(stack)[i].run else None
      ensures openFrames == position - firstOpen
    {
      hide Traced, Held;
      while position - firstOpen >= MAX_OPEN_FRAMES
        invariant old(firstOpen) <= firstOpen <= position
        invariant firstOpen == old(firstOpen) || position - firstOpen >= MAX_OPEN_FRAMES - 1
        invariant SameWork(old(stack), stack)
        invariant forall i :: 0 <= i < |stack| ==>
                    stack[i].run == if firstOpen <= i < position then old(stack)[i].run else None
        invariant openFrames == position - firstOpen
        invariant Traced() && Held(inHand) && LossesOf(trace) == LossesOf(old(trace)) && old(trace) <= trace
      {
        Release(firstOpen, inHand);
        firstOpen := firstOpen + 1;
      }
    }

    // ----- Reading one directory -----

    method Add(run: DirId, child: Name, t: nat, info: Info)
      requires Tallied() && Traced() && ListingHas(trace, run, child) && world.lstat(t, run, child) == Ok(info)
      modifies `tally, `counted, `trace
      ensures Tallied() && Traced()
      ensures counted == old(counted) + [info] && trace == old(trace) + [Counted(t, run, child, info)]
      ensures FootingOf(trace) == FootingOf(old(trace))
    {
      hide LiveOf, PeakOf, LossesOf, Attempts, CountedIn, Enumerations, FootingOf, Lawful, ListingHas, CountAll, Count;
      CountAllAppend(start, counted, [info]);
      CountingOne(tally, info);
      Note(Counted(t, run, child, info));
      tally := Count(tally, info);
      counted := counted + [info];
    }

    /** What inspecting one listed child leaves in the trace. */
    ghost function LookedAt(t: nat, run: DirId, child: Name): seq<Act> {
      var info := world.lstat(t, run, child);
      if info.Ok? then [Counted(t, run, child, info.value)]
      else if info.error == NotExist then [Gone(t, run, child)]
      else []
    }

    /** Inspects and adds one child. A child gone since the listing is passed over. */
    method TallyChild(run: DirId, child: Name) returns (r: Result<bool, WalkError>)
      requires Tallied() && Traced() && ListingHas(trace, run, child)
      modifies `tally, `counted, `now, `trace
      ensures Tallied() && Traced() && FootingOf(trace) == FootingOf(old(trace))
      ensures now == old(now) + 1 && trace == old(trace) + LookedAt(old(now), run, child)
      ensures match world.lstat(old(now), run, child) {
                case Ok(info) => r == Ok(IsDirectory(info)) && counted == old(counted) + [info]
                case Err(e) => r == (if e == NotExist then Ok(false) else Err(Io(e))) && counted == old(counted) }
    {
      hide LiveOf, PeakOf, LossesOf, Attempts, CountedIn, Enumerations, FootingOf, Lawful, ListingHas, CountAll;
      var t := now;
      var info := world.lstat(t, run, child);
      now := now + 1;
      if info.Err? {
        if info.error == NotExist {
          Note(Gone(t, run, child));
          return Ok(false);
        }
        return Err(Io(info.error));
      }
      Add(run, child, t, info.value);
      r := Ok(IsDirectory(info.value));
    }

    /** Adds the listed children in the order given, and returns the subdirectories.
        Each child is counted, and kept if it is a directory, or gone. */
    method TallyNames(run: DirId, children: seq<Name>, ghost listing: nat, ghost entries: seq<Entry>)
      returns (r: Result<seq<Name>, WalkError>)
      requires Tallied() && Traced()
      requires listing < |trace| && trace[listing].Listed? && trace[listing].dir == run
      requires forall n :: n in children ==> n in trace[listing].names
      modifies `tally, `counted, `now, `trace
      ensures Tallied() && Traced() && FootingOf(trace) == FootingOf(old(trace)) && old(trace) <= trace
      ensures r.Err? ==> r.error.Io? && MayFail(world)
      ensures r.Ok? ==> forall n :: n in children ==> Accounted(trace, listing, run, n, r.value)
      ensures r.Ok? ==> forall n :: n in r.value ==> CountedAsDirectory(trace, run, n)
      ensures StillDirectory(world, run, entries) && (forall n :: n in children ==> n in Names(entries)) ==>
                && r == Ok(DirsFor(entries, children))
                && counted == old(counted) + InfosFor(entries, children)
    {
      hide FootingOf, CountAll, Traced, Tallied, Accounted, CountedAsDirectory, StillDirectory, MayFail;
      hide DirsFor, InfosFor, ListingHas, InfoOf;
      var directories: seq<Name> := [];
      ghost var exact := StillDirectory(world, run, entries) && (forall n :: n in children ==> n in Names(entries));
      assert children[..0] == [];
      NothingReadYet(entries);
      for i := 0 to |children|
        invariant Tallied() && Traced() && FootingOf(trace) == FootingOf(old(trace)) && old(trace) <= trace
        invariant forall k :: 0 <= k < i ==> Accounted(trace, listing, run, children[k], directories)
        invariant forall n :: n in directories ==> CountedAsDirectory(trace, run, n)
        invariant exact ==> directories == DirsFor(entries, children[..i])
        invariant exact ==> counted == old(counted) + InfosFor(entries, children[..i])
      {
        ListingHasIt(trace, listing, run, children[i]);
        ghost var before, known, t := trace, directories, now;
        var isDirectory := TallyChild(run, children[i]);
        assert children[..i + 1] == children[..i] + [children[i]];
        if exact {
          StillLstat(world, run, entries, t, children[i]);
          InfosForAppend(entries, children[..i], children[i]);
          DirsForAppend(entries, children[..i], children[i]);
        }
        if isDirectory.Err? {
          LstatFailed(world, t, run, children[i]);
          return Err(isDirectory.error);
        }
        if isDirectory.value {
          directories := directories + [children[i]];
        }
        AccountedSoFar(before, trace[|before|], listing, run, children, i, known, directories);
      }
      assert children[..|children|] == children;
      r := Ok(directories);
    }

    /** Lists one directory, in name order. */
    method ListChildren(run: DirId) returns (r: Result<seq<Name>, WalkError>)
      requires Traced() && run in LiveOf(trace)
      modifies `now, `trace
      ensures Traced() && FootingOf(trace) == FootingOf(old(trace)) && old(trace) <= trace
      ensures world.list(old(now), run).Err? ==>
                r == Err(Io(world.list(old(now), run).error)) && MayFail(world) && trace == old(trace)
      ensures world.list(old(now), run).Ok? ==>
                && r == Ok(SortNames(world.list(old(now), run).value))
                && trace == old(trace) + [Act.Listed(old(now), run, world.list(old(now), run).value)]
    {
      hide LiveOf, FootingOf, MayFail, Lawful, SortNames, PeakOf, LossesOf, Attempts, CountedIn, Enumerations;
      var listing := world.list(now, run);
      if listing.Err? {
        ListFailed(world, now, run);
        now := now + 1;
        return Err(Io(listing.error));
      }
      Note(Act.Listed(now, run, listing.value));
      now := now + 1;
      r := Ok(SortNames(listing.value));
    }

    /** Adds every child of one directory to the tally, in name order, and returns
        the subdirectories still to descend into. */
    method TallyChildren(run: DirId, ghost entries: seq<Entry>)
      returns (r: Result<seq<Name>, WalkError>, ghost names: seq<Name>)
      requires Tallied() && Traced() && run in LiveOf(trace)
      modifies `tally, `counted, `now, `trace
      ensures Tallied() && Traced() && FootingOf(trace) == FootingOf(old(trace)) && old(trace) <= trace
      ensures r.Err? ==> r.error.Io? && MayFail(world)
      ensures r.Ok? ==> ReadWhole(trace, run, r.value)
      ensures StillDirectory(world, run, entries) ==>
                && multiset(names) == multiset(Names(entries))
                && (forall n :: n in names ==> n in Names(entries))
                && r == Ok(DirsFor(entries, names))
                && counted == old(counted) + InfosFor(entries, names)
    {
      hide LiveOf, FootingOf, Accounted, CountedAsDirectory, MayFail, DirsFor, InfosFor, Traced, SortNames;
      hide StillDirectory, CountAll;
      ghost var t := now;
      var listing := ListChildren(run);
      names := [];
      if StillDirectory(world, run, entries) {
        StillListing(world, run, entries, t);
      }
      if listing.Err? {
        return Err(listing.error), names;
      }
      names := listing.value;
      ghost var at, children := |old(trace)|, world.list(t, run).value;
      SortedKeepsNames(children);
      r := TallyNames(run, listing.value, at, entries);
      if r.Ok? {
        ReadToTheEnd(trace, at, t, run, children, r.value);
      }
    }

    // ----- The stack -----

    ghost predicate NextIsLogged(via: DirId, name: Name)
      reads `log
    {
      if log == [] then via == base && name == rootName else WasListed(log, via, [name])
    }

    ghost method Record(e: Enumeration)
      requires Logged() && NextIsLogged(e.via, e.name) && Traced()
      requires e.dir in LiveOf(trace) && OpenedAs(trace, e.via, e.name, e.dir) && ReadWhole(trace, e.dir, e.listed)
      modifies `log, `trace
      ensures log == old(log) + [e] && Logged() && WasListed(log, e.dir, e.listed)
      ensures Traced() && trace == old(trace) + [Enumerated(e)] && FootingOf(trace) == FootingOf(old(trace))
    {
      hide LiveOf, PeakOf, LossesOf, Attempts, CountedIn, Enumerations, FootingOf, Lawful, WasListed;
      hide OpenedByListedNames;
      hide OpenedAs, ReadWhole;
      LogAppend(log, e, base, rootName);
      forall i | 0 <= i < |stack| ensures WasListed(log + [e], stack[i].identity, stack[i].directories) {
        LogGrows(log, e, stack[i].identity, stack[i].directories);
      }
      Note(Enumerated(e));
      log := log + [e];
    }

    /** Looks at the directory a handle is on and adds its children. */
    method Read(name: Name, run: DirId, ghost via: DirId, ghost entries: seq<Entry>)
      returns (seen: Result<(), WalkError>, children: Result<seq<Name>, WalkError>, ghost names: seq<Name>)
      requires Logged() && NextIsLogged(via, name)
      requires Tallied() && Traced() && run in LiveOf(trace) && OpenedAs(trace, via, name, run)
      modifies this`tally, `counted, `now, `log, `trace
      ensures Logged() && Tallied() && Traced() && FootingOf(trace) == FootingOf(old(trace)) && old(trace) <= trace
      ensures log == old(log) + (if seen.Ok? && children.Ok? then [Enumeration(run, via, name, children.value)] else [])
      ensures match world.statSelf(old(now), run) { case Ok(_) => seen.Ok? case Err(e) => seen == Err(Io(e)) }
      ensures seen.Err? && Skips(seen.error) ==> Settled(world, trace, via, name)
      ensures seen.Err? && !Skips(seen.error) ==> MayFail(world)
      ensures seen.Ok? && children.Ok? ==> Settled(world, trace, via, name) && WasListed(log, run, children.value)
      ensures children.Err? ==> seen.Ok? && children.error.Io? && MayFail(world)
      ensures StillDirectory(world, run, entries) ==>
                && seen.Ok?
                && multiset(names) == multiset(Names(entries)) && (forall n :: n in names ==> n in Names(entries))
                && children == Ok(DirsFor(entries, names))
                && counted == old(counted) + InfosFor(entries, names)
    {
      hide LiveOf, PeakOf, LossesOf, Attempts, CountedIn, Enumerations, FootingOf, Lawful, WasListed;
      hide OpenedByListedNames;
      hide OpenedAs, ReadWhole, CountAll, MayFail, DirsFor, InfosFor, Settled;
      var t := now;
      var identity := world.statSelf(t, run);
      now := now + 1;
      children, names := Ok([]), [];
      if identity.Err? {
        Note(Unseen(t, via, name, run));
        StatFailed(world, t, run, name);
        if GoneOrReplaced(identity.error) {
          LastSettles(world, trace, via, name);
        }
        return Err(Io(identity.error)), children, names;
      }
      seen := Ok(());
      children, names := TallyChildren(run, entries);
      LookingKeepsHandles(old(trace), trace, run);
      if children.Ok? {
        OpenedAsStays(old(trace), trace, via, name, run);
        Record(Enumeration(run, via, name, children.value));
        LastSettles(world, trace, via, name);
      }
    }

    /** Read, with the handle in hand before and after. */
    method ReadInHand(name: Name, run: DirId, ghost via: DirId, ghost entries: seq<Entry>)
      returns (seen: Result<(), WalkError>, children: Result<seq<Name>, WalkError>, ghost names: seq<Name>)
      requires Handles(multiset{run}) && Logged() && NextIsLogged(via, name) && Tallied()
      requires OpenedAs(trace, via, name, run)
      modifies this`tally, `counted, `now, `log, `trace
      ensures Handles(multiset{run}) && Logged() && Tallied()
      ensures LossesOf(trace) == LossesOf(old(trace)) && old(trace) <= trace
      ensures log == old(log) + (if seen.Ok? && children.Ok? then [Enumeration(run, via, name, children.value)] else [])
      ensures match world.statSelf(old(now), run) { case Ok(_) => seen.Ok? case Err(e) => seen == Err(Io(e)) }
      ensures seen.Err? && Skips(seen.error) ==> Settled(world, trace, via, name)
      ensures seen.Err? && !Skips(seen.error) ==> MayFail(world)
      ensures seen.Ok? && children.Ok? ==> Settled(world, trace, via, name) && WasListed(log, run, children.value)
      ensures children.Err? ==> seen.Ok? && children.error.Io? && MayFail(world)
      ensures StillDirectory(world, run, entries) ==>
                && seen.Ok?
                && multiset(names) == multiset(Names(entries)) && (forall n :: n in names ==> n in Names(entries))
                && children == Ok(DirsFor(entries, names))
                && counted == old(counted) + InfosFor(entries, names)
    {
      hide LiveOf, PeakOf, LossesOf, HeldBy, FootingOf, Traced, Logged, NextIsLogged, Tallied, WasListed, OpenedAs;
      hide Settled, MayFail;
      hide StillDirectory, InfosFor, DirsFor;
      assert run in LiveOf(trace);
      seen, children, names := Read(name, run, via, entries);
      FootingParts(old(trace), trace);
    }

    /** Closes a directory that could not be read. */
    method Drop(run: DirId)
      requires Handles(multiset{run})
      modifies `now, `liveHandles, `trace
      ensures Handles(multiset{}) && LossesOf(trace) == LossesOf(old(trace)) && trace == old(trace) + [Closed(run)]
    {
      hide Held, Traced, LossesOf;
      var _ := PutDown(run);
    }

    /** Closes a directory the walk is finished with. A failure is counted and no more:
        the entry it belongs to is already tallied. */
    method DropFinished(run: DirId)
      requires Handles(multiset{run})
      modifies `now, `liveHandles, `closeFailures, `trace
      ensures Handles(multiset{}) && LossesOf(trace) == LossesOf(old(trace)) && trace == old(trace) + [Closed(run)]
      ensures closeFailures == old(closeFailures) + (if world.closeFails(old(now), run) then 1 else 0)
    {
      hide Held, Traced, LossesOf;
      var failed := PutDown(run);
      if failed {
        closeFailures := closeFailures + 1;
      }
    }

    /** Reads one directory, adds its children, and keeps it on the stack only if it
        has subdirectories to visit. A directory gone or replaced since it was opened is
        passed over; any other failure is the walk's. */
    method Push(depth: nat, name: Name, run: DirId, ghost via: DirId, ghost entries: seq<Entry>)
      returns (err: Option<WalkError>, ghost names: seq<Name>, ghost read: Option<Enumeration>)
      requires Shape() && Handles(multiset{run}) && Logged() && NextIsLogged(via, name)
      requires OpenedAs(trace, via, name, run)
      requires depth <= |path| && forall i :: 0 <= i < |stack| ==> stack[i].depth < depth
      requires Tallied()
      modifies this`tally, `counted, `now, `liveHandles, `closeFailures, `path, `trail, `stack, `openFrames,
               `firstOpen, `peakOpenFrames, `log, `trace
      ensures Shape() && Handles(multiset{}) && Logged()
      ensures Tallied()
      ensures LossesOf(trace) == LossesOf(old(trace)) && old(trace) <= trace
      ensures err.Some? ==> err.value.Io? && MayFail(world) && read.None?
      ensures err.None? ==> Settled(world, trace, via, name)
      ensures world.statSelf(old(now), run).Err? ==>
                var e := Io(world.statSelf(old(now), run).error);
                    err == (if Skips(e) then None else Some(e)) && read.None?
      ensures err.None? && world.statSelf(old(now), run).Ok? ==> read.Some?
      ensures read.None? ==> log == old(log) && stack == old(stack) && path == old(path) && trail == old(trail)
      ensures read.Some? ==>
                && read.value == Enumeration(run, via, name, read.value.listed)
                && log == old(log) + [read.value]
                && if read.value.listed == [] then stack == old(stack) && path == old(path) && trail == old(trail)
                   else && SameWork(old(stack) + [Frame(depth, None, run, read.value.listed)], stack)
                        && path == old(path)[..depth] + [name] && trail == old(trail)[..depth] + [run]
      ensures StillDirectory(world, run, entries) ==>
                && read.Some?
                && multiset(names) == multiset(Names(entries)) && (forall n :: n in names ==> n in Names(entries))
                && counted == old(counted) + InfosFor(entries, names)
                && read.value.listed == DirsFor(entries, names)
    {
      hide StillDirectory, InfosFor, DirsFor, Shape, Handles, Logged, Tallied, NextIsLogged, WasListed, OpenedAs;
      hide Settled, MayFail;
      hide LossesOf;
      var seen, children;
      read := None;
      seen, children, names := ReadInHand(name, run, via, entries);
      ghost var before := trace;
      if seen.Err? || children.Err? {
        Drop(run);
        if seen.Err? {
          if Skips(seen.error) {
            SettledStays(world, before, trace, via, name);
          }
          return (if Skips(seen.error) then None else Some(seen.error)), names, read;
        }
        return Some(children.error), names, read;
      }
      read := Some(Enumeration(run, via, name, children.value));
      if children.value == [] {
        DropFinished(run);
      } else {
        Keep(depth, name, run, children.value);
      }
      SettledStays(world, before, trace, via, name);
      err := None;
    }

    method Grow(frame: Frame, ghost inHand: multiset<DirId>)
      requires frame.run.None? && Held(inHand)
      modifies `stack
      ensures stack == old(stack) + [frame] && Held(inHand)
    {
      hide LiveOf, PeakOf, HeldBy;
      HeldWithOneMore(stack, frame);
      stack := stack + [frame];
    }

    /** Puts a frame on the stack, inside the bound, and gives it the handle in hand. */
    method Mount(frame: Frame, run: DirId)
      requires Handles(multiset{run}) && frame.run.None? && frame.identity == run
      modifies `now, `liveHandles, `stack, `openFrames, `firstOpen, `peakOpenFrames, `trace
      ensures Handles(multiset{}) && LossesOf(trace) == LossesOf(old(trace)) && old(trace) <= trace
      ensures SameWork(old(stack) + [frame], stack)
    {
      hide Traced, Held, LossesOf;
      Grow(frame, multiset{run});
      Trim(|stack| - 1, multiset{run});
      assert multiset{run} == multiset{} + multiset{run};
      var owned := Own(|stack| - 1, run, multiset{});
      assert owned;
    }

    /** Cuts the ancestry at a depth and puts one name there. */
    method Lead(depth: nat, name: Name, run: DirId)
      requires depth <= |path| == |trail| && Handles(multiset{run})
      modifies `path, `trail
      ensures path == old(path)[..depth] + [name] && trail == old(trail)[..depth] + [run]
      ensures Handles(multiset{run})
    {
      hide Held, Traced;
      path := path[..depth] + [name];
      trail := trail[..depth] + [run];
    }

    /** Keeps a directory with subdirectories left, as the deepest frame. */
    method Keep(depth: nat, name: Name, run: DirId, directories: seq<Name>)
      requires Shape() && Handles(multiset{run}) && Logged() && WasListed(log, run, directories)
      requires depth <= |path| && forall i :: 0 <= i < |stack| ==> stack[i].depth < depth
      modifies `now, `liveHandles, `path, `trail, `stack, `openFrames, `firstOpen, `peakOpenFrames, `trace
      ensures Shape() && Handles(multiset{}) && Logged()
      ensures LossesOf(trace) == LossesOf(old(trace)) && old(trace) <= trace
      ensures SameWork(old(stack) + [Frame(depth, None, run, directories)], stack)
      ensures path == old(path)[..depth] + [name] && trail == old(trail)[..depth] + [run]
    {
      hide Ancestry, FramesWereListed, WasListed, OpenedByListedNames, Handles, LossesOf, SameWork;
      var frame := Frame(depth, None, run, directories);
      AncestryIsNamed(stack, path, trail);
      Lead(depth, name, run);
      Mount(frame, run);
      GrownAncestry(old(stack), old(path), old(trail), frame, name, stack);
      GrownFramesWereListed(log, old(stack), frame, stack);
    }

    /** Drops the deepest frame and its handle, and leaves the ancestry alone. */
    method Discard(ghost inHand: multiset<DirId>)
      requires stack != [] && Shape() && Handles(inHand) && Logged()
      modifies `stack, `openFrames, `liveHandles, `now, `firstOpen, `trace
      ensures stack == old(stack)[..|old(stack)| - 1]
      ensures Shape() && Handles(inHand) && Logged()
      ensures LossesOf(trace) == LossesOf(old(trace)) && old(trace) <= trace
      ensures firstOpen == if old(firstOpen) > |stack| then |stack| else old(firstOpen)
    {
      hide FramesWereListed, OpenedByListedNames, Traced, Held, LossesOf, Ancestry;
      var last := |stack| - 1;
      WithoutTheDeepest(stack, path, trail, log);
      Release(last, inHand);
      DropReleased(inHand);
      assert stack == old(stack)[..last];
    }

    method DropReleased(ghost inHand: multiset<DirId>)
      requires stack != [] && stack[|stack| - 1].run.None? && Held(inHand)
      modifies `stack, `firstOpen
      ensures stack == old(stack)[..|old(stack)| - 1] && Held(inHand)
      ensures firstOpen == if old(firstOpen) > |stack| then |stack| else old(firstOpen)
    {
      hide LiveOf, PeakOf, HeldBy;
      HeldWithoutTheLast(stack);
      stack := stack[..|stack| - 1];
      if firstOpen > |stack| {
        firstOpen := |stack|;
      }
    }

    /** Drops the deepest frame because its subtree is finished, takes its component out
        of the ancestry, and forgets a lost depth the walk has unwound past. */
    method Complete()
      requires stack != [] && Shape() && Handles(multiset{}) && Logged() && Losing()
      modifies `stack, `openFrames, `liveHandles, `now, `firstOpen, `path, `trail, `lostDepth, `trace
      ensures stack == old(stack)[..|old(stack)| - 1]
      ensures var depth := old(stack)[|old(stack)| - 1].depth;
                path == old(path)[..depth] && trail == old(trail)[..depth]
      ensures Shape() && Handles(multiset{}) && Logged() && Losing()
      ensures LossesOf(trace) == LossesOf(old(trace)) && old(trace) <= trace
      ensures lostDepth == if old(lostDepth) >= old(stack)[|old(stack)| - 1].depth then -1 else old(lostDepth)
    {
      hide FramesWereListed, OpenedByListedNames, Handles, LossesOf, Ancestry;
      UnwoundAncestry(stack, path, trail);
      var depth := stack[|stack| - 1].depth;
      Discard(multiset{});
      Unwind(depth);
    }

    method Unwind(depth: nat)
      requires depth <= |path| == |trail|
      modifies `path, `trail, `lostDepth
      ensures path == old(path)[..depth] && trail == old(trail)[..depth]
      ensures lostDepth == if old(lostDepth) >= depth then -1 else old(lostDepth)
    {
      path := path[..depth];
      trail := trail[..depth];
      if lostDepth >= depth {
        lostDepth := -1;
      }
    }

    // ----- Re-opening -----

    /** Part-way through a re-open: the first `reached` frames were reached, those
        of them still inside the bound own their handles, and besides those only
        `inHand` is open. */
    ghost predicate Reopening(reached: nat, inHand: multiset<DirId>)
      reads this
    {
      && reached <= |stack|
      && firstOpen == (if reached == 0 then |stack| else if reached <= MAX_OPEN_FRAMES then 0
                       else reached - MAX_OPEN_FRAMES)
      && (forall i :: 0 <= i < |stack| ==>
            stack[i].run == if firstOpen <= i < reached then Some(stack[i].identity) else None)
      && openFrames == (if reached == 0 then 0 else reached - firstOpen)
      && peakOpenFrames <= MAX_OPEN_FRAMES
      && Held(inHand) && Traced()
    }

    /** Gives the frame at `cursor` the handle just proved to be its directory. */
    method Restore(cursor: nat, child: DirId)
      requires cursor < |stack| && child == stack[cursor].identity
      requires Reopening(cursor, multiset{child})
      modifies `stack, `firstOpen, `openFrames, `liveHandles, `peakOpenFrames, `now, `trace
      ensures SameWork(old(stack), stack) && Reopening(cursor + 1, multiset{}) && child in LiveOf(trace)
      ensures LossesOf(trace) == LossesOf(old(trace)) && old(trace) <= trace
    {
      hide Held, Traced, LossesOf;
      if cursor < firstOpen {
        firstOpen := cursor;
      }
      Trim(cursor, multiset{child});
      assert multiset{child} == multiset{} + multiset{child};
      var owned := Own(cursor, child, multiset{});
      assert owned;
      FrameIsLive(cursor);
    }

    lemma FrameIsLive(i: nat)
      requires i < |stack| && stack[i].run.Some? && Held(multiset{})
      ensures stack[i].run.value in LiveOf(trace)
    {
      hide LiveOf, PeakOf, HeldBy;
      FrameIsHeld(stack, i);
    }

    /** Accepts a re-opened frame only if it is the directory it was. */
    method Arrive(cursor: nat, child: DirId) returns (same: bool)
      requires cursor < |stack| && Reopening(cursor, multiset{child})
      modifies `stack, `firstOpen, `openFrames, `liveHandles, `peakOpenFrames, `now, `trace
      ensures SameWork(old(stack), stack)
      ensures LossesOf(trace) == LossesOf(old(trace)) && old(trace) <= trace
      ensures same <==> child == old(stack)[cursor].identity && world.statSelf(old(now), child).Ok?
      ensures same ==> Reopening(cursor + 1, multiset{}) && child in LiveOf(trace)
      ensures !same ==> stack == old(stack) && Reopening(cursor, multiset{}) && trace == old(trace) + [Closed(child)]
    {
      hide Held, Traced, LossesOf;
      var actual := world.statSelf(now, child);
      now := now + 1;
      if actual.Err? || child != stack[cursor].identity {
        var _ := PutDown(child);
        return false;
      }
      Restore(cursor, child);
      same := true;
    }

    /** Opens one component of the ancestry beneath `current`. A component that is a
        frame must be the same directory and gets its handle back; any other is
        held only until its own child is open. */
    method ReopenComponent(depth: nat, current: DirId, position: nat, reached: nat, transient: Option<DirId>)
      returns (err: Option<WalkError>, next: DirId, cursor: nat, reached': nat, transient': Option<DirId>)
      requires stack != [] && Shape() && depth <= stack[|stack| - 1].depth && Above(stack, depth, reached)
      requires Reopening(reached, InHand(transient)) && position <= reached && Reachable(base, trace, current)
      modifies `stack, `firstOpen, `openFrames, `liveHandles, `peakOpenFrames, `reopenOpens, `opens, `now, `trace
      ensures SameWork(old(stack), stack) && Reopening(reached', InHand(transient'))
      ensures LossesOf(trace) == LossesOf(old(trace)) && old(trace) <= trace
      ensures opens <= old(opens)
      ensures err != Some(Truncated) ==> opens < old(opens)
      ensures err == Some(Truncated) ==> MayStop(world, opens)
      ensures old(opens) <= opens + 1
      ensures err.None? ==> cursor <= reached' && Above(stack, depth + 1, reached') && Reachable(base, trace, next)
      ensures err.None? && depth == stack[|stack| - 1].depth ==> transient'.None?
      ensures Resolving(world, base, path, trail) && current == ParentOf(base, trail, depth) ==>
                if err.None? then next == trail[depth] else err.value == Truncated
    {
      hide LiveOf, Reachable;
      hide Resolving, Above, MayStop, Reopening, LossesOf, AskedFor, AlwaysLeads, AlwaysSeen;
      ResolvesAt(world, base, path, trail, depth);
      err, next, cursor, reached', transient' := None, current, position, reached, None;
      var child := OpenNext(depth, current, reached, transient);
      if child.Err? {
        err := Some(child.error);
        return;
      }
      next := child.value;
      var same;
      same, cursor, reached', transient' := Place(depth, child.value, position, reached);
      if !same {
        err := Some(Moved);
      }
    }

    /** Finds what an opened component is: a frame, which must still be the directory it
        was, or a step on the way. */
    method Place(depth: nat, child: DirId, position: nat, reached: nat)
      returns (same: bool, cursor: nat, reached': nat, transient: Option<DirId>)
      requires stack != [] && Shape() && depth <= stack[|stack| - 1].depth && Above(stack, depth, reached)
      requires Reopening(reached, multiset{child}) && position <= reached
      modifies `stack, `firstOpen, `openFrames, `liveHandles, `peakOpenFrames, `now, `trace
      ensures SameWork(old(stack), stack) && Reopening(reached', InHand(transient))
      ensures LossesOf(trace) == LossesOf(old(trace)) && old(trace) <= trace
      ensures same ==> cursor <= reached' && Above(stack, depth + 1, reached') && Reachable(base, trace, child)
      ensures same && depth == stack[|stack| - 1].depth ==> transient.None?
      ensures child == trail[depth] && AlwaysSeen(world, child) ==> same
    {
      hide Reopening, LossesOf, Ancestry, AlwaysSeen, LiveOf;
      InHandIsLive(reached, child);
      AboveNext(stack, path, trail, depth, reached, stack);
      cursor := Seek(depth, position, reached);
      if cursor == |stack| || stack[cursor].depth != depth {
        return true, cursor, reached, Some(child);
      }
      same := MeetFrame(depth, child, cursor);
      reached', transient := if same then cursor + 1 else cursor, None;
    }

    lemma InHandIsLive(reached: nat, child: DirId)
      requires Reopening(reached, multiset{child})
      ensures child in LiveOf(trace) && reached <= |stack|
    {
      hide LiveOf, PeakOf, HeldBy, Traced;
    }

    method MeetFrame(depth: nat, child: DirId, cursor: nat) returns (same: bool)
      requires Shape() && cursor < |stack| && stack[cursor].depth == depth && Above(stack, depth + 1, cursor + 1)
      requires Reopening(cursor, multiset{child})
      modifies `stack, `firstOpen, `openFrames, `liveHandles, `peakOpenFrames, `now, `trace
      ensures SameWork(old(stack), stack) && Above(stack, depth + 1, cursor + 1)
      ensures Reopening(if same then cursor + 1 else cursor, multiset{}) && (same ==> child in LiveOf(trace))
      ensures LossesOf(trace) == LossesOf(old(trace)) && old(trace) <= trace
      ensures child == trail[depth] && AlwaysSeen(world, child) ==> same
    {
      hide Reopening, LossesOf, Ancestry, Above, LiveOf;
      AncestryAt(stack, path, trail, cursor);
      same := Arrive(cursor, child);
      AboveAfter(old(stack), stack, depth + 1, cursor + 1);
    }

    /** Opens the next component, then lets go of the step that led to it. */
    method OpenNext(depth: nat, current: DirId, ghost reached: nat, transient: Option<DirId>)
      returns (child: Result<DirId, WalkError>)
      requires depth < |path| == |trail| && Reopening(reached, InHand(transient)) && Reachable(base, trace, current)
      modifies `liveHandles, `reopenOpens, `opens, `now, `trace
      ensures Reopening(reached, if child.Ok? then multiset{child.value} else multiset{})
      ensures trace == old(trace) + AskedFor(old(now), current, path[depth], child)
                       + (if transient.Some? then [Closed(transient.value)] else [])
      ensures LossesOf(trace) == LossesOf(old(trace)) && old(trace) <= trace
      ensures reopenOpens == old(reopenOpens) + 1
      ensures child == Err(Truncated) ==> opens == old(opens) && MayStop(world, opens)
      ensures child != Err(Truncated) ==> opens == old(opens) - 1
      ensures AlwaysLeads(world, current, path[depth], trail[depth]) ==>
                if child.Ok? then child.value == trail[depth] else child.error == Truncated
    {
      hide Traced, LossesOf, Held, MayStop, LiveOf, Reachable;
      assert AlwaysLeads(world, current, path[depth], trail[depth]) ==>
          world.open(now, current, path[depth]) == Ok(trail[depth]);
      child := OpenDirectory(current, path[depth], InHand(transient));
      reopenOpens := reopenOpens + 1;
      ghost var kept := if child.Ok? then multiset{child.value} else multiset{};
      assert InHand(transient) + multiset{} == InHand(transient);
      if transient.Some? {
        LetGo(transient.value, kept);
      } else {
        assert multiset{} + kept == kept;
      }
    }

    /** Closes one of the handles in hand. */
    method LetGo(run: DirId, ghost others: multiset<DirId>)
      requires Traced() && Held(multiset{run} + others)
      modifies `now, `liveHandles, `trace
      ensures Traced() && Held(others) && trace == old(trace) + [Closed(run)]
      ensures LossesOf(trace) == LossesOf(old(trace))
    {
      hide LiveOf, PeakOf, LossesOf, HeldBy, Traced;
      var _ := CloseHandle(run);
      assert HeldBy(stack) + (multiset{run} + others) - multiset{run} == HeldBy(stack) + others;
    }

    /** The first frame at or beyond a depth. */
    method Seek(depth: nat, position: nat, ghost reached: nat) returns (cursor: nat)
      requires position <= reached <= |stack| && Above(stack, depth, reached)
      ensures cursor == reached
    {
      cursor := position;
      while cursor < |stack| && stack[cursor].depth < depth
        invariant cursor <= reached
      {
        cursor := cursor + 1;
      }
    }

    lemma ReopenStarts()
      requires stack != [] && Shape() && Handles(multiset{}) && stack[|stack| - 1].run.None?
      ensures Reopening(0, InHand(None)) && Above(stack, 0, 0) && Reachable(base, trace, base)
      ensures SameWork(stack, stack) && stack[|stack| - 1].depth < |path| == |trail|
    {
      hide Held, Traced;
    }

    /** Walks the recorded ancestry from the base, one component at a time, keeping
        the handles of the components that are frames. */
    method Reopen() returns (err: Option<WalkError>, depthLost: int, reached: nat, transient: Option<DirId>)
      requires stack != [] && Shape() && Handles(multiset{}) && stack[|stack| - 1].run.None?
      modifies `stack, `firstOpen, `openFrames, `liveHandles, `peakOpenFrames, `reopenOpens, `opens, `now, `trace
      ensures SameWork(old(stack), stack) && Reopening(reached, InHand(transient))
      ensures LossesOf(trace) == LossesOf(old(trace)) && old(trace) <= trace
      ensures err.None? ==> reached == |stack| && transient.None?
      ensures err.Some? ==> 0 <= depthLost < |path|
      ensures opens <= old(opens)
      ensures err != Some(Truncated) ==> opens < old(opens)
      ensures err == Some(Truncated) ==> MayStop(world, opens)
      ensures old(opens) <= opens + |path|
      ensures Resolving(world, base, path, trail) ==> err.None? || err.value == Truncated
    {
      hide Handles, Reopening, Above, LossesOf, Resolving, LiveOf, Reachable, Ancestry, SameWork, MayStop;
      ReopenStarts();
      var deepest := stack[|stack| - 1].depth;
      var current := base;
      var cursor: nat, depth: nat := 0, 0;
      transient, reached, depthLost := None, 0, -1;
      while depth <= deepest
        invariant stack != [] && SameWork(old(stack), stack) && Shape() && Reopening(reached, InHand(transient))
        invariant LossesOf(trace) == LossesOf(old(trace)) && old(trace) <= trace
        invariant depth <= deepest + 1 && deepest == stack[|stack| - 1].depth
        invariant cursor <= reached && Above(stack, depth, reached)
        invariant opens <= old(opens) && (depth > 0 ==> opens < old(opens))
        invariant depth == deepest + 1 ==> transient.None?
        invariant Resolving(world, base, path, trail) ==> current == ParentOf(base, trail, depth)
        invariant Reachable(base, trace, current)
        invariant old(opens) <= opens + depth
        decreases deepest + 1 - depth
      {
        ghost var before := stack;
        err, current, cursor, reached, transient := ReopenComponent(depth, current, cursor, reached, transient);
        SameWorkTwice(old(stack), before, stack);
        if err.Some? {
          depthLost := depth;
          return;
        }
        SameWorkSameAncestry(before, stack, path, trail);
        depth := depth + 1;
      }
      AllAbove(stack, path, trail, reached);
      err := None;
    }

    method ReleaseReached(reached: nat)
      requires Reopening(reached, multiset{})
      modifies `stack, `openFrames, `liveHandles, `now, `trace
      ensures SameWork(old(stack), stack) && Held(multiset{}) && Traced()
      ensures LossesOf(trace) == LossesOf(old(trace)) && old(trace) <= trace
      ensures forall k :: 0 <= k < |stack| ==> stack[k].run.None?
      ensures openFrames == 0
    {
      hide Held, Traced, LossesOf;
      for i := 0 to reached
        invariant SameWork(old(stack), stack) && Held(multiset{}) && Traced()
        invariant LossesOf(trace) == LossesOf(old(trace)) && old(trace) <= trace
        invariant forall k :: 0 <= k < |stack| ==> stack[k].run == if i <= k then old(stack)[k].run else None
        invariant openFrames == (if i >= reached then 0 else if i <= firstOpen then reached - firstOpen
                                 else reached - i)
      {
        Release(i, multiset{});
      }
    }

    /** Gives back everything a failed re-open acquired. */
    method Abandon(reached: nat, transient: Option<DirId>, savedFirstOpen: nat)
      requires Reopening(reached, InHand(transient)) && savedFirstOpen == |stack|
      modifies `stack, `firstOpen, `openFrames, `liveHandles, `now, `trace
      ensures SameWork(old(stack), stack) && Handles(multiset{}) && firstOpen == savedFirstOpen
      ensures LossesOf(trace) == LossesOf(old(trace)) && old(trace) <= trace
    {
      hide Held, Traced, LossesOf;
      if transient.Some? {
        var _ := PutDown(transient.value);
      }
      ReleaseReached(reached);
      firstOpen := savedFirstOpen;
    }

    /** Hands back the deepest frame's handle, re-opening what was released to stay
        inside the bound. A failed re-open keeps none of the handles it acquired. */
    method TopRoot() returns (r: Result<DirId, WalkError>, depthLost: int)
      requires stack != [] && Shape() && Handles(multiset{})
      modifies `stack, `firstOpen, `openFrames, `liveHandles, `peakOpenFrames, `reopenOpens, `opens, `now, `trace
      ensures SameWork(old(stack), stack) && Shape() && Handles(multiset{})
      ensures LossesOf(trace) == LossesOf(old(trace)) && old(trace) <= trace
      ensures r.Ok? ==> stack[|stack| - 1].run == Some(r.value) && r.value == stack[|stack| - 1].identity
      ensures r.Ok? ==> r.value in LiveOf(trace)
      ensures r.Err? ==> firstOpen == old(firstOpen) && 0 <= depthLost < |path|
      ensures opens <= old(opens)
      ensures r.Err? && r.error != Truncated ==> opens < old(opens)
      ensures r == Err(Truncated) ==> MayStop(world, opens)
      ensures old(opens) <= opens + |path|
      ensures Resolving(world, base, path, trail) ==> r.Ok? || r.error == Truncated
    {
      hide Held, Traced, LossesOf, Resolving, LiveOf, Reachable;
      var frame := stack[|stack| - 1];
      if frame.run.Some? {
        FrameIsLive(|stack| - 1);
        return Ok(frame.run.value), -1;
      }
      var savedFirstOpen := firstOpen;
      var err, reached, transient;
      err, depthLost, reached, transient := Reopen();
      if err.None? {
        FrameIsLive(|stack| - 1);
        return Ok(stack[|stack| - 1].run.value), -1;
      }
      Abandon(reached, transient, savedFirstOpen);
      r := Err(err.value);
    }

    // ----- The walk -----

    /** The state the figures depend on. */
    ghost function Now(): Progress
      reads `stack, `path, `trail, `counted
    {
      Progress(stack, path, trail, counted)
    }

    /** On an unchanging tree, everything so far is accounted for and nothing was
        ever reported lost. */
    ghost predicate Exact(inHand: multiset<Info>)
      reads this
    {
      && still == Still(world, base, rootName, still.fs, still.rank, still.root, still.rootInfo)
      && (StillTree(still) ==> vanished == 0 && replaced == 0 && reopenFailures == 0 && lostDepth == -1)
      && forall c :: c == still && StillTree(c) ==> Conserves(c, Now(), inHand)
    }

    ghost function EntriesOf(run: DirId): seq<Entry> {
      if run in still.fs then still.fs[run] else []
    }

    ghost predicate Walking()
      reads this
    {
      Shape() && Handles(multiset{}) && Logged() && Tallied() && Losing() && (stack != [] ==> log != [])
    }

    /** Stopped or not, on an unchanging tree only the tree was counted and nothing
        was reported lost. */
    ghost predicate PartOfTree()
      reads `counted, `vanished, `replaced, `reopenFailures
    {
      forall c :: c == still && StillTree(c) ==>
        multiset(counted) <= Whole(c) && vanished == 0 && replaced == 0 && reopenFailures == 0
    }

    /** The walk's state with an open directory in hand, about to be read. */
    ghost predicate Holding(depth: nat, name: Name, run: DirId, via: DirId)
      reads this
    {
      && Shape() && Handles(multiset{run}) && Logged() && Tallied() && Losing() && (stack != [] ==> log != [])
      && LossesOf(trace).ancestor.None? && OpenedAs(trace, via, name, run)
      && NextIsLogged(via, name)
      && depth <= |path| && (forall i :: 0 <= i < |stack| ==> stack[i].depth < depth)
    }

    lemma ExactIsPart()
      requires Exact(multiset{})
      ensures PartOfTree()
      ensures StillTree(still) ==> Conserves(still, Now(), multiset{})
    {
      hide Conserves, StillTree, Whole;
      if StillTree(still) {
        VisitIsSafe(still, Now());
      }
    }

    /** Reads the directory in hand: Push, with what it does to the account. */
    method Enter(depth: nat, name: Name, run: DirId, ghost via: DirId)
      returns (err: Option<WalkError>, ghost read: Option<Enumeration>)
      requires Holding(depth, name, run, via)
      requires Exact(Beneath(still, run)) && (StillTree(still) ==> LeadsTo(still, trail, depth, name, run))
      modifies this`tally, `counted, `now, `liveHandles, `closeFailures, `path, `trail, `stack, `openFrames,
               `firstOpen, `peakOpenFrames, `log, `trace
      ensures Walking() && Exact(multiset{}) && PartOfTree() && old(log) <= log
      ensures StillTree(still) ==>
                err.None? && DirsIn(counted) + Pending(old(stack)) == DirsIn(old(counted)) + Pending(stack)
      ensures err.Some? ==> err.value.Io? && MayFail(world)
      ensures old(trace) <= trace && (err.None? ==> Settled(world, trace, via, name))
      ensures read.None? ==> log == old(log) && stack == old(stack)
      ensures read.Some? ==>
                && log == old(log) + [read.value]
                && if read.value.listed == [] then stack == old(stack)
                   else SameWork(old(stack) + [Frame(depth, None, read.value.dir, read.value.listed)], stack)
    {
      hide Conserves, Ancestry, StillTree, Beneath, Held, Traced, LossesOf, Settled, OpenedAs, Owing, WasListed;
      hide OpenedByListedNames, MayFail;
      ghost var names;
      ghost var before := Now();
      ghost var losses := (vanished, replaced, reopenFailures, lostDepth);
      err, names, read := Push(depth, name, run, via, EntriesOf(run));
      assert losses == (vanished, replaced, reopenFailures, lostDepth);
      if StillTree(still) {
        StillBeneath(still, run);
        ghost var dirs := read.value.listed;
        EnteringPends(still.fs[run], names, before.counted, counted, before.stack, Frame(depth, None, run, dirs),
                      stack);
        EnteringConserves(still, before, Now(), depth, name, run, names, dirs);
        VisitIsSafe(still, Now());
      }
    }

    ghost predicate Frugality()
      reads `stack, `counted, `opens
    {
      Frugal(still, stack, counted, opens, budget)
    }

    /** Unless a loss was reported, every listed subdirectory is settled or waiting. */
    ghost predicate Covering()
      reads `trace, `log, `stack, `replaced, `vanished
    {
      replaced + vanished > 0 || AllSettled(world, trace, log, stack)
    }

    /** Records that a frame was reached, or could not be. */
    ghost method NoteReach(a: Act)
      requires Handles(multiset{}) && (a.Lost? || a.Reached?)
      modifies `trace
      ensures Handles(multiset{}) && trace == old(trace) + [a]
      ensures LossesOf(trace) == LossesAfter(LossesOf(old(trace)), a) && LiveOf(trace) == LiveOf(old(trace))
    {
      hide LiveOf, PeakOf, LossesOf, Attempts, CountedIn, Enumerations, Lawful, HeldBy, LossesAfter;
      Note(a);
      LossKeepsHandles(old(trace), a);
    }

    method CountLoss(depthLost: int, error: WalkError)
      modifies `lostDepth, `reopenFailures, `replaced, `vanished
      ensures lostDepth == depthLost && reopenFailures == old(reopenFailures) + 1
      ensures replaced == old(replaced) + (if depthLost != old(lostDepth) && error == Moved then 1 else 0)
      ensures vanished == old(vanished) + (if depthLost != old(lostDepth) && error != Moved then 1 else 0)
    {
      reopenFailures := reopenFailures + 1;
      if depthLost != lostDepth {
        lostDepth := depthLost;
        if error == Moved {
          replaced := replaced + 1;
        } else {
          vanished := vanished + 1;
        }
      }
    }

    /** Counts one failed re-open. One lost ancestor is one loss. */
    method NoteLoss(depthLost: int, error: WalkError)
      requires Handles(multiset{}) && Losing() && 0 <= depthLost < |path|
      modifies `lostDepth, `reopenFailures, `replaced, `vanished, `trace
      ensures Handles(multiset{}) && Losing()
      ensures trace == old(trace) + [Lost(path[..depthLost + 1], error == Moved)]
      ensures lostDepth == depthLost && reopenFailures == old(reopenFailures) + 1
      ensures replaced + vanished > 0
      ensures LossesOf(trace) == LossesAfter(LossesOf(old(trace)), Lost(path[..depthLost + 1], error == Moved))
    {
      hide LossesOf, LossesAfter, Handles;
      LossIsNoted(path, lostDepth, depthLost, trace, error == Moved);
      NoteReach(Lost(path[..depthLost + 1], error == Moved));
      CountLoss(depthLost, error);
    }

    /** Gives up on the deepest frame: its directory can no longer be reached, or is
        no longer the one the walk was measuring. */
    method Lose(depthLost: int, error: WalkError)
      requires stack != [] && Walking() && 0 <= depthLost < |path|
      modifies `stack, `openFrames, `liveHandles, `now, `firstOpen, `path, `trail, `lostDepth,
               `reopenFailures, `replaced, `vanished, `trace
      ensures stack == old(stack)[..|old(stack)| - 1] && Walking()
      ensures LossesOf(trace) == LossesAfter(LossesOf(old(trace)), Lost(old(path)[..depthLost + 1], error == Moved))
      ensures old(trace) + [Lost(old(path)[..depthLost + 1], error == Moved)] <= trace
      ensures lostDepth == if depthLost >= old(stack)[|old(stack)| - 1].depth then -1 else depthLost
      ensures reopenFailures == old(reopenFailures) + 1
      ensures replaced + vanished > 0
    {
      hide Ancestry, Logged, Tallied, Handles, Losing, LossesOf;
      ghost var kept := (tally, counted, log);
      NoteLoss(depthLost, error);
      ghost var losses := (replaced, vanished, reopenFailures);
      Complete();
      assert kept == (tally, counted, log) && losses == (replaced, vanished, reopenFailures);
    }

    /** Takes the next subdirectory name off the deepest frame. */
    method TakeName() returns (child: Name)
      requires stack != [] && stack[|stack| - 1].directories != [] && Walking()
      modifies `stack
      ensures Walking() && |stack| == |old(stack)|
      ensures var top := old(stack)[|stack| - 1];
        && child == top.directories[0]
        && stack == old(stack)[|stack| - 1 := top.(directories := top.directories[1..])]
        && WasListed(log, top.identity, [child])
        && top.depth < |path| && forall i :: 0 <= i < |stack| ==> stack[i].depth <= top.depth
    {
      hide WasListed, OpenedByListedNames, Traced, LiveOf, PeakOf, HeldBy, LossesOf, CountAll;
      var last := |stack| - 1;
      var frame := stack[last];
      child := frame.directories[0];
      ListedParts(log, frame.identity, frame.directories);
      SameRunsHeld(stack, stack[last := frame.(directories := frame.directories[1..])]);
      stack := stack[last := frame.(directories := frame.directories[1..])];
    }

    /** Opens the name taken, through the deepest frame's handle, and drops that
        frame if it has nothing else left. */
    method OpenTaken(child: Name)
      returns (next: Result<DirId, WalkError>, lost: Option<(int, WalkError)>, ghost instant: nat)
      requires stack != [] && Walking()
      requires WasListed(log, stack[|stack| - 1].identity, [child])
      modifies `stack, `firstOpen, `openFrames, `liveHandles, `peakOpenFrames, `reopenOpens, `opens, `now, `lostDepth,
               `trace
      ensures Shape() && Handles(if next.Ok? then multiset{next.value} else multiset{}) && Logged() && Losing()
      ensures old(trace) <= trace
      ensures lost.Some? ==>
                && next.Err? && SameWork(old(stack), stack) && |stack| == |old(stack)| && opens < old(opens)
                && lostDepth == old(lostDepth)
                && 0 <= lost.value.0 < |path| && LossesOf(trace) == LossesOf(old(trace))
      ensures lost.None? && next != Err(Truncated) ==> lostDepth == -1 && LossesOf(trace).ancestor.None?
      ensures var top := old(stack)[|old(stack)| - 1];
        lost.None? && next != Err(Truncated) ==>
          && SameWork(if top.directories == [] then old(stack)[..|old(stack)| - 1] else old(stack), stack)
          && (next.Ok? ==> OpenedAs(trace, top.identity, child, next.value))
          && (next.Err? && Skips(next.error) ==> Settled(world, trace, top.identity, child))
          && (next.Err? ==> next.error.Io? && (!Skips(next.error) ==> MayFail(world)))
      ensures next != Err(Truncated) ==> opens < old(opens)
      ensures next == Err(Truncated) ==> lost.None? && MayStop(world, opens) && old(opens) <= opens + |path|
      ensures old(opens) <= opens + |path| + 1
      ensures Resolving(world, base, path, trail) ==> lost.None?
      ensures lost.None? && next != Err(Truncated) ==>
                match world.open(instant, old(stack)[|old(stack)| - 1].identity, child) {
                  case Ok(d) => next == Ok(d) case Err(e) => next == Err(Io(e)) }
    {
      hide Ancestry, FramesWereListed, WasListed, OpenedByListedNames, Resolving, Handles, LossesOf, LiveOf;
      hide OpenedAs, Settled, MayFail, MayStop, SameWork;
      lost, instant := None, now;
      var run, depthLost := TopRoot();
      ghost var top := stack;
      FramesStayListed(old(stack), top, log);
      if run.Err? {
        if run.error != Truncated {
          lost := Some((depthLost, run.error));
        }
        return Err(run.error), lost, instant;
      }
      next, instant := OpenReached(run.value, child);
      ShorterSameWork(old(stack), top);
    }

    /** Opens a name through the deepest frame's own handle. */
    method OpenReached(run: DirId, child: Name) returns (next: Result<DirId, WalkError>, ghost instant: nat)
      requires stack != [] && stack[|stack| - 1].identity == run
      requires Shape() && Handles(multiset{}) && Logged() && Losing() && run in LiveOf(trace)
      modifies `stack, `firstOpen, `openFrames, `liveHandles, `opens, `now, `lostDepth, `trace
      ensures Shape() && Handles(if next.Ok? then multiset{next.value} else multiset{}) && Logged() && Losing()
      ensures old(trace) <= trace && lostDepth == -1 && LossesOf(trace).ancestor.None?
      ensures var last := |old(stack)| - 1;
        stack == if old(stack)[last].directories == [] then old(stack)[..last] else old(stack)
      ensures next == Err(Truncated) ==> opens == old(opens) && MayStop(world, opens)
      ensures next != Err(Truncated) ==> opens == old(opens) - 1
      ensures next.Ok? ==> OpenedAs(trace, run, child, next.value)
      ensures next.Err? && Skips(next.error) ==> Settled(world, trace, run, child)
      ensures next.Err? && next.error != Truncated ==> next.error.Io? && (!Skips(next.error) ==> MayFail(world))
      ensures next != Err(Truncated) ==>
                match world.open(instant, run, child) { case Ok(d) => next == Ok(d) case Err(e) => next == Err(Io(e)) }
    {
      hide Ancestry, FramesWereListed, OpenedByListedNames, Handles, LossesOf, LiveOf;
      hide OpenedAs, Settled, MayFail, MayStop, AskedFor;
      Reach();
      instant := now;
      next := OpenChildOf(run, child);
      if stack[|stack| - 1].directories == [] {
        ghost var before := trace;
        Discard(if next.Ok? then multiset{next.value} else multiset{});
        OpeningStays(world, before, trace, run, child, next);
      }
    }

    /** A frame could be reached, so the next failure is a new loss. */
    method Reach()
      requires Handles(multiset{}) && Losing()
      modifies `lostDepth, `trace
      ensures Handles(multiset{}) && Losing() && trace == old(trace) + [Reached]
      ensures lostDepth == -1 && LossesOf(trace).ancestor.None? && LiveOf(trace) == LiveOf(old(trace))
    {
      hide LiveOf, LossesOf, Handles;
      NoteReach(Reached);
      lostDepth := -1;
    }

    /** Opens one name in an open directory, and says what the trace then shows. */
    method OpenChildOf(run: DirId, child: Name) returns (next: Result<DirId, WalkError>)
      requires Handles(multiset{}) && Reachable(base, trace, run)
      modifies `opens, `now, `liveHandles, `trace
      ensures Handles(if next.Ok? then multiset{next.value} else multiset{})
      ensures LossesOf(trace) == LossesOf(old(trace)) && trace == old(trace) + AskedFor(old(now), run, child, next)
      ensures next == Err(Truncated) ==> opens == old(opens) && MayStop(world, opens)
      ensures next != Err(Truncated) ==> opens == old(opens) - 1
      ensures next.Err? && next.error != Truncated ==> next.error.Io?
      ensures next.Ok? ==> OpenedAs(trace, run, child, next.value)
      ensures next.Err? && Skips(next.error) ==> Settled(world, trace, run, child)
      ensures next.Err? && next.error != Truncated && !Skips(next.error) ==> MayFail(world)
      ensures next != Err(Truncated) ==>
                match world.open(old(now), run, child) { case Ok(d) => next == Ok(d) case Err(e) => next == Err(Io(e)) }
    {
      hide Held, Traced, LossesOf, MayStop, Settled, MayFail;
      next := OpenDirectory(run, child, multiset{});
      assert next.Ok? ==> multiset{} + multiset{next.value} == multiset{next.value};
      if next.Ok? {
        assert trace[|old(trace)|] == Act.Opened(old(now), run, child, next.value);
      } else if next.error != Truncated {
        if Skips(next.error) {
          LastSettles(world, trace, run, child);
        } else {
          OpenRefused(world, old(now), run, child);
        }
      }
    }

    ghost function Lost3(): (nat, nat, nat)
      reads `vanished, `replaced, `reopenFailures
    {
      (vanished, replaced, reopenFailures)
    }

    /** Takes the next name off the deepest frame and opens it. */
    method TakeChild()
      returns (child: Name, next: Result<DirId, WalkError>, lost: Option<(int, WalkError)>, ghost instant: nat)
      requires HasNext(stack) && Walking()
      modifies `stack, `firstOpen, `openFrames, `liveHandles, `peakOpenFrames, `reopenOpens, `opens, `now, `lostDepth,
               `trace
      ensures child == TopName(old(stack)) && old(trace) <= trace
      ensures lost.Some? ==> next.Err? && stack != [] && 0 <= lost.value.0 < |path|
      ensures lost.None? && next != Err(Truncated) ==>
                && TookNext(old(stack), stack) && lostDepth == -1
                && match world.open(instant, TopDir(old(stack)), child) {
                     case Ok(d) => next == Ok(d) case Err(e) => next == Err(Io(e)) }
      ensures lost.None? && next.Err? && next.error != Truncated ==>
                if Skips(next.error) then Settled(world, trace, TopDir(old(stack)), child) else MayFail(world)
      ensures next.Ok? ==> Holding(TopDepth(old(stack)) + 1, child, next.value, TopDir(old(stack)))
      ensures next.Err? ==> Walking()
      ensures next != Err(Truncated) ==> opens < old(opens)
      ensures next == Err(Truncated) ==> lost.None? && MayStop(world, opens) && old(opens) <= opens + |path|
      ensures old(opens) <= opens + |path| + 1
      ensures Resolving(world, base, path, trail) ==> lost.None?
    {
      hide Resolving, WasListed, CountAll, Handles, Shape, Logged, Settled, MayFail, MayStop, OpenedAs, LossesOf;
      hide Losing, SameWork, TookNext, Tallied;
      ghost var depth := stack[|stack| - 1].depth;
      child := TakeName();
      ghost var taken := stack;
      next, lost, instant := OpenTaken(child);
      if lost.None? && next != Err(Truncated) {
        TakingTookNext(old(stack), taken, stack);
        TakenStaysShallow(taken, stack, depth);
      }
    }

    /** Opens the next subdirectory of the deepest frame, or passes over it. */
    method OpenChild() returns (step: Step, ghost instant: nat)
      requires HasNext(stack) && Walking()
      modifies `stack, `firstOpen, `openFrames, `liveHandles, `peakOpenFrames, `reopenOpens, `opens, `now, `lostDepth,
               `path, `trail, `reopenFailures, `replaced, `vanished, `trace
      ensures old(trace) <= trace
      ensures !step.Stopped? ==> opens < old(opens)
      ensures step == Stopped(Truncated) ==> MayStop(world, opens) && old(opens) <= opens + |old(path)|
      ensures step.Stopped? && step.error != Truncated ==> MayFail(world)
      ensures old(opens) <= opens + |old(path)| + 1
      ensures old(replaced + vanished) > 0 ==> replaced + vanished > 0
      ensures !step.Passed? ==> Lost3() == old(Lost3())
      ensures step.Passed? ==>
                || replaced + vanished > 0
                || (TookNext(old(stack), stack) && Settled(world, trace, TopDir(old(stack)), TopName(old(stack))))
      ensures step.Next? ==>
                && step == Next(TopDepth(old(stack)) + 1, TopName(old(stack)), step.run, TopDir(old(stack)))
                && TookNext(old(stack), stack) && path == old(path) && trail == old(trail) && lostDepth == -1
                && world.open(instant, TopDir(old(stack)), TopName(old(stack))) == Ok(step.run)
      ensures Resolving(world, base, old(path), old(trail))
              && world.open(instant, TopDir(old(stack)), TopName(old(stack))).Ok? ==>
                step.Next? || step == Stopped(Truncated)
      ensures step.Next? ==> Holding(step.depth, step.name, step.run, step.via)
      ensures !step.Next? ==> Walking()
    {
      hide Resolving, Walking, Holding, Settled, MayFail, MayStop, TookNext, LossesOf;
      var depth, via := stack[|stack| - 1].depth, stack[|stack| - 1].identity;
      var child, next, lost;
      child, next, lost, instant := TakeChild();
      if lost.Some? {
        Lose(lost.value.0, lost.value.1);
        return Passed, instant;
      }
      if next.Err? {
        return (if Skips(next.error) then Passed else Stopped(next.error)), instant;
      }
      step := Next(depth + 1, child, next.value, via);
    }

    /** The same, with what it does to the account of an unchanging tree. */
    method OpenChildExactly() returns (step: Step)
      requires HasNext(stack) && Walking() && Exact(multiset{}) && Covering()
      modifies `stack, `firstOpen, `openFrames, `liveHandles, `peakOpenFrames, `reopenOpens, `opens, `now, `lostDepth,
               `path, `trail, `reopenFailures, `replaced, `vanished, `trace
      ensures old(trace) <= trace
      ensures step == Stopped(Truncated) ==> MayStop(world, opens) && old(opens) <= opens + |old(path)|
      ensures step.Stopped? && step.error != Truncated ==> MayFail(world)
      ensures old(opens) <= opens + |old(path)| + 1
      ensures StillTree(still) && step.Next? ==> Pending(stack) + 1 == Pending(old(stack))
      ensures !step.Stopped? ==> opens < old(opens)
      ensures step.Next? ==>
                && TookNext(old(stack), stack) && Lost3() == old(Lost3())
                && step.via == TopDir(old(stack)) && step.name == TopName(old(stack))
      ensures step.Next? ==>
                && Holding(step.depth, step.name, step.run, step.via) && Exact(Beneath(still, step.run))
                && (StillTree(still) ==> LeadsTo(still, trail, step.depth, step.name, step.run))
      ensures step.Passed? ==> Walking() && !StillTree(still) && Exact(multiset{}) && PartOfTree() && Covering()
      ensures step.Stopped? ==> Walking() && PartOfTree() && (StillTree(still) ==> step.error == Truncated)
    {
      hide Conserves, StillTree, Resolving, LeadsTo, WasListed, Whole, CountAll, Beneath, Handles, Shape, Logged;
      hide Settled, AllSettled, MayFail, MayStop, Losing, OpenedAs, LossesOf;
      ghost var before := Now();
      ghost var tree := StillTree(still);
      if tree {
        VisitIsSafe(still, before);
      }
      ghost var counted0, losses := (counted, log), Lost3();
      ghost var instant;
      step, instant := OpenChild();
      assert (counted, log) == counted0;
      if tree {
        TakenLeads(still, before, instant);
        if step.Next? {
          TakingPendsOneLess(before.stack, stack);
          TakenConserves(still, before, stack);
        }
      }
      if step.Passed? && replaced + vanished == 0 && old(replaced + vanished) == 0 {
        TakenSettles(world, old(trace), log, before.stack, trace, stack);
      }
    }

    /** Descends into the next subdirectory of the deepest frame. */
    method VisitChild() returns (err: Option<WalkError>)
      requires HasNext(stack) && Walking() && Exact(multiset{}) && Frugality() && Covering()
      modifies this
      ensures Walking() && PartOfTree() && old(trace) <= trace
      ensures err.None? ==> Exact(multiset{}) && Frugality() && Covering() && opens < old(opens)
      ensures err == Some(Truncated) ==> MayStop(world, opens)
      ensures err.Some? && err.value != Truncated ==> MayFail(world)
      ensures err == Some(Truncated) && StillTree(still) && Enough(still, budget) ==> EverCancelled(world)
      ensures StillTree(still) && err.Some? ==> err.value == Truncated
    {
      hide Conserves, StillTree, LeadsTo, WasListed, Beneath, Frugal, Enough, TurnCost, Pending, DirsIn;
      hide Walking, Holding, Exact, PartOfTree, Settled, AllSettled, MayFail;
      ghost var before, spent := Now(), opens;
      ExactIsPart();
      if StillTree(still) {
        NextTurnIsAffordable(still, before, opens, budget);
      }
      ghost var log0 := log;
      var step := OpenChildExactly();
      assert counted == before.counted && log == log0;
      match step {
        case Passed =>
          NothingToSave(still, stack, counted, opens, budget);
          err := None;
        case Stopped(e) => err := Some(e);
        case Next(depth, name, run, via) =>
          ghost var mid, losses := stack, Lost3();
          ghost var read;
          err, read := Enter(depth, name, run, via);
          assert losses == Lost3();
          TurnStaysFrugal(still, before.stack, before.counted, spent, budget, stack, counted, opens);
          if err.None? && replaced + vanished == 0 {
            TakenSettles(world, old(trace), log0, before.stack, trace, mid);
            if read.Some? {
              ReadSettles(world, trace, log0, mid, read.value, depth, stack);
            }
          }
      }
    }

    /** Finishes the deepest frame, which has nothing left to descend into. */
    method FinishFrame()
      requires stack != [] && stack[|stack| - 1].directories == []
      requires Walking() && Exact(multiset{}) && Frugality() && Covering()
      modifies this
      ensures Walking() && Exact(multiset{}) && PartOfTree() && Frugality() && Covering() && old(trace) <= trace
      ensures opens == old(opens) && |stack| < |old(stack)|
    {
      hide Conserves, Ancestry, StillTree, Whole, WasListed, OpenedByListedNames, Frugal, Held, Traced, LossesOf;
      hide AllSettled, CountAll;
      if StillTree(still) {
        CompletionConserves(still, Now());
        VisitIsSafe(still, Now());
      }
      FinishedFrameStaysFrugal(still, stack, counted, opens, budget);
      ghost var kept := (tally, counted, log, opens, vanished, replaced, reopenFailures);
      Complete();
      assert kept == (tally, counted, log, opens, vanished, replaced, reopenFailures);
      if replaced + vanished == 0 {
        FinishedSettles(world, old(trace), log, old(stack), trace);
      }
    }

    /** One turn of the loop: finish the deepest frame or descend from it. */
    method Visit() returns (err: Option<WalkError>)
      requires stack != [] && Walking() && Exact(multiset{}) && Frugality() && Covering()
      modifies this
      ensures Walking() && PartOfTree() && old(trace) <= trace
      ensures err.None? ==> Exact(multiset{}) && Frugality() && Covering()
      ensures err == Some(Truncated) && StillTree(still) && Enough(still, budget) ==> EverCancelled(world)
      ensures err.None? ==> opens < old(opens) || (opens == old(opens) && |stack| < |old(stack)|)
      ensures err == Some(Truncated) ==> MayStop(world, opens)
      ensures err.Some? && err.value != Truncated ==> MayFail(world)
      ensures StillTree(still) && err.Some? ==> err.value == Truncated
    {
      hide Walking, Exact, PartOfTree, Frugality, Covering, StillTree, Enough, MayFail, MayStop;
      if stack[|stack| - 1].directories != [] {
        err := VisitChild();
      } else {
        FinishFrame();
        err := None;
      }
    }

    ghost predicate Fresh()
      reads this
    {
      && stack == [] && path == [] && trail == [] && log == [] && trace == [] && counted == [still.rootInfo]
      && vanished == replaced == reopenFailures == 0 && lostDepth == -1 && opens == budget
      && Walking()
      && still == Still(world, base, rootName, still.fs, still.rank, still.root, still.rootInfo)
    }

    /** Opens the named directory. */
    method OpenTop() returns (top: Result<DirId, WalkError>)
      requires Fresh() && IsDirectory(still.rootInfo)
      modifies `opens, `now, `liveHandles, `trace
      ensures top.Ok? ==>
                && Holding(0, rootName, top.value, base) && Exact(Beneath(still, top.value))
                && (StillTree(still) ==> LeadsTo(still, trail, 0, rootName, top.value))
      ensures top.Err? ==> Walking() && (StillTree(still) ==> top.error == Truncated)
      ensures PartOfTree() && budget <= opens + 1
      ensures top == Err(Truncated) ==> MayStop(world, opens) && opens == budget
      ensures top.Err? && Skips(top.error) ==> Settled(world, trace, base, rootName)
      ensures top.Err? && top.error != Truncated && !Skips(top.error) ==> MayFail(world)
    {
      hide Conserves, StillTree, Whole, LeadsTo, Beneath, Held, Traced, Settled, MayFail, OpenedAs, AskedFor, MayStop;
      hide FramesWereListed, OpenedByListedNames, CountAll, Ancestry;
      ghost var instant := now;
      ghost var before := (Now(), log, tally, Lost3(), lostDepth);
      top := OpenChildOf(base, rootName);
      assert before == (Now(), log, tally, Lost3(), lostDepth);
      if StillTree(still) {
        StartConserves(still, Now(), instant);
      }
    }

    /** Opens the named directory and reads it. */
    method Begin() returns (err: Option<WalkError>)
      requires Fresh() && IsDirectory(still.rootInfo)
      modifies this
      ensures Walking() && PartOfTree()
      ensures err.None? ==> Exact(multiset{}) && Frugality() && Covering() && Settled(world, trace, base, rootName)
      ensures err == Some(Truncated) && StillTree(still) && Enough(still, budget) ==> EverCancelled(world)
      ensures err == Some(Truncated) ==> MayStop(world, opens)
      ensures err.Some? && err.value != Truncated ==> MayFail(world)
      ensures StillTree(still) && err.Some? ==> err.value == Truncated
    {
      hide Conserves, StillTree, Whole, LeadsTo, Beneath, Handles, Settled, MayFail, OpenedAs, AllSettled, LossesOf;
      hide Enough;
      hide FramesWereListed, OpenedByListedNames, CountAll, Ancestry, Losing, DirsIn, Pending, Frugal;
      if StillTree(still) {
        FrugalStart(still, budget);
      }
      var top := OpenTop();
      NothingListedYet(world, trace);
      if top.Err? {
        NothingToSave(still, stack, counted, opens, budget);
        return if Skips(top.error) then None else Some(top.error);
      }
      ghost var read;
      err, read := Enter(0, rootName, top.value, base);
      FirstFolder(still, budget, stack, counted, opens);
      NothingListedYet(world, trace);
      if read.Some? {
        ReadSettles(world, trace, [], [], read.value, 0, stack);
        assert [] + [read.value] == log;
      }
    }

    /** Walks everything beneath the named directory. */
    method Descend() returns (err: Option<WalkError>)
      requires Fresh() && IsDirectory(still.rootInfo)
      modifies this
      ensures Walking() && PartOfTree()
      ensures err.None? ==> stack == [] && Settled(world, trace, base, rootName)
      ensures err.None? && replaced + vanished == 0 ==> AllSettled(world, trace, log, [])
      ensures err == Some(Truncated) && StillTree(still) && Enough(still, budget) ==> EverCancelled(world)
      ensures err == Some(Truncated) ==> MayStop(world, opens)
      ensures err.Some? && err.value != Truncated ==> MayFail(world)
      ensures StillTree(still) ==>
                if err.None? then multiset(counted) == Whole(still) else err.value == Truncated
    {
      hide Conserves, StillTree, Whole, Settled, MayFail, AllSettled, Enough, MayStop;
      hide Handles, Logged, Tallied, Losing, Shape, PartOfTree, Frugality;
      err := Begin();
      while err.None? && stack != []
        invariant Walking() && PartOfTree()
        invariant err.None? ==> Exact(multiset{}) && Frugality() && Covering() && Settled(world, trace, base, rootName)
        invariant err == Some(Truncated) && StillTree(still) && Enough(still, budget) ==> EverCancelled(world)
        invariant err == Some(Truncated) ==> MayStop(world, opens)
        invariant err.Some? && err.value != Truncated ==> MayFail(world)
        invariant StillTree(still) && err.Some? ==> err.value == Truncated
        decreases err.None?, opens, |stack|
      {
        ghost var earlier := trace;
        err := Visit();
        SettledStays(world, earlier, trace, base, rootName);
      }
      if err.None? && StillTree(still) {
        ConservedIsPart(still, Now(), multiset{});
      }
    }

    method CloseAll()
      requires Handles(multiset{})
      modifies `stack, `openFrames, `liveHandles, `now, `trace
      ensures liveHandles == 0 && openFrames == 0 && LiveOf(trace) == multiset{} && old(trace) <= trace
      ensures Traced() && Held(multiset{}) && LossesOf(trace) == LossesOf(old(trace))
      ensures old(stack) == [] ==> trace == old(trace)
    {
      hide Traced, LiveOf, PeakOf, LossesOf, HeldBy;
      for i := 0 to |stack|
        invariant |stack| == |old(stack)| && Traced() && Held(multiset{})
        invariant LossesOf(trace) == LossesOf(old(trace)) && old(trace) <= trace
        invariant forall k :: i <= k < |stack| ==> stack[k] == old(stack)[k]
        invariant forall k :: 0 <= k < i ==> stack[k].run.None?
        invariant i == 0 ==> trace == old(trace)
      {
        Release(i, multiset{});
      }
      NoneHeld(stack);
    }

    /** Walks what the entry names, if it is a directory, and gives every handle back. */
    method Measure(info: Info) returns (err: Option<WalkError>)
      requires Fresh() && info == still.rootInfo
      modifies this
      ensures Lawful(world, base, trace) && OpenedByListedNames(Enumerations(trace), base, rootName)
      ensures tally == CountAll(start, [info] + CountedIn(trace))
      ensures opens + Attempts(trace) == budget
      ensures liveHandles == |LiveOf(trace)| == 0
      ensures PeakOf(trace) <= peakOpenFrames + 2 && peakOpenFrames <= MAX_OPEN_FRAMES
      ensures replaced == LossesOf(trace).replaced && vanished == LossesOf(trace).vanished
      ensures IsDirectory(info) && err.None? && replaced + vanished == 0 ==>
                NothingLeftOut(world, trace, base, rootName)
      ensures err == Some(Truncated) ==> MayStop(world, opens)
      ensures err.Some? && err.value != Truncated ==> MayFail(world)
      ensures IsDirectory(info) && StillTree(still) ==>
                && vanished == 0 && replaced == 0 && multiset(counted) <= Whole(still)
                && (if err.None? then multiset(counted) == Whole(still) else err.value == Truncated)
                && (err.Some? && Enough(still, budget) ==> EverCancelled(world))
      ensures !IsDirectory(info) ==> err.None? && trace == [] && vanished == replaced == 0
      ensures tally == CountAll(start, counted) && counted != [] && counted[0] == info
    {
      hide StillTree, Whole, Enough, Settled, AllSettled, MayFail, MayStop, Lawful, Ancestry, CountAll, Count;
      hide Enumerations, LiveOf, PeakOf, CountedIn, Attempts, LossesOf, HeldBy, OpenedByListedNames, WasListed;
      err := None;
      if IsDirectory(info) {
        err := Descend();
      }
      ghost var done := trace;
      ghost var figures := (tally, vanished, replaced, peakOpenFrames, opens, counted, log);
      CloseAll();
      assert figures == (tally, vanished, replaced, peakOpenFrames, opens, counted, log);
      if IsDirectory(info) && err.None? && replaced + vanished == 0 {
        NothingIsLeftOut(world, done, trace, base, rootName);
      }
    }

    constructor (world: World, now: nat, budget: nat, base: DirId, name: Name, info: Info, seen: Seen,
                 ghost still: Still)
      requires still.rootInfo == info
      ensures this.world == world && this.base == base && rootName == name && this.still == still
      ensures this.now == now && opens == budget && this.budget == budget
      ensures start == Tally(0, 0, 0, seen) && counted == [info] && tally == Count(start, info)
      ensures firstOpen == 0 && closeFailures == reopenOpens == 0
      ensures openFrames == liveHandles == peakOpenFrames == 0
      ensures still == Still(world, base, name, still.fs, still.rank, still.root, info) ==> Fresh()
    {
      this.world, this.base, this.rootName, this.still := world, base, name, still;
      this.now, opens, this.budget := now, budget, budget;
      tally, start, counted := Count(Tally(0, 0, 0, seen), info), Tally(0, 0, 0, seen), [info];
      stack, path, trail, log, trace, firstOpen := [], [], [], [], [], 0;
      vanished, replaced, closeFailures, reopenOpens, reopenFailures, lostDepth := 0, 0, 0, 0, 0, -1;
      openFrames, liveHandles, peakOpenFrames := 0, 0, 0;
      new;
      CountAllCons(start, info, []);
      assert [info] + [] == [info];
    }
  }

  /** What one walk reports. */
  datatype WalkReport = WalkReport(tally: Tally, truncated: bool, failed: bool, vanished: nat, replaced: nat,
                                   opensLeft: nat, now: nat, liveHandles: int, peakOpenFrames: int)

  /** Sums one directory entry and, when it is a directory, everything beneath it.
      `trace` is everything the walk did. `fs`, `rank` and `root` describe the tree when
      it does not change while the walk runs. */
  method WalkHandoffTree(world: World, now: nat, budget: nat, parent: DirId, name: Name, info: Info, seen: Seen,
                         ghost fs: Filesystem, ghost rank: DirId -> nat)
    returns (report: WalkReport, ghost trace: seq<Act>)
    ensures Lawful(world, parent, trace)
    ensures report.tally == CountAll(Tally(0, 0, 0, seen), [info] + CountedIn(trace))
    ensures report.opensLeft + Attempts(trace) == budget
    ensures report.liveHandles == |LiveOf(trace)| == 0
    ensures PeakOf(trace) <= report.peakOpenFrames + 2 && report.peakOpenFrames <= MAX_OPEN_FRAMES
    ensures OpenedByListedNames(Enumerations(trace), parent, name)
    ensures report.replaced == LossesOf(trace).replaced && report.vanished == LossesOf(trace).vanished
    ensures IsDirectory(info) && !report.truncated && !report.failed && report.replaced + report.vanished == 0 ==>
              NothingLeftOut(world, trace, parent, name)
    ensures report.truncated ==> !report.failed && MayStop(world, report.opensLeft)
    ensures report.failed ==> MayFail(world)
    ensures report.tally.entries >= 1 && report.tally.charged >= ENTRY_FLOOR
    ensures report.tally.seen.Inodes? <==> seen.Inodes?
    ensures !IsDirectory(info) ==>
              && trace == [] && !report.truncated && !report.failed && report.vanished == report.replaced == 0
              && report.tally == Count(Tally(0, 0, 0, seen), info)
    ensures var c := Still(world, parent, name, fs, rank, info.inode, info);
      var whole := if StillTree(c) then [info] + Below(fs, rank, info.inode) else [];
      IsDirectory(info) && StillTree(c) && Consistent(whole) ==>
        && report.vanished == 0 && report.replaced == 0 && !report.failed
        && (!report.truncated ==>
              report.tally == RecursiveSum(fs, rank, Count(Tally(0, 0, 0, seen), info), info.inode, fs[info.inode]))
        && NoMore(report.tally, CountAll(Tally(0, 0, 0, seen), whole))
    ensures var c := Still(world, parent, name, fs, rank, info.inode, info);
      IsDirectory(info) && StillTree(c) && Enough(c, budget) && report.truncated ==> EverCancelled(world)
  {
    hide StillTree, Whole, RecursiveSum, Below, Consistent, Enough, MayFail, MayStop, Lawful, NothingLeftOut;
    hide CountAll, Count, Enumerations, LiveOf, PeakOf, CountedIn, Attempts, LossesOf, OpenedByListedNames, NoMore;
    ghost var still := Still(world, parent, name, fs, rank, info.inode, info);
    var walk := new HandoffWalk(world, now, budget, parent, name, info, seen, still);
    var err := walk.Measure(info);
    trace := walk.trace;
    if IsDirectory(info) {
      FiguresOfTree(still, walk.start, walk.counted);
    }
    CountingStarts(walk.start, walk.counted);
    report := WalkReport(walk.tally, err == Some(Truncated), err.Some? && err != Some(Truncated),
                         walk.vanished, walk.replaced, walk.opens, walk.now, walk.liveHandles, walk.peakOpenFrames);
  }
}
