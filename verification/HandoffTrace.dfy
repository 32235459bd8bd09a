/** Everything one walk did to the filesystem, in order, and what such a record says:
    which handles live, what was enumerated and counted, and what was lost. */
module HandoffTrace {
  import opened Common
  import opened HandoffTally
  import opened HandoffWorld

  /** One directory the walk enumerated: the directory itself, the handle and name
      it was opened through, and the subdirectory names found in it. */
  datatype Enumeration = Enumeration(dir: DirId, via: DirId, name: Name, listed: seq<Name>)

  /** One thing a walk did, with the instant it asked the filesystem at. `Unseen` is an
      open directory that could not be looked at, `Gone` a listed name with nothing there
      any more. `Lost` is a failed re-open, with the ancestor it failed on; `Reached` is a
      frame whose handle was there or could be had again. */
  datatype Act =
    | Opened(t: nat, via: DirId, name: Name, dir: DirId)
    | OpenFailed(t: nat, via: DirId, name: Name)
    | Closed(dir: DirId)
    | Unseen(t: nat, via: DirId, name: Name, dir: DirId)
    | Listed(t: nat, dir: DirId, names: seq<Name>)
    | Counted(t: nat, dir: DirId, name: Name, info: Info)
    | Gone(t: nat, dir: DirId, name: Name)
    | Enumerated(e: Enumeration)
    | Lost(ancestor: seq<Name>, moved: bool)
    | Reached

  // ----- What a trace amounts to -----

  function LiveAfter(live: multiset<DirId>, a: Act): multiset<DirId> {
    if a.Opened? then live + multiset{a.dir} else if a.Closed? then live - multiset{a.dir} else live
  }

  /** The handles open at the end. */
  function LiveOf(trace: seq<Act>): multiset<DirId> {
    if trace == [] then multiset{} else LiveAfter(LiveOf(trace[..|trace| - 1]), trace[|trace| - 1])
  }

  function Most(a: nat, b: nat): nat {
    if a >= b then a else b
  }

  /** The most handles open at any moment. */
  function PeakOf(trace: seq<Act>): nat {
    if trace == [] then 0 else Most(PeakOf(trace[..|trace| - 1]), |LiveOf(trace)|)
  }

  /** Opens asked for, answered or not. */
  function Attempts(trace: seq<Act>): nat {
    if trace == [] then 0
    else
      var a := trace[|trace| - 1];
      Attempts(trace[..|trace| - 1]) + (if a.Opened? || a.OpenFailed? then 1 else 0)
  }

  /** The entries counted. */
  function CountedIn(trace: seq<Act>): seq<Info> {
    if trace == [] then []
    else
      var a := trace[|trace| - 1];
      CountedIn(trace[..|trace| - 1]) + (if a.Counted? then [a.info] else [])
  }

  function Enumerations(trace: seq<Act>): seq<Enumeration> {
    if trace == [] then []
    else
      var a := trace[|trace| - 1];
      Enumerations(trace[..|trace| - 1]) + (if a.Enumerated? then [a.e] else [])
  }

  /** The ancestors lost: how many were replaced, how many vanished, and the one the
      last failures were about. Failures on one ancestor with nothing reached between
      them are one loss. */
  datatype Losses = Losses(replaced: nat, vanished: nat, ancestor: Option<seq<Name>>)

  function LossesAfter(before: Losses, a: Act): Losses {
    if a.Reached? then before.(ancestor := None)
    else if !a.Lost? || before.ancestor == Some(a.ancestor) then before
    else if a.moved then Losses(before.replaced + 1, before.vanished, Some(a.ancestor))
    else Losses(before.replaced, before.vanished + 1, Some(a.ancestor))
  }

  function LossesOf(trace: seq<Act>): Losses {
    if trace == [] then Losses(0, 0, None) else LossesAfter(LossesOf(trace[..|trace| - 1]), trace[|trace| - 1])
  }

  // ----- What a walk may do -----

  ghost predicate OpenedAs(trace: seq<Act>, via: DirId, name: Name, dir: DirId) {
    exists i :: 0 <= i < |trace| && trace[i].Opened? && trace[i].via == via && trace[i].name == name
        && trace[i].dir == dir
  }

  ghost predicate ListingHas(trace: seq<Act>, dir: DirId, name: Name) {
    exists i :: 0 <= i < |trace| && trace[i].Listed? && trace[i].dir == dir && name in trace[i].names
  }

  /** A listed name was counted after the listing, and kept to descend into if it was a
      directory, or was gone by then. */
  ghost predicate Accounted(trace: seq<Act>, listing: nat, dir: DirId, name: Name, kept: seq<Name>) {
    exists j :: listing < j < |trace|
      && (trace[j].Counted? || trace[j].Gone?) && trace[j].dir == dir && trace[j].name == name
      && (trace[j].Counted? && IsDirectory(trace[j].info) ==> name in kept)
  }

  ghost predicate CountedAsDirectory(trace: seq<Act>, dir: DirId, name: Name) {
    exists j :: 0 <= j < |trace|
      && trace[j].Counted? && trace[j].dir == dir && trace[j].name == name && IsDirectory(trace[j].info)
  }

  /** Some listing of the directory was read to its end, and `kept` is the directories
      that were counted in it. */
  ghost predicate ReadWhole(trace: seq<Act>, dir: DirId, kept: seq<Name>) {
    && (forall n :: n in kept ==> CountedAsDirectory(trace, dir, n))
    && exists i :: 0 <= i < |trace| && ListingReadWhole(trace, i, dir, kept)
  }

  ghost predicate ListingReadWhole(trace: seq<Act>, i: nat, dir: DirId, kept: seq<Name>)
    requires i < |trace|
  {
    && trace[i].Listed? && trace[i].dir == dir
    && forall n :: n in trace[i].names ==> Accounted(trace, i, dir, n, kept)
  }

  /** A directory a name can be opened in. */
  predicate Reachable(base: DirId, before: seq<Act>, dir: DirId) {
    dir == base || dir in LiveOf(before)
  }

  /** One act is what the filesystem answered, and was allowed by what came before: a name
      is opened through a live handle or the walk's base, only a live handle is closed or
      listed, only a listed name is counted, and a directory
      is enumerated through a live handle opened by the name it is recorded under, once
      its listing was read to the end. */
  ghost predicate ActOk(world: World, base: DirId, before: seq<Act>, a: Act) {
    match a
    case Opened(t, via, name, dir) => world.open(t, via, name) == Ok(dir) && Reachable(base, before, via)
    case OpenFailed(t, via, name) => world.open(t, via, name).Err? && Reachable(base, before, via)
    case Closed(dir) => dir in LiveOf(before)
    case Unseen(t, via, name, dir) => world.statSelf(t, dir).Err? && OpenedAs(before, via, name, dir)
    case Listed(t, dir, names) => world.list(t, dir) == Ok(names) && dir in LiveOf(before)
    case Counted(t, dir, name, info) => world.lstat(t, dir, name) == Ok(info) && ListingHas(before, dir, name)
    case Gone(t, dir, name) => world.lstat(t, dir, name) == Err(NotExist) && ListingHas(before, dir, name)
    case Enumerated(e) =>
      e.dir in LiveOf(before) && OpenedAs(before, e.via, e.name, e.dir) && ReadWhole(before, e.dir, e.listed)
    case _ => true
  }

  ghost predicate Lawful(world: World, base: DirId, trace: seq<Act>) {
    forall k :: 0 <= k < |trace| ==> ActOk(world, base, trace[..k], trace[k])
  }

  lemma LawfulAppend(world: World, base: DirId, trace: seq<Act>, a: Act)
    requires Lawful(world, base, trace) && ActOk(world, base, trace, a)
    ensures Lawful(world, base, trace + [a])
  {
    hide ActOk;
    var longer := trace + [a];
    forall k | 0 <= k < |longer| ensures ActOk(world, base, longer[..k], longer[k]) {
      assert k < |trace| ==> longer[..k] == trace[..k];
      assert k == |trace| ==> longer[..k] == trace;
    }
  }

  /** Every figure of a trace after one more act. */
  lemma After(trace: seq<Act>, a: Act)
    ensures LiveOf(trace + [a]) == LiveAfter(LiveOf(trace), a)
    ensures LossesOf(trace + [a]) == LossesAfter(LossesOf(trace), a)
    ensures Attempts(trace + [a]) == Attempts(trace) + (if a.Opened? || a.OpenFailed? then 1 else 0)
    ensures CountedIn(trace + [a]) == CountedIn(trace) + (if a.Counted? then [a.info] else [])
    ensures Enumerations(trace + [a]) == Enumerations(trace) + (if a.Enumerated? then [a.e] else [])
    ensures PeakOf(trace + [a]) == Most(PeakOf(trace), |LiveOf(trace + [a])|)
  {
    assert (trace + [a])[..|trace|] == trace;
  }

  /** What only looking leaves alone: the handles open, their peak, the opens asked for
      and the losses. */
  function FootingOf(trace: seq<Act>): (multiset<DirId>, nat, nat, Losses) {
    (LiveOf(trace), PeakOf(trace), Attempts(trace), LossesOf(trace))
  }

  predicate OnlyLooks(a: Act) {
    a.Unseen? || a.Listed? || a.Counted? || a.Gone? || a.Enumerated?
  }

  lemma Quietly(trace: seq<Act>, a: Act)
    requires OnlyLooks(a)
    ensures FootingOf(trace + [a]) == FootingOf(trace)
  {
    After(trace, a);
    PeakCoversNow(trace);
  }

  lemma ClosingKeepsThePeak(trace: seq<Act>, dir: DirId)
    requires dir in LiveOf(trace)
    ensures PeakOf(trace + [Closed(dir)]) == PeakOf(trace)
    ensures |LiveOf(trace + [Closed(dir)])| == |LiveOf(trace)| - 1
  {
    After(trace, Closed(dir));
    PeakCoversNow(trace);
  }

  /** Some loss was reported whenever the last failures were about one. */
  lemma {:induction false} LostAncestorWasReported(trace: seq<Act>)
    ensures LossesOf(trace).ancestor.Some? ==> LossesOf(trace).replaced + LossesOf(trace).vanished > 0
    decreases |trace|
  {
    if trace != [] {
      LostAncestorWasReported(trace[..|trace| - 1]);
    }
  }

  lemma {:induction false} PeakCoversNow(trace: seq<Act>)
    ensures |LiveOf(trace)| <= PeakOf(trace)
  {
  }

  /** At no moment, not only at the end, were more handles open than the peak says. */
  lemma {:induction false} PeakCoversEveryMoment(trace: seq<Act>, k: nat)
    requires k <= |trace|
    ensures |LiveOf(trace[..k])| <= PeakOf(trace)
    decreases |trace|
  {
    if k == |trace| {
      assert trace[..k] == trace;
    } else {
      assert trace[..|trace| - 1][..k] == trace[..k];
      PeakCoversEveryMoment(trace[..|trace| - 1], k);
    }
  }

  lemma OpenedAsStays(trace: seq<Act>, longer: seq<Act>, via: DirId, name: Name, dir: DirId)
    requires OpenedAs(trace, via, name, dir) && trace <= longer
    ensures OpenedAs(longer, via, name, dir)
  {
    var i :| 0 <= i < |trace| && trace[i].Opened? && trace[i].via == via && trace[i].name == name
        && trace[i].dir == dir;
    assert longer[i] == trace[i];
  }

  lemma AccountedStays(trace: seq<Act>, longer: seq<Act>, listing: nat, dir: DirId, name: Name,
                       kept: seq<Name>, more: seq<Name>)
    requires Accounted(trace, listing, dir, name, kept) && trace <= longer && forall n :: n in kept ==> n in more
    ensures Accounted(longer, listing, dir, name, more)
  {
    var j :| listing < j < |trace|
      && (trace[j].Counted? || trace[j].Gone?) && trace[j].dir == dir && trace[j].name == name
      && (trace[j].Counted? && IsDirectory(trace[j].info) ==> name in kept);
    assert longer[j] == trace[j];
  }

  lemma CountedAsDirectoryStays(trace: seq<Act>, longer: seq<Act>, dir: DirId, name: Name)
    requires CountedAsDirectory(trace, dir, name) && trace <= longer
    ensures CountedAsDirectory(longer, dir, name)
  {
    var j :| 0 <= j < |trace|
      && trace[j].Counted? && trace[j].dir == dir && trace[j].name == name && IsDirectory(trace[j].info);
    assert longer[j] == trace[j];
  }

  lemma ListingHasIt(trace: seq<Act>, listing: nat, dir: DirId, name: Name)
    requires listing < |trace| && trace[listing].Listed? && trace[listing].dir == dir && name in trace[listing].names
    ensures ListingHas(trace, dir, name)
  {
  }

  /** One more child of a listing inspected. */
  lemma AccountedSoFar(before: seq<Act>, a: Act, listing: nat, dir: DirId, children: seq<Name>, i: nat,
                       known: seq<Name>, kept: seq<Name>)
    requires i < |children| && listing < |before|
    requires (a.Counted? || a.Gone?) && a.dir == dir && a.name == children[i]
    requires kept == known + (if a.Counted? && IsDirectory(a.info) then [children[i]] else [])
    requires forall k :: 0 <= k < i ==> Accounted(before, listing, dir, children[k], known)
    requires forall n :: n in known ==> CountedAsDirectory(before, dir, n)
    ensures forall k :: 0 <= k <= i ==> Accounted(before + [a], listing, dir, children[k], kept)
    ensures forall n :: n in kept ==> CountedAsDirectory(before + [a], dir, n)
  {
    var longer := before + [a];
    assert longer[|before|] == a;
    forall k | 0 <= k <= i ensures Accounted(longer, listing, dir, children[k], kept) {
      if k < i {
        hide Accounted;
        AccountedStays(before, longer, listing, dir, children[k], known, kept);
      }
    }
    forall n | n in kept ensures CountedAsDirectory(longer, dir, n) {
      if n in known {
        CountedAsDirectoryStays(before, longer, dir, n);
      }
    }
  }

  lemma LookingKeepsHandles(before: seq<Act>, after: seq<Act>, dir: DirId)
    requires FootingOf(after) == FootingOf(before) && dir in LiveOf(before)
    ensures dir in LiveOf(after)
  {
  }

  lemma FootingParts(before: seq<Act>, after: seq<Act>)
    requires FootingOf(after) == FootingOf(before)
    ensures LiveOf(after) == LiveOf(before) && PeakOf(after) == PeakOf(before) && LossesOf(after) == LossesOf(before)
  {
  }

  lemma LossKeepsHandles(trace: seq<Act>, a: Act)
    requires a.Lost? || a.Reached?
    ensures LiveOf(trace + [a]) == LiveOf(trace) && PeakOf(trace + [a]) == PeakOf(trace)
  {
    After(trace, a);
    PeakCoversNow(trace);
  }

  // ----- Leaving nothing out -----

  predicate GoneOrReplaced(e: IoError) {
    e == NotExist || e == NotADirectory
  }

  /** One act settles a name to descend into: its directory was read whole, or there was
      no directory there to open or to look at. */
  ghost predicate Settles(world: World, a: Act, via: DirId, name: Name) {
    match a
    case Enumerated(e) => e.via == via && e.name == name
    case OpenFailed(t, v, n) => v == via && n == name && world.open(t, v, n).Err?
        && GoneOrReplaced(world.open(t, v, n).error)
    case Unseen(t, v, n, d) => v == via && n == name && world.statSelf(t, d).Err?
        && GoneOrReplaced(world.statSelf(t, d).error)
    case _ => false
  }

  ghost predicate Settled(world: World, trace: seq<Act>, via: DirId, name: Name) {
    exists i :: 0 <= i < |trace| && Settles(world, trace[i], via, name)
  }

  lemma SettledStays(world: World, trace: seq<Act>, longer: seq<Act>, via: DirId, name: Name)
    requires Settled(world, trace, via, name) && trace <= longer
    ensures Settled(world, longer, via, name)
  {
    hide Settles;
    var i :| 0 <= i < |trace| && Settles(world, trace[i], via, name);
    assert longer[i] == trace[i];
  }

  lemma LastSettles(world: World, trace: seq<Act>, via: DirId, name: Name)
    requires trace != [] && Settles(world, trace[|trace| - 1], via, name)
    ensures Settled(world, trace, via, name)
  {
    hide Settles;
  }

  /** The directory a walk was for, and every subdirectory of every directory it read,
      is settled. */
  ghost predicate NothingLeftOut(world: World, trace: seq<Act>, base: DirId, rootName: Name) {
    && Settled(world, trace, base, rootName)
    && var log := Enumerations(trace);
       forall k, n :: 0 <= k < |log| && n in log[k].listed ==> Settled(world, trace, log[k].dir, n)
  }

  // ----- Enumerating only what was listed -----

  ghost predicate WasListed(log: seq<Enumeration>, dir: DirId, names: seq<Name>) {
    exists j :: 0 <= j < |log| && log[j].dir == dir && forall n :: n in names ==> n in log[j].listed
  }

  lemma ListedParts(log: seq<Enumeration>, dir: DirId, names: seq<Name>)
    requires WasListed(log, dir, names) && names != []
    ensures WasListed(log, dir, names[1..]) && WasListed(log, dir, [names[0]])
  {
  }

  /** Every directory after the first was opened by a name some earlier
      enumeration listed, through a handle on the very directory it listed. */
  ghost predicate OpenedByListedNames(log: seq<Enumeration>, base: DirId, rootName: Name) {
    && (|log| > 0 ==> log[0].via == base && log[0].name == rootName)
    && forall k :: 1 <= k < |log| ==> WasListed(log[..k], log[k].via, [log[k].name])
  }

  lemma LogGrows(log: seq<Enumeration>, e: Enumeration, dir: DirId, names: seq<Name>)
    requires WasListed(log, dir, names)
    ensures WasListed(log + [e], dir, names)
  {
    var j :| 0 <= j < |log| && log[j].dir == dir && forall n :: n in names ==> n in log[j].listed;
    assert (log + [e])[j] == log[j];
  }

  lemma LogAppend(log: seq<Enumeration>, e: Enumeration, base: DirId, rootName: Name)
    requires OpenedByListedNames(log, base, rootName)
    requires if log == [] then e.via == base && e.name == rootName else WasListed(log, e.via, [e.name])
    ensures OpenedByListedNames(log + [e], base, rootName)
    ensures WasListed(log + [e], e.dir, e.listed)
  {
    var longer := log + [e];
    forall k | 1 <= k < |longer|
      ensures WasListed(longer[..k], longer[k].via, [longer[k].name])
    {
      assert longer[..k] == log[..k];
      assert k == |log| ==> log[..k] == log;
    }
    assert longer[|log|] == e;
  }
}
