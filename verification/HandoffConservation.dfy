/** What reading one directory of an unchanging tree does to the work left: the
    entries beneath it split into the ones just counted and the ones still owed. */
module HandoffConservation {
  import opened HandoffTally
  import opened HandoffWorld

  ghost predicate Listed(fs: Filesystem, d: DirId, names: seq<Name>) {
    d in fs && forall n :: n in names ==> n in Names(fs[d])
  }

  ghost predicate ListedDirectories(fs: Filesystem, d: DirId, names: seq<Name>) {
    Listed(fs, d, names) && forall n :: n in names ==> IsDirectory(InfoOf(fs[d], n))
  }

  lemma ChildIsPresent(fs: Filesystem, rank: DirId -> nat, d: DirId, n: Name)
    requires FiniteTree(fs, rank) && d in fs && n in Names(fs[d]) && IsDirectory(InfoOf(fs[d], n))
    ensures InfoOf(fs[d], n).inode in fs && rank(InfoOf(fs[d], n).inode) < rank(d)
  {
  }

  /** What is owed for subdirectories named and not yet opened. */
  ghost function Owed(fs: Filesystem, rank: DirId -> nat, d: DirId, names: seq<Name>): multiset<Info>
    requires FiniteTree(fs, rank) && ListedDirectories(fs, d, names)
    decreases |names|
  {
    if names == [] then multiset{}
    else
      ChildIsPresent(fs, rank, d, names[0]);
      multiset(Below(fs, rank, InfoOf(fs[d], names[0]).inode)) + Owed(fs, rank, d, names[1..])
  }

  ghost function InfosFor(entries: seq<Entry>, names: seq<Name>): (infos: seq<Info>)
    requires forall n :: n in names ==> n in Names(entries)
  {
    if names == [] then [] else [InfoOf(entries, names[0])] + InfosFor(entries, names[1..])
  }

  ghost function DirsFor(entries: seq<Entry>, names: seq<Name>): (dirs: seq<Name>)
    requires forall n :: n in names ==> n in Names(entries)
    ensures forall n :: n in dirs ==> n in names && IsDirectory(InfoOf(entries, n))
  {
    if names == [] then []
    else (if IsDirectory(InfoOf(entries, names[0])) then [names[0]] else []) + DirsFor(entries, names[1..])
  }

  ghost function Share(fs: Filesystem, rank: DirId -> nat, d: DirId, n: Name): multiset<Info>
    requires FiniteTree(fs, rank) && d in fs && n in Names(fs[d])
  {
    var info := InfoOf(fs[d], n);
    if IsDirectory(info) then
      ChildIsPresent(fs, rank, d, n);
      multiset{info} + multiset(Below(fs, rank, info.inode))
    else multiset{info}
  }

  ghost function Shares(fs: Filesystem, rank: DirId -> nat, d: DirId, names: seq<Name>): multiset<Info>
    requires FiniteTree(fs, rank) && Listed(fs, d, names)
    decreases |names|
  {
    if names == [] then multiset{} else Share(fs, rank, d, names[0]) + Shares(fs, rank, d, names[1..])
  }

  lemma {:induction false} SharesMoveToFront(fs: Filesystem, rank: DirId -> nat, d: DirId, names: seq<Name>, i: nat)
    requires FiniteTree(fs, rank) && Listed(fs, d, names) && i < |names|
    requires Listed(fs, d, names[..i] + names[i + 1..])
    ensures Shares(fs, rank, d, names) == Share(fs, rank, d, names[i])
              + Shares(fs, rank, d, names[..i] + names[i + 1..])
    decreases i
  {
    var rest := names[..i] + names[i + 1..];
    if i == 0 {
      assert rest == names[1..];
    } else {
      var tail := names[1..];
      assert rest[1..] == tail[..i - 1] + tail[i..];
      assert forall n :: n in rest[1..] ==> n in rest;
      SharesMoveToFront(fs, rank, d, tail, i - 1);
    }
  }

  lemma {:induction false} SharesIgnoreOrder(fs: Filesystem, rank: DirId -> nat, d: DirId, a: seq<Name>, b: seq<Name>)
    requires FiniteTree(fs, rank) && Listed(fs, d, a) && Listed(fs, d, b) && multiset(a) == multiset(b)
    ensures Shares(fs, rank, d, a) == Shares(fs, rank, d, b)
    decreases |a|
  {
    SameCount(a, b);
    if b != [] {
      var i, rest := Matching(a, b);
      SharesMoveToFront(fs, rank, d, a, i);
      SharesIgnoreOrder(fs, rank, d, rest, b[1..]);
    }
  }

  lemma {:induction false} SharesAreBelow(fs: Filesystem, rank: DirId -> nat, d: DirId, k: nat)
    requires FiniteTree(fs, rank) && d in fs && k <= |fs[d]|
    requires Listed(fs, d, Names(fs[d])[k..])
    ensures Shares(fs, rank, d, Names(fs[d])[k..]) == multiset(BelowEntries(fs, rank, d, fs[d][k..]))
    decreases |fs[d]| - k
  {
    if k < |fs[d]| {
      InfoOfAt(fs[d], k);
      var names, entries := Names(fs[d])[k..], fs[d][k..];
      assert names[1..] == Names(fs[d])[k + 1..] && entries[1..] == fs[d][k + 1..];
      assert Listed(fs, d, names[1..]) by { assert forall n :: n in names[1..] ==> n in names; }
      SharesAreBelow(fs, rank, d, k + 1);
    }
  }

  lemma {:induction false} SharesSplit(fs: Filesystem, rank: DirId -> nat, d: DirId, names: seq<Name>)
    requires FiniteTree(fs, rank) && Listed(fs, d, names)
    ensures Shares(fs, rank, d, names)
            == multiset(InfosFor(fs[d], names)) + Owed(fs, rank, d, DirsFor(fs[d], names))
    decreases |names|
  {
    if names != [] {
      var tail := names[1..];
      assert Listed(fs, d, tail);
      SharesSplit(fs, rank, d, tail);
      OwedWithHead(fs, rank, d, names);
      Regroup(Share(fs, rank, d, names[0]), InfosFor(fs[d], tail), Owed(fs, rank, d, DirsFor(fs[d], tail)),
              InfoOf(fs[d], names[0]), Owed(fs, rank, d, DirsFor(fs[d], names)));
    }
  }

  lemma Regroup(share: multiset<Info>, infos: seq<Info>, owed: multiset<Info>, head: Info, owedWithHead: multiset<Info>)
    requires multiset{head} + owedWithHead == share + owed
    ensures share + (multiset(infos) + owed) == multiset([head] + infos) + owedWithHead
  {
    calc {
      multiset([head] + infos) + owedWithHead;
      (multiset{head} + multiset(infos)) + owedWithHead;
      multiset(infos) + (multiset{head} + owedWithHead);
      multiset(infos) + (share + owed);
    }
  }

  lemma OwedWithHead(fs: Filesystem, rank: DirId -> nat, d: DirId, names: seq<Name>)
    requires FiniteTree(fs, rank) && Listed(fs, d, names) && names != []
    ensures multiset{InfoOf(fs[d], names[0])} + Owed(fs, rank, d, DirsFor(fs[d], names))
            == Share(fs, rank, d, names[0]) + Owed(fs, rank, d, DirsFor(fs[d], names[1..]))
  {
    var rest := DirsFor(fs[d], names[1..]);
    if IsDirectory(InfoOf(fs[d], names[0])) {
      assert ([names[0]] + rest)[1..] == rest;
    } else {
      assert DirsFor(fs[d], names) == rest;
    }
  }

  /** Reading a directory neither loses an entry nor invents one. */
  lemma ReadingConserves(fs: Filesystem, rank: DirId -> nat, d: DirId, names: seq<Name>)
    requires FiniteTree(fs, rank) && d in fs && multiset(names) == multiset(Names(fs[d]))
    ensures Listed(fs, d, names)
    ensures multiset(Below(fs, rank, d))
            == multiset(InfosFor(fs[d], names)) + Owed(fs, rank, d, DirsFor(fs[d], names))
  {
    forall n | n in names ensures n in Names(fs[d]) {
      assert n in multiset(names);
    }
    assert Names(fs[d])[0..] == Names(fs[d]) && fs[d][0..] == fs[d];
    SharesAreBelow(fs, rank, d, 0);
    SharesIgnoreOrder(fs, rank, d, names, Names(fs[d]));
    SharesSplit(fs, rank, d, names);
  }
}
