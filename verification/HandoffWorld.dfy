/** The filesystem an accounting pass reads: one that may change between any two
    calls, and the special case of one that does not. */
module HandoffWorld {
  import opened HandoffTally

  type DirId = nat
  type Name = string

  datatype IoError = NotExist | NotADirectory | OtherFailure

  datatype Result<T, E> = Ok(value: T) | Err(error: E)

  /** Every answer the filesystem could give, as a function of the instant it is
      asked at. An open handle keeps naming the directory it was opened on, so a
      handle is that directory's identity; what a name leads to may be different
      at every instant, and every call may fail. */
  datatype World = World(
    open: (nat, DirId, Name) -> Result<DirId, IoError>,
    statSelf: (nat, DirId) -> Result<(), IoError>,
    list: (nat, DirId) -> Result<seq<Name>, IoError>,
    lstat: (nat, DirId, Name) -> Result<Info, IoError>,
    cancelled: nat -> bool,
    closeFails: (nat, DirId) -> bool)

  // ----- Name order -----

  predicate NameAtMost(a: Name, b: Name) {
    a == [] || (b != [] && (a[0] < b[0] || (a[0] == b[0] && NameAtMost(a[1..], b[1..]))))
  }

  lemma {:induction false} NameOrderIsTotal(a: Name, b: Name)
    ensures NameAtMost(a, b) || NameAtMost(b, a)
    ensures NameAtMost(a, b) && NameAtMost(b, a) ==> a == b
    decreases |a|
  {
    if a != [] && b != [] && a[0] == b[0] {
      NameOrderIsTotal(a[1..], b[1..]);
      assert a == [a[0]] + a[1..] && b == [b[0]] + b[1..];
    }
  }

  lemma {:induction false} NameOrderIsTransitive(a: Name, b: Name, c: Name)
    requires NameAtMost(a, b) && NameAtMost(b, c)
    ensures NameAtMost(a, c)
    decreases |a|
  {
    if a != [] && a[0] == b[0] && b[0] == c[0] {
      NameOrderIsTransitive(a[1..], b[1..], c[1..]);
    }
  }

  ghost predicate InNameOrder(names: seq<Name>) {
    forall i, j :: 0 <= i < j < |names| ==> NameAtMost(names[i], names[j])
  }

  function InsertName(name: Name, names: seq<Name>): seq<Name> {
    if names == [] || NameAtMost(name, names[0]) then [name] + names
    else [names[0]] + InsertName(name, names[1..])
  }

  function SortNames(names: seq<Name>): seq<Name> {
    if names == [] then [] else InsertName(names[0], SortNames(names[1..]))
  }

  lemma {:induction false} InsertNameKeeps(name: Name, names: seq<Name>)
    ensures multiset(InsertName(name, names)) == multiset(names) + multiset{name}
    decreases |names|
  {
    if names != [] {
      assert names == [names[0]] + names[1..];
      InsertNameKeeps(name, names[1..]);
    }
  }

  lemma {:induction false} InsertNameSorts(name: Name, names: seq<Name>)
    requires InNameOrder(names)
    ensures InNameOrder(InsertName(name, names))
    decreases |names|
  {
    if names != [] {
      NameOrderIsTotal(name, names[0]);
      if NameAtMost(name, names[0]) {
        forall j | 0 < j < |names| ensures NameAtMost(name, names[j]) {
          NameOrderIsTransitive(name, names[0], names[j]);
        }
      } else {
        var rest := InsertName(name, names[1..]);
        InsertNameSorts(name, names[1..]);
        InsertNameKeeps(name, names[1..]);
        forall x | x in rest ensures NameAtMost(names[0], x) {
          assert x in multiset(rest);
        }
      }
    }
  }

  lemma {:induction false} SortNamesSorts(names: seq<Name>)
    ensures multiset(SortNames(names)) == multiset(names)
    ensures InNameOrder(SortNames(names))
    decreases |names|
  {
    if names != [] {
      assert names == [names[0]] + names[1..];
      SortNamesSorts(names[1..]);
      InsertNameKeeps(names[0], SortNames(names[1..]));
      InsertNameSorts(names[0], SortNames(names[1..]));
    }
  }

  /** Whatever order the filesystem listed a directory in, the walk visits it in
      the same order. */
  lemma {:induction false} VisitOrderIgnoresListingOrder(a: seq<Name>, b: seq<Name>)
    requires multiset(a) == multiset(b)
    ensures SortNames(a) == SortNames(b)
  {
    SortNamesSorts(a);
    SortNamesSorts(b);
    SortedIsUnique(SortNames(a), SortNames(b));
  }

  lemma HeadIsLeast(a: seq<Name>, x: Name)
    requires InNameOrder(a) && x in a
    ensures NameAtMost(a[0], x)
  {
    NameOrderIsTotal(x, x);
  }

  lemma {:induction false} SortedIsUnique(a: seq<Name>, b: seq<Name>)
    requires multiset(a) == multiset(b) && InNameOrder(a) && InNameOrder(b)
    ensures a == b
    decreases |a|
  {
    SameCount(a, b);
    if a != [] {
      SameHead(a, b);
      WithoutFirst(a);
      WithoutFirst(b);
      SortedIsUnique(a[1..], b[1..]);
      assert forall i :: 0 < i < |a| ==> a[i] == a[1..][i - 1] == b[1..][i - 1] == b[i];
    }
  }

  lemma SameHead(a: seq<Name>, b: seq<Name>)
    requires multiset(a) == multiset(b) && InNameOrder(a) && InNameOrder(b) && a != [] && b != []
    ensures a[0] == b[0]
  {
    assert a[0] in multiset(b) && b[0] in multiset(a);
    HeadIsLeast(a, b[0]);
    HeadIsLeast(b, a[0]);
    NameOrderIsTotal(a[0], b[0]);
  }

  // ----- A tree nobody changes -----

  datatype Entry = Entry(name: Name, info: Info)

  /** The contents of every directory, by identity. */
  type Filesystem = map<DirId, seq<Entry>>

  predicate IsDirectory(info: Info) {
    info.kind.Directory?
  }

  /** A finite tree: sibling names differ, and every subdirectory is present and
      of strictly smaller rank than the directory that holds it. */
  ghost predicate FiniteTree(fs: Filesystem, rank: DirId -> nat) {
    forall d :: d in fs ==>
      && DistinctNames(fs[d])
      && forall e :: e in fs[d] && IsDirectory(e.info) ==> e.info.inode in fs && rank(e.info.inode) < rank(d)
  }

  ghost predicate DistinctNames(entries: seq<Entry>) {
    forall i, j :: 0 <= i < j < |entries| ==> entries[i].name != entries[j].name
  }

  /** Everything beneath one directory, in the plain recursive order: each entry,
      then what is beneath it. */
  ghost function Below(fs: Filesystem, rank: DirId -> nat, d: DirId): seq<Info>
    requires FiniteTree(fs, rank) && d in fs
    decreases rank(d), |fs[d]| + 1
  {
    BelowEntries(fs, rank, d, fs[d])
  }

  ghost function BelowEntries(fs: Filesystem, rank: DirId -> nat, d: DirId, entries: seq<Entry>): seq<Info>
    requires FiniteTree(fs, rank) && d in fs && forall e :: e in entries ==> e in fs[d]
    decreases rank(d), |entries|
  {
    if entries == [] then []
    else
      [entries[0].info]
      + (if IsDirectory(entries[0].info) then Below(fs, rank, entries[0].info.inode) else [])
      + BelowEntries(fs, rank, d, entries[1..])
  }

  /** The plain recursive sum the iterative walk has to agree with. */
  ghost function RecursiveSum(fs: Filesystem, rank: DirId -> nat, t: Tally, d: DirId, entries: seq<Entry>): Tally
    requires FiniteTree(fs, rank) && d in fs && forall e :: e in entries ==> e in fs[d]
    decreases rank(d), |entries|
  {
    if entries == [] then t
    else
      var here := Count(t, entries[0].info);
      var child := entries[0].info.inode;
      var beneath := if IsDirectory(entries[0].info) then RecursiveSum(fs, rank, here, child, fs[child]) else here;
      RecursiveSum(fs, rank, beneath, d, entries[1..])
  }

  lemma {:induction false} RecursiveSumCountsBelow(fs: Filesystem, rank: DirId -> nat, t: Tally, d: DirId,
                                                   entries: seq<Entry>)
    requires FiniteTree(fs, rank) && d in fs && forall e :: e in entries ==> e in fs[d]
    ensures RecursiveSum(fs, rank, t, d, entries) == CountAll(t, BelowEntries(fs, rank, d, entries))
    decreases rank(d), |entries|
  {
    if entries != [] {
      hide Count, FiniteTree;
      var info := entries[0].info;
      var here := Count(t, info);
      var deeper := if IsDirectory(info) then Below(fs, rank, info.inode) else [];
      var later := BelowEntries(fs, rank, d, entries[1..]);
      if IsDirectory(info) {
        RecursiveSumCountsBelow(fs, rank, here, info.inode, fs[info.inode]);
      }
      RecursiveSumCountsBelow(fs, rank, CountAll(here, deeper), d, entries[1..]);
      CountAllAppend(here, deeper, later);
      CountAllCons(t, info, deeper + later);
      assert [info] + deeper + later == [info] + (deeper + later);
    }
  }

  /** This directory holds these entries at every instant, whatever order a
      listing of it comes in. */
  ghost predicate StillDirectory(w: World, d: DirId, entries: seq<Entry>) {
    && (forall t {:trigger w.list(t, d)} ::
        && w.list(t, d).Ok?
        && multiset(w.list(t, d).value) == multiset(Names(entries)))
    && (forall t {:trigger w.statSelf(t, d)} :: w.statSelf(t, d).Ok?)
    && (forall t, n {:trigger w.lstat(t, d, n)} :: n in Names(entries) ==> w.lstat(t, d, n) == Ok(InfoOf(entries, n)))
  }

  /** This world is that tree, at every instant. */
  ghost predicate Frozen(w: World, fs: Filesystem) {
    && (forall d :: d in fs ==> StillDirectory(w, d, fs[d]))
    && (forall t, d, n {:trigger w.open(t, d, n)} :: d in fs && n in Names(fs[d]) && IsDirectory(InfoOf(fs[d], n)) ==>
          w.open(t, d, n) == Ok(InfoOf(fs[d], n).inode))
  }

  function Names(entries: seq<Entry>): (names: seq<Name>)
    ensures |names| == |entries|
    ensures forall i :: 0 <= i < |entries| ==> names[i] == entries[i].name
  {
    seq(|entries|, i requires 0 <= i < |entries| => entries[i].name)
  }

  ghost function InfoOf(entries: seq<Entry>, n: Name): Info
    requires n in Names(entries)
  {
    var i :| 0 <= i < |entries| && Names(entries)[i] == n;
    entries[i].info
  }

  lemma InfoOfAt(entries: seq<Entry>, i: nat)
    requires DistinctNames(entries) && i < |entries|
    ensures entries[i].name in Names(entries) && InfoOf(entries, entries[i].name) == entries[i].info
  {
    assert Names(entries)[i] == entries[i].name;
  }
}
