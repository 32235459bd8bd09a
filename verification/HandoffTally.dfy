/** What one accounting pass adds up, entry by entry, and why the order in which
    it meets the entries does not matter. */
module HandoffTally {

  /** A directory entry costs the node figure at least this much. */
  const ENTRY_FLOOR: nat := 4096

  datatype Kind = Regular | Directory | Other

  /** What Lstat says about one name. A directory's `inode` is also the identity
      its handle has. */
  datatype Info = Info(kind: Kind, size: nat, inode: nat, links: nat)

  /** The three figures, and the file identities this pass has charged. No set at
      all means every name is counted, which is what the per-run bound asks for. */
  datatype Tally = Tally(entries: nat, logical: nat, charged: nat, seen: Seen)

  datatype Seen = EveryName | Inodes(inodes: set<nat>)

  predicate Shared(info: Info) {
    info.kind.Regular? && info.links > 1
  }

  function Max(a: nat, b: nat): nat {
    if a < b then b else a
  }

  /** The logical bytes one entry adds. */
  function LogicalBytes(info: Info, seen: Seen): nat {
    if !info.kind.Regular? then 0
    else if seen.Inodes? && Shared(info) && info.inode in seen.inodes then 0
    else info.size
  }

  function Remember(info: Info, seen: Seen): Seen {
    if seen.Inodes? && Shared(info) then Inodes(seen.inodes + {info.inode}) else seen
  }

  function Count(t: Tally, info: Info): Tally {
    var bytes := LogicalBytes(info, t.seen);
    Tally(t.entries + 1, t.logical + bytes, t.charged + Max(bytes, ENTRY_FLOOR), Remember(info, t.seen))
  }

  function CountAll(t: Tally, infos: seq<Info>): Tally
    decreases |infos|
  {
    if infos == [] then t else CountAll(Count(t, infos[0]), infos[1..])
  }

  /** One inode has one length, however many names reach it. */
  ghost predicate Consistent(infos: seq<Info>) {
    forall x, y :: x in infos && y in infos && Shared(x) && Shared(y) && x.inode == y.inode ==> x.size == y.size
  }

  lemma {:induction false} CountAllAppend(t: Tally, a: seq<Info>, b: seq<Info>)
    ensures CountAll(t, a + b) == CountAll(CountAll(t, a), b)
    decreases |a|
  {
    if a == [] {
      assert a + b == b;
    } else {
      assert (a + b)[1..] == a[1..] + b;
      CountAllAppend(Count(t, a[0]), a[1..], b);
    }
  }

  lemma CountAllCons(t: Tally, x: Info, rest: seq<Info>)
    ensures CountAll(t, [x] + rest) == CountAll(Count(t, x), rest)
  {
    assert ([x] + rest)[1..] == rest;
  }

  /** Where the first element of one ordering stands in another, and what is left
      of that one without it. */
  lemma Matching<T>(a: seq<T>, b: seq<T>) returns (i: nat, rest: seq<T>)
    requires multiset(a) == multiset(b) && b != []
    ensures i < |a| && a[i] == b[0] && rest == a[..i] + a[i + 1..] && |rest| < |a|
    ensures multiset(rest) == multiset(b[1..])
    ensures forall x :: x in rest ==> x in a
  {
    assert b[0] in multiset(a);
    i :| 0 <= i < |a| && a[i] == b[0];
    rest := a[..i] + a[i + 1..];
    WithoutOne(a, i);
    WithoutFirst(b);
  }

  lemma WithoutFirst<T>(a: seq<T>)
    requires a != []
    ensures multiset(a[1..]) == multiset(a) - multiset{a[0]}
  {
    assert a == [a[0]] + a[1..];
  }

  lemma WithoutOne<T>(a: seq<T>, i: nat)
    requires i < |a|
    ensures multiset(a[..i] + a[i + 1..]) == multiset(a) - multiset{a[i]}
  {
    var front, back := a[..i], a[i + 1..];
    assert a == front + ([a[i]] + back);
    assert multiset(a) == multiset(front) + (multiset{a[i]} + multiset(back));
  }

  lemma SameCount<T>(a: seq<T>, b: seq<T>)
    requires multiset(a) == multiset(b)
    ensures |a| == |b|
  {
    assert |multiset(a)| == |multiset(b)|;
  }

  lemma CountCommutes(t: Tally, x: Info, y: Info)
    requires Shared(x) && Shared(y) && x.inode == y.inode ==> x.size == y.size
    ensures Count(Count(t, x), y) == Count(Count(t, y), x)
  {
    if t.seen.Inodes? {
      assert t.seen.inodes + {x.inode} + {y.inode} == t.seen.inodes + {y.inode} + {x.inode};
    }
  }

  lemma {:induction false} MoveToFront(t: Tally, infos: seq<Info>, i: nat)
    requires i < |infos| && Consistent(infos)
    ensures CountAll(t, infos) == CountAll(Count(t, infos[i]), infos[..i] + infos[i + 1..])
    decreases i
  {
    var rest := infos[..i] + infos[i + 1..];
    if i == 0 {
      assert rest == infos[1..];
    } else {
      var tail := infos[1..];
      assert forall x :: x in tail ==> x in infos;
      MoveToFront(Count(t, infos[0]), tail, i - 1);
      CountCommutes(t, infos[0], infos[i]);
      assert rest[1..] == tail[..i - 1] + tail[i..];
    }
  }

  /** Two visiting orders of the same entries come to the same figures and leave
      the same identities charged. */
  lemma {:induction false} OrderDoesNotMatter(t: Tally, a: seq<Info>, b: seq<Info>)
    requires multiset(a) == multiset(b) && Consistent(a)
    ensures CountAll(t, a) == CountAll(t, b)
    decreases |a|
  {
    SameCount(a, b);
    if b != [] {
      var i, rest := Matching(a, b);
      MoveToFront(t, a, i);
      OrderDoesNotMatter(Count(t, b[0]), rest, b[1..]);
    }
  }

  /** No figure is larger, and no identity charged that the other did not charge. */
  ghost predicate NoMore(a: Tally, b: Tally) {
    && a.entries <= b.entries && a.logical <= b.logical && a.charged <= b.charged
    && (if a.seen.Inodes? then b.seen.Inodes? && a.seen.inodes <= b.seen.inodes else b.seen.EveryName?)
  }

  lemma {:induction false} CountingOnlyAdds(t: Tally, infos: seq<Info>)
    ensures NoMore(t, CountAll(t, infos))
    decreases |infos|
  {
    if infos != [] {
      CountingOnlyAdds(Count(t, infos[0]), infos[1..]);
    }
  }

  /** An entry counted is an entry charged. */
  lemma CountingStarts(t: Tally, infos: seq<Info>)
    ensures CountAll(t, infos).seen.Inodes? <==> t.seen.Inodes?
    ensures infos != [] ==>
              CountAll(t, infos).entries > t.entries && CountAll(t, infos).charged >= t.charged + ENTRY_FLOOR
  {
    if infos != [] {
      CountingOnlyAdds(Count(t, infos[0]), infos[1..]);
    }
    CountingKeepsTheUnit(t, infos);
  }

  lemma {:induction false} CountingKeepsTheUnit(t: Tally, infos: seq<Info>)
    ensures CountAll(t, infos).seen.Inodes? <==> t.seen.Inodes?
    decreases |infos|
  {
    if infos != [] {
      CountingKeepsTheUnit(Count(t, infos[0]), infos[1..]);
    }
  }

  /** Visiting only some of the entries never reports more than visiting all of
      them, in whatever order either visit goes. */
  lemma PartialIsNoMore(t: Tally, part: seq<Info>, whole: seq<Info>)
    requires multiset(part) <= multiset(whole) && Consistent(whole)
    ensures NoMore(CountAll(t, part), CountAll(t, whole))
  {
    var rest := Elements(multiset(whole) - multiset(part));
    assert multiset(part + rest) == multiset(whole);
    assert forall x :: x in part + rest <==> x in multiset(part + rest);
    OrderDoesNotMatter(t, part + rest, whole);
    CountAllAppend(t, part, rest);
    CountingOnlyAdds(CountAll(t, part), rest);
  }

  ghost function Elements<T>(m: multiset<T>): (s: seq<T>)
    ensures multiset(s) == m
    decreases |m|
  {
    if m == multiset{} then [] else
      var x :| x in m;
      [x] + Elements(m - multiset{x})
  }

  // ----- The closed form: every linked inode once -----

  ghost function LinkedInodes(infos: seq<Info>): set<nat> {
    set info | info in infos && Shared(info) :: info.inode
  }

  /** Bytes of the files only one name reaches, beyond a per-entry allowance. */
  function UnlinkedBytes(infos: seq<Info>, allowance: nat): nat {
    if infos == [] then 0
    else (if infos[0].kind.Regular? && !Shared(infos[0]) then Beyond(infos[0].size, allowance) else 0)
         + UnlinkedBytes(infos[1..], allowance)
  }

  function Beyond(size: nat, allowance: nat): nat {
    if size > allowance then size - allowance else 0
  }

  /** Bytes of a set of inodes, each taken once. */
  ghost function InodeBytes(inodes: set<nat>, size: nat -> nat, allowance: nat): nat {
    if inodes == {} then 0 else
      var i :| i in inodes;
      Beyond(size(i), allowance) + InodeBytes(inodes - {i}, size, allowance)
  }

  lemma {:induction false} InodeBytesWith(inodes: set<nat>, x: nat, size: nat -> nat, allowance: nat)
    requires x in inodes
    ensures InodeBytes(inodes, size, allowance) == Beyond(size(x), allowance)
              + InodeBytes(inodes - {x}, size, allowance)
    decreases inodes
  {
    var i :| i in inodes && InodeBytes(inodes, size, allowance)
                            == Beyond(size(i), allowance) + InodeBytes(inodes - {i}, size, allowance);
    if i != x {
      InodeBytesWith(inodes - {i}, x, size, allowance);
      InodeBytesWith(inodes - {x}, i, size, allowance);
      assert inodes - {i} - {x} == inodes - {x} - {i};
    }
  }

  /** The figures of a pass over any entries, without reference to an order: the
      single-link files, plus each linked inode not charged before exactly once.
      Charged bytes are one floor per name plus whatever goes past the floor. */
  lemma {:induction false} LinkedBytesChargedOnce(t: Tally, infos: seq<Info>, size: nat -> nat)
    requires t.seen.Inodes?
    requires forall info :: info in infos && Shared(info) ==> info.size == size(info.inode)
    ensures var r := CountAll(t, infos);
      var unmet := LinkedInodes(infos) - t.seen.inodes;
      && r.entries == t.entries + |infos|
      && r.seen == Inodes(t.seen.inodes + LinkedInodes(infos))
      && r.logical == t.logical + UnlinkedBytes(infos, 0) + InodeBytes(unmet, size, 0)
      && r.charged == t.charged + ENTRY_FLOOR * |infos| + UnlinkedBytes(infos, ENTRY_FLOOR)
                      + InodeBytes(unmet, size, ENTRY_FLOOR)
    decreases |infos|
  {
    if infos == [] {
      assert LinkedInodes(infos) == {};
      assert t.seen.inodes + LinkedInodes(infos) == t.seen.inodes;
    } else {
      var first, tail := infos[0], infos[1..];
      var next := Count(t, first);
      assert forall info :: info in tail ==> info in infos;
      LinkedBytesChargedOnce(next, tail, size);
      assert infos == [first] + tail;
      var unmet := LinkedInodes(infos) - t.seen.inodes;
      var later := LinkedInodes(tail) - next.seen.inodes;
      if Shared(first) {
        assert LinkedInodes(infos) == {first.inode} + LinkedInodes(tail);
        assert next.seen.inodes + LinkedInodes(tail) == t.seen.inodes + LinkedInodes(infos);
        if first.inode in t.seen.inodes {
          assert unmet == later;
        } else {
          assert unmet - {first.inode} == later;
          InodeBytesWith(unmet, first.inode, size, 0);
          InodeBytesWith(unmet, first.inode, size, ENTRY_FLOOR);
        }
      } else {
        assert LinkedInodes(infos) == LinkedInodes(tail);
        assert unmet == later;
      }
    }
  }
}
