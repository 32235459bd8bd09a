/** The registry of path locks attempts and the collector exclude each other with.
    Source: agent/handoff.go. */
module PathLeases {
  import opened Common

  type Key = string
  type Caller = nat
  type LockId = nat

  /** Where a caller stands. Each step between two of these is one mutex section or
      one channel operation. */
  datatype Phase =
    | Waiting      // counted, waiting for the token
    | HasToken     // taking the shared lease
    | Leased
    | Returning    // owner cleared, token not yet put back
    | Leaving      // token not held, still counted

  datatype Seat = Seat(lock: LockId, phase: Phase)

  /** One path lock. `token` says its one-slot channel is full; `taker` is kept for
      stating who emptied it. */
  datatype PathLock = PathLock(key: Key, refs: nat, token: bool, taker: Option<Caller>, owner: Option<Caller>)

  /** Every lock ever made, live or not, and which one each key names. */
  datatype State = State(paths: map<Key, LockId>, locks: map<LockId, PathLock>, next: LockId, seats: map<Caller, Seat>)

  const INITIAL := State(map[], map[], 0, map[])

  datatype Event =
    | Lock(caller: Caller, key: Key)
    | CancelWait(caller: Caller)
    | TakeToken(caller: Caller)
    | SharedLease(caller: Caller, ok: bool)
    | TryCollect(caller: Caller, key: Key, sharedOk: bool)
    | Release(caller: Caller)
    | PutTokenBack(caller: Caller)
    | DropReference(caller: Caller)

  predicate Holding(p: Phase) {
    p.HasToken? || p.Leased? || p.Returning?
  }

  predicate In(s: State, c: Caller, p: Phase) {
    c in s.seats && s.seats[c].phase == p && s.seats[c].lock in s.locks
  }

  /** One caller moves on; its lock keeps its key and its count. */
  function Change(s: State, c: Caller, p: Phase, lock: PathLock): State
    requires c in s.seats
  {
    s.(seats := s.seats[c := Seat(s.seats[c].lock, p)], locks := s.locks[s.seats[c].lock := lock])
  }

  /** A caller counts itself on a lock that is there. */
  function Join(s: State, c: Caller, l: LockId): State
    requires l in s.locks
  {
    s.(seats := s.seats[c := Seat(l, Waiting)], locks := s.locks[l := s.locks[l].(refs := s.locks[l].refs + 1)])
  }

  /** A caller makes the key's lock, counted once. */
  function Open(s: State, c: Caller, p: Phase, lock: PathLock): State {
    State(s.paths[lock.key := s.next], s.locks[s.next := lock], s.next + 1, s.seats[c := Seat(s.next, p)])
  }

  function Leave(s: State, c: Caller): State
    requires c in s.seats && s.seats[c].lock in s.locks && s.locks[s.seats[c].lock].refs > 0
  {
    var l := s.seats[c].lock;
    var lock := s.locks[l].(refs := s.locks[l].refs - 1);
    State(if lock.refs == 0 then s.paths - {lock.key} else s.paths, s.locks[l := lock], s.next, s.seats - {c})
  }

  function LockOf(s: State, c: Caller): PathLock
    requires c in s.seats && s.seats[c].lock in s.locks
  {
    s.locks[s.seats[c].lock]
  }

  function Step(s: State, e: Event): State {
    match e
    case Lock(c, key) =>
      if c in s.seats then s
      else if key !in s.paths then Open(s, c, Waiting, PathLock(key, 1, true, None, None))
      else if s.paths[key] in s.locks then Join(s, c, s.paths[key])
      else s
    case CancelWait(c) =>
      if In(s, c, Waiting) then Change(s, c, Leaving, LockOf(s, c)) else s
    case TakeToken(c) =>
      if In(s, c, Waiting) && LockOf(s, c).token
      then Change(s, c, HasToken, LockOf(s, c).(token := false, taker := Some(c)))
      else s
    case SharedLease(c, ok) =>
      if !In(s, c, HasToken) then s
      else if ok then Change(s, c, Leased, LockOf(s, c).(owner := Some(c)))
      else Change(s, c, Returning, LockOf(s, c))
    case TryCollect(c, key, sharedOk) =>
      if c in s.seats || key in s.paths || !sharedOk then s
      else Open(s, c, Leased, PathLock(key, 1, false, Some(c), Some(c)))
    case Release(c) =>
      if In(s, c, Leased) then Change(s, c, Returning, LockOf(s, c).(owner := None)) else s
    case PutTokenBack(c) =>
      if In(s, c, Returning) then Change(s, c, Leaving, LockOf(s, c).(token := true, taker := None)) else s
    case DropReference(c) =>
      if In(s, c, Leaving) && LockOf(s, c).refs > 0 then Leave(s, c) else s
  }

  function Run(s: State, events: seq<Event>): State
    decreases |events|
  {
    if events == [] then s else Run(Step(s, events[0]), events[1..])
  }

  // ----- What every step keeps -----

  function At(seats: map<Caller, Seat>, l: LockId): set<Caller> {
    set c | c in seats && seats[c].lock == l
  }

  ghost predicate Counted(s: State) {
    && (forall c :: c in s.seats ==> s.seats[c].lock in s.locks)
    && (forall l :: l in s.locks ==> l < s.next && s.locks[l].refs == |At(s.seats, l)|)
  }

  ghost predicate Registered(s: State) {
    && (forall k :: k in s.paths ==>
        && s.paths[k] in s.locks && s.locks[s.paths[k]].key == k
        && s.locks[s.paths[k]].refs > 0)
    && (forall l :: l in s.locks && s.locks[l].refs > 0 ==> s.locks[l].key in s.paths && s.paths[s.locks[l].key] == l)
  }

  /** The token is in its channel or with the one caller that took it, and a lease
      is owned by the caller that holds it. */
  ghost predicate OneToken(s: State) {
    && (forall l :: l in s.locks ==> TokenAccounted(s.seats, l, s.locks[l]))
    && (forall c :: c in s.seats && s.seats[c].lock in s.locks ==>
        SeatAccounted(s.seats[c], c, s.locks[s.seats[c].lock]))
  }

  ghost predicate TokenAccounted(seats: map<Caller, Seat>, l: LockId, lock: PathLock) {
    && (lock.token <==> lock.taker.None?)
    && (lock.taker.Some? ==>
        && lock.taker.value in seats && seats[lock.taker.value].lock == l
        && Holding(seats[lock.taker.value].phase))
    && (lock.owner.Some? ==> lock.owner.value in seats && seats[lock.owner.value] == Seat(l, Leased))
  }

  ghost predicate SeatAccounted(seat: Seat, c: Caller, lock: PathLock) {
    && (Holding(seat.phase) ==> lock.taker == Some(c))
    && (seat.phase.Leased? ==> lock.owner == Some(c))
  }

  ghost predicate Inv(s: State) {
    Counted(s) && Registered(s) && OneToken(s)
  }

  ghost predicate MovesOnFairly(s: State, c: Caller, p: Phase, lock: PathLock) {
    && c in s.seats && s.seats[c].lock in s.locks
    && lock.key == LockOf(s, c).key && lock.refs == LockOf(s, c).refs
    && TokenAccounted(s.seats[c := Seat(s.seats[c].lock, p)], s.seats[c].lock, lock)
    && SeatAccounted(Seat(s.seats[c].lock, p), c, lock)
    && (lock.taker == LockOf(s, c).taker || LockOf(s, c).taker.None? || LockOf(s, c).taker == Some(c))
    && (lock.owner == LockOf(s, c).owner || LockOf(s, c).owner.None? || LockOf(s, c).owner == Some(c))
  }

  lemma ChangeKeepsCounted(s: State, c: Caller, p: Phase, lock: PathLock)
    requires Counted(s) && c in s.seats && lock.refs == LockOf(s, c).refs
    ensures Counted(Change(s, c, p, lock))
  {
    var t := Change(s, c, p, lock);
    forall l | l in t.locks ensures t.locks[l].refs == |At(t.seats, l)| {
      assert At(t.seats, l) == At(s.seats, l);
    }
  }

  lemma ChangeKeepsRegistered(s: State, c: Caller, p: Phase, lock: PathLock)
    requires Registered(s) && c in s.seats && s.seats[c].lock in s.locks && lock.refs == LockOf(s, c).refs
    requires lock.key == LockOf(s, c).key
    ensures Registered(Change(s, c, p, lock))
  {
  }

  lemma ChangeKeepsTokens(s: State, c: Caller, p: Phase, lock: PathLock)
    requires OneToken(s) && MovesOnFairly(s, c, p, lock)
    ensures OneToken(Change(s, c, p, lock))
  {
    var t := Change(s, c, p, lock);
    forall x | x in t.seats && t.seats[x].lock in t.locks
      ensures SeatAccounted(t.seats[x], x, t.locks[t.seats[x].lock])
    {
      if x != c {
        assert SeatAccounted(s.seats[x], x, s.locks[s.seats[x].lock]);
      }
    }
    forall l | l in t.locks ensures TokenAccounted(t.seats, l, t.locks[l]) {
      if l != s.seats[c].lock {
        assert TokenAccounted(s.seats, l, s.locks[l]);
      }
    }
  }

  lemma ChangeKeepsInv(s: State, c: Caller, p: Phase, lock: PathLock)
    requires Inv(s) && MovesOnFairly(s, c, p, lock)
    ensures Inv(Change(s, c, p, lock))
  {
    hide Counted, Registered, OneToken, TokenAccounted, SeatAccounted;
    CountedSeat(s, c);
    ChangeKeepsCounted(s, c, p, lock);
    ChangeKeepsRegistered(s, c, p, lock);
    ChangeKeepsTokens(s, c, p, lock);
  }

  lemma CountedSeat(s: State, c: Caller)
    requires Counted(s) && c in s.seats
    ensures s.seats[c].lock in s.locks
  {
  }

  lemma AtAfterJoin(seats: map<Caller, Seat>, c: Caller, seat: Seat, l: LockId)
    requires c !in seats
    ensures |At(seats[c := seat], l)| == |At(seats, l)| + (if l == seat.lock then 1 else 0)
  {
    assert At(seats[c := seat], l) == At(seats, l) + (if l == seat.lock then {c} else {});
  }

  lemma AtAfterLeave(seats: map<Caller, Seat>, c: Caller, l: LockId)
    requires c in seats
    ensures |At(seats - {c}, l)| == |At(seats, l)| - (if l == seats[c].lock then 1 else 0)
  {
    assert seats[c].lock == l ==> c in At(seats, l);
    assert At(seats - {c}, l) == At(seats, l) - (if l == seats[c].lock then {c} else {});
  }

  lemma JoinKeepsCounted(s: State, c: Caller, l: LockId)
    requires Counted(s) && c !in s.seats && l in s.locks
    ensures Counted(Join(s, c, l))
  {
    hide At;
    var t := Join(s, c, l);
    forall m | m in t.locks ensures t.locks[m].refs == |At(t.seats, m)| {
      AtAfterJoin(s.seats, c, Seat(l, Waiting), m);
    }
  }

  lemma JoinKeepsInv(s: State, c: Caller, l: LockId)
    requires Inv(s) && c !in s.seats && l in s.locks && s.locks[l].refs > 0
    ensures Inv(Join(s, c, l))
  {
    hide Counted;
    JoinKeepsCounted(s, c, l);
    assert Registered(Join(s, c, l)) by {
      hide OneToken;
    }
    hide Registered;
    var t := Join(s, c, l);
    forall m | m in t.locks ensures TokenAccounted(t.seats, m, t.locks[m]) {
      assert TokenAccounted(s.seats, m, s.locks[m]);
    }
  }

  lemma OpenKeepsCounted(s: State, c: Caller, p: Phase, lock: PathLock)
    requires Counted(s) && c !in s.seats && lock.refs == 1
    ensures Counted(Open(s, c, p, lock))
  {
    var t := Open(s, c, p, lock);
    assert At(s.seats, s.next) == {};
    hide At;
    forall m | m in t.locks ensures t.locks[m].refs == |At(t.seats, m)| {
      AtAfterJoin(s.seats, c, Seat(s.next, p), m);
    }
  }

  lemma OpenKeepsTokens(s: State, c: Caller, p: Phase, lock: PathLock)
    requires OneToken(s) && c !in s.seats && s.next !in s.locks
    requires forall x :: x in s.seats ==> s.seats[x].lock in s.locks
    requires TokenAccounted(s.seats[c := Seat(s.next, p)], s.next, lock) && SeatAccounted(Seat(s.next, p), c, lock)
    ensures OneToken(Open(s, c, p, lock))
  {
    var t := Open(s, c, p, lock);
    forall m | m in t.locks ensures TokenAccounted(t.seats, m, t.locks[m]) {
      if m != s.next {
        assert TokenAccounted(s.seats, m, s.locks[m]);
      }
    }
    forall x | x in t.seats && t.seats[x].lock in t.locks
      ensures SeatAccounted(t.seats[x], x, t.locks[t.seats[x].lock])
    {
      if x != c {
        assert SeatAccounted(s.seats[x], x, s.locks[s.seats[x].lock]);
      }
    }
  }

  lemma OpenKeepsInv(s: State, c: Caller, p: Phase, lock: PathLock)
    requires Inv(s) && c !in s.seats && lock.key !in s.paths && lock.refs == 1
    requires TokenAccounted(s.seats[c := Seat(s.next, p)], s.next, lock) && SeatAccounted(Seat(s.next, p), c, lock)
    ensures Inv(Open(s, c, p, lock))
  {
    hide OneToken, TokenAccounted, SeatAccounted, At;
    assert s.next !in s.locks;
    OpenKeepsCounted(s, c, p, lock);
    OpenKeepsTokens(s, c, p, lock);
    hide Counted;
  }

  lemma LeaveKeepsCounted(s: State, c: Caller)
    requires Counted(s) && c in s.seats && s.seats[c].lock in s.locks && LockOf(s, c).refs > 0
    ensures Counted(Leave(s, c))
  {
    hide At;
    var t := Leave(s, c);
    forall m | m in t.locks ensures t.locks[m].refs == |At(t.seats, m)| {
      AtAfterLeave(s.seats, c, m);
    }
  }

  lemma LeaveKeepsTokens(s: State, c: Caller)
    requires OneToken(s) && In(s, c, Leaving) && LockOf(s, c).refs > 0
    ensures OneToken(Leave(s, c))
  {
    var t := Leave(s, c);
    forall m | m in t.locks ensures TokenAccounted(t.seats, m, t.locks[m]) {
      assert TokenAccounted(s.seats, m, s.locks[m]);
    }
    forall x | x in t.seats && t.seats[x].lock in t.locks
      ensures SeatAccounted(t.seats[x], x, t.locks[t.seats[x].lock])
    {
      assert SeatAccounted(s.seats[x], x, s.locks[s.seats[x].lock]);
    }
  }

  lemma LeaveKeepsInv(s: State, c: Caller)
    requires Inv(s) && In(s, c, Leaving) && LockOf(s, c).refs > 0
    ensures Inv(Leave(s, c))
  {
    hide Counted, OneToken;
    LeaveKeepsCounted(s, c);
    LeaveKeepsTokens(s, c);
  }

  /** What the caller's own lock says of it. */
  lemma Accounted(s: State, c: Caller, p: Phase)
    requires Inv(s) && In(s, c, p)
    ensures SeatAccounted(s.seats[c], c, LockOf(s, c)) && TokenAccounted(s.seats, s.seats[c].lock, LockOf(s, c))
    ensures Holding(p) && !p.Leased? ==> LockOf(s, c).owner.None?
  {
    hide Counted, Registered;
    var lock := LockOf(s, c);
    if lock.owner.Some? {
      OwnerTook(s, s.seats[c].lock);
    }
  }

  lemma OwnerTook(s: State, l: LockId)
    requires OneToken(s) && l in s.locks && s.locks[l].owner.Some?
    ensures s.locks[l].taker == s.locks[l].owner && s.locks[l].owner.value in s.seats
    ensures s.seats[s.locks[l].owner.value].phase.Leased?
  {
    var c := s.locks[l].owner.value;
    assert TokenAccounted(s.seats, l, s.locks[l]);
    assert SeatAccounted(s.seats[c], c, s.locks[s.seats[c].lock]);
  }

  lemma StepKeepsInv(s: State, e: Event)
    requires Inv(s)
    ensures Inv(Step(s, e))
  {
    hide Counted, OneToken;
    match e
    case Lock(c, key) =>
      if c !in s.seats {
        if key in s.paths {
          JoinKeepsInv(s, c, s.paths[key]);
        } else {
          OpenKeepsInv(s, c, Waiting, PathLock(key, 1, true, None, None));
        }
      }
    case TryCollect(c, key, ok) =>
      if c !in s.seats && key !in s.paths && ok {
        OpenKeepsInv(s, c, Leased, PathLock(key, 1, false, Some(c), Some(c)));
      }
    case DropReference(c) =>
      if In(s, c, Leaving) && LockOf(s, c).refs > 0 {
        LeaveKeepsInv(s, c);
      }
    case CancelWait(c) =>
      if In(s, c, Waiting) {
        Accounted(s, c, Waiting);
        ChangeKeepsInv(s, c, Leaving, LockOf(s, c));
      }
    case TakeToken(c) =>
      if In(s, c, Waiting) && LockOf(s, c).token {
        Accounted(s, c, Waiting);
        ChangeKeepsInv(s, c, HasToken, LockOf(s, c).(token := false, taker := Some(c)));
      }
    case SharedLease(c, ok) =>
      if In(s, c, HasToken) {
        Accounted(s, c, HasToken);
        if ok {
          ChangeKeepsInv(s, c, Leased, LockOf(s, c).(owner := Some(c)));
        } else {
          ChangeKeepsInv(s, c, Returning, LockOf(s, c));
        }
      }
    case Release(c) =>
      if In(s, c, Leased) {
        Accounted(s, c, Leased);
        ChangeKeepsInv(s, c, Returning, LockOf(s, c).(owner := None));
      }
    case PutTokenBack(c) =>
      if In(s, c, Returning) {
        Accounted(s, c, Returning);
        ChangeKeepsInv(s, c, Leaving, LockOf(s, c).(token := true, taker := None));
      }
  }

  lemma {:induction false} RunKeepsInv(s: State, events: seq<Event>)
    requires Inv(s)
    ensures Inv(Run(s, events))
    decreases |events|
  {
    hide Inv, Step;
    if events != [] {
      StepKeepsInv(s, events[0]);
      RunKeepsInv(Step(s, events[0]), events[1..]);
    }
  }

  // ----- Main results -----

  /** The caller holds or awaits a lock on this key. */
  predicate On(s: State, c: Caller, key: Key) {
    c in s.seats && s.seats[c].lock in s.locks && LockOf(s, c).key == key
  }

  predicate HoldsLease(s: State, c: Caller, key: Key) {
    On(s, c, key) && s.seats[c].phase.Leased?
  }

  lemma SameKeySameLock(s: State, a: Caller, b: Caller, key: Key)
    requires Inv(s) && On(s, a, key) && On(s, b, key)
    ensures key in s.paths && s.seats[a].lock == s.seats[b].lock == s.paths[key]
  {
    hide OneToken;
    assert a in At(s.seats, s.seats[a].lock) && b in At(s.seats, s.seats[b].lock);
  }

  /** In every run at most one unreleased lease exists for a key. */
  lemma OneLeasePerKey(events: seq<Event>, a: Caller, b: Caller, key: Key)
    ensures var s := Run(INITIAL, events);
      HoldsLease(s, a, key) && HoldsLease(s, b, key) ==> a == b
  {
    RunKeepsInv(INITIAL, events);
    var s := Run(INITIAL, events);
    if HoldsLease(s, a, key) && HoldsLease(s, b, key) {
      SameKeySameLock(s, a, b, key);
      Accounted(s, a, Leased);
      Accounted(s, b, Leased);
    }
  }

  /** In every run a key is registered exactly while somebody is counted on its
      lock, and its live lock is the only one. */
  lemma RegisteredWhileCounted(events: seq<Event>, key: Key)
    ensures var s := Run(INITIAL, events);
      && (key in s.paths <==> exists c :: On(s, c, key))
      && (forall l, m :: l in s.locks && m in s.locks && s.locks[l].refs > 0 && s.locks[m].refs > 0 ==>
            s.locks[l].key == s.locks[m].key ==> l == m)
  {
    RunKeepsInv(INITIAL, events);
    var s := Run(INITIAL, events);
    hide OneToken;
    if key in s.paths {
      assert |At(s.seats, s.paths[key])| > 0;
      var c :| c in At(s.seats, s.paths[key]);
      assert On(s, c, key);
    }
    forall c | On(s, c, key) ensures key in s.paths {
      assert c in At(s.seats, s.seats[c].lock);
    }
  }

  /** The collector gets a lease only when no attempt holds or awaits the key. */
  lemma CollectorTakesOnlyIdlePaths(events: seq<Event>, c: Caller, key: Key, sharedOk: bool)
    ensures var s, t := Run(INITIAL, events), Step(Run(INITIAL, events), TryCollect(c, key, sharedOk));
      c !in s.seats && HoldsLease(t, c, key) ==> forall x :: !On(s, x, key)
  {
    hide Inv;
    RegisteredWhileCounted(events, key);
  }

  /** In every run putting a token back finds its channel empty, so a release never
      blocks, and a token that is out is with a caller that will put it back. */
  lemma ReleasesNeverBlock(events: seq<Event>)
    ensures var s := Run(INITIAL, events);
      && (forall c :: In(s, c, Returning) ==> !LockOf(s, c).token)
      && (forall l :: l in s.locks && !s.locks[l].token ==>
          exists c :: c in s.seats && s.seats[c].lock == l && Holding(s.seats[c].phase))
  {
    RunKeepsInv(INITIAL, events);
    var s := Run(INITIAL, events);
    forall c | In(s, c, Returning) ensures !LockOf(s, c).token {
      Accounted(s, c, Returning);
    }
    forall l | l in s.locks && !s.locks[l].token
      ensures exists c :: c in s.seats && s.seats[c].lock == l && Holding(s.seats[c].phase)
    {
      hide Counted, Registered;
      assert TokenAccounted(s.seats, l, s.locks[l]);
      assert s.locks[l].taker.value in s.seats;
    }
  }

  lemma ChangeAfterOpen(s: State, c: Caller, p: Phase, lock: PathLock, p': Phase, lock': PathLock)
    requires lock.key == lock'.key
    ensures var t := Open(s, c, p, lock);
      && c in t.seats && t.seats[c] == Seat(s.next, p) && s.next in t.locks && t.locks[s.next] == lock
      && Change(t, c, p', lock') == Open(s, c, p', lock')
  {
    assert s.seats[c := Seat(s.next, p)][c := Seat(s.next, p')] == s.seats[c := Seat(s.next, p')];
    assert s.locks[s.next := lock][s.next := lock'] == s.locks[s.next := lock'];
  }

  /** Helper: locking an idle key gives a lease on a lock of its own, the state
      `ReleaseUndoesLock` starts from. */
  lemma LockLeases(s: State, c: Caller, key: Key)
    requires c !in s.seats && key !in s.paths
    ensures Step(Step(Step(s, Lock(c, key)), TakeToken(c)), SharedLease(c, true))
            == Open(s, c, Leased, PathLock(key, 1, false, Some(c), Some(c)))
  {
    hide Open, Change;
    var made := PathLock(key, 1, true, None, None);
    var taken := made.(token := false, taker := Some(c));
    ChangeAfterOpen(s, c, Waiting, made, HasToken, taken);
    ChangeAfterOpen(s, c, HasToken, taken, Leased, taken.(owner := Some(c)));
  }

  lemma LastToLeave(s: State, c: Caller, key: Key)
    requires c !in s.seats && key !in s.paths
    ensures Leave(Open(s, c, Leaving, PathLock(key, 1, true, None, None)), c)
            == State(s.paths, s.locks[s.next := PathLock(key, 0, true, None, None)], s.next + 1, s.seats)
  {
    assert s.paths[key := s.next] - {key} == s.paths;
    assert s.seats[c := Seat(s.next, Leaving)] - {c} == s.seats;
  }

  /** Releasing it leaves the registry as it was. */
  lemma ReleaseUndoesLock(s: State, c: Caller, key: Key)
    requires c !in s.seats && key !in s.paths
    ensures var leased := Open(s, c, Leased, PathLock(key, 1, false, Some(c), Some(c)));
      Step(Step(Step(leased, Release(c)), PutTokenBack(c)), DropReference(c))
      == State(s.paths, s.locks[s.next := PathLock(key, 0, true, None, None)], s.next + 1, s.seats)
  {
    hide Leave, Open, Change;
    var held := PathLock(key, 1, false, Some(c), Some(c));
    ChangeAfterOpen(s, c, Leased, held, Returning, held.(owner := None));
    ChangeAfterOpen(s, c, Returning, held.(owner := None), Leaving, PathLock(key, 1, true, None, None));
    ChangeAfterOpen(s, c, Leaving, PathLock(key, 1, true, None, None), Leaving, PathLock(key, 1, true, None, None));
    LastToLeave(s, c, key);
  }
}
