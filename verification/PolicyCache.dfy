/** The Computer policy cache: installs, grants, revocations and the drain barriers
    an install waits on. Source: agent/computer_policy.go. */
module PolicyCache {
  import opened Common
  import opened PolicyEvaluation

  type AuthId = nat

  /** `barriers` are the installs waiting for this authorization, oldest first. */
  datatype Authorization = Authorization(computer: string, person: Person, permission: Permission, barriers: seq<nat>,
                                         revoked: bool)

  datatype Acknowledgement = Acknowledgement(node: string, boot: string, generation: int, revision: int, digest: string)

  /** A receipt's channel is the drain barrier of the install that made it. */
  datatype Receipt = Receipt(ack: Acknowledgement, barrier: nat)

  datatype Refusal = Malformed | OtherBoot | AlreadyExpired | Regressed | ChangedSilently

  datatype InstallResult = Installed(receipt: Receipt) | Refused(why: Refusal)

  function AckOf(s: Snapshot): Acknowledgement {
    Acknowledgement(s.node, s.boot, s.generation, s.revision, s.digest)
  }

  /** (generation, revision) pairs, compared generation first. */
  predicate Below(g: int, r: int, g': int, r': int) {
    g < g' || (g == g' && r < r')
  }

  predicate SameRevision(a: Acknowledgement, b: Acknowledgement) {
    a.generation == b.generation && a.revision == b.revision
  }

  // ----- What every step keeps, over values -----

  /** One successful install, as history remembers it. */
  datatype Installation = Installation(ack: Acknowledgement, deviceRequired: bool, affected: set<AuthId>)

  /** Live unrevoked authorizations belong to the installed generation and are
      worth no more than the installed snapshot gives; an invalid cache has none. */
  ghost predicate NoExcessAuthority(valid: bool, s: Snapshot, live: map<AuthId, Authorization>, acquiredIn: map<AuthId,
                                    int>) {
    forall id :: id in live && !live[id].revoked ==>
      && valid && id in acquiredIn && acquiredIn[id] == s.generation
      && Rank(live[id].permission) <= Rank(Evaluate(s, true, live[id].computer, live[id].person))
  }

  /** Installs only ever go up, and a device requirement once installed at a
      revision stays. */
  ghost predicate Ascending(installs: seq<Installation>) {
    forall i, j :: 0 <= i < j < |installs| ==>
      && !Below(installs[j].ack.generation, installs[j].ack.revision, installs[i].ack.generation,
                installs[i].ack.revision)
      && (SameRevision(installs[i].ack, installs[j].ack) && installs[i].deviceRequired ==> installs[j].deviceRequired)
  }

  /** The barriers of a live authorization run up to the newest install: once an
      install waits for it, so does every later one. */
  ghost predicate Contiguous(barriers: seq<nat>, installs: nat) {
    |barriers| <= installs && forall i :: 0 <= i < |barriers| ==> barriers[i] == installs - |barriers| + i
  }

  ghost predicate BarriersMatchHistory(installs: seq<Installation>, live: map<AuthId, Authorization>) {
    && (forall id :: id in live ==>
        && Contiguous(live[id].barriers, |installs|)
        && (live[id].barriers != [] ==> live[id].revoked))
    && (forall id, k :: id in live && 0 <= k < |installs| ==> (id in installs[k].affected <==> k in live[id].barriers))
  }

  /** Who still owes install k a release: live, or removed with the release of
      that barrier still to come. */
  ghost function Owing(live: map<AuthId, Authorization>, draining: map<AuthId, seq<nat>>, k: nat): set<AuthId> {
    (set id | id in live && k in live[id].barriers) + (set id | id in draining && k in draining[id])
  }

  ghost predicate Counted(remaining: seq<nat>, live: map<AuthId, Authorization>, draining: map<AuthId, seq<nat>>) {
    && live.Keys !! draining.Keys
    && (forall id :: id in draining ==> Increasing(draining[id], |remaining|))
    && forall k :: 0 <= k < |remaining| ==> remaining[k] == |Owing(live, draining, k)|
  }

  ghost predicate Increasing(barriers: seq<nat>, bound: nat) {
    && (forall i :: 0 <= i < |barriers| ==> barriers[i] < bound)
    && forall i, j :: 0 <= i < j < |barriers| ==> barriers[i] < barriers[j]
  }

  /** Nothing an install affected is still live. */
  ghost predicate Released(installs: seq<Installation>, live: map<AuthId, Authorization>, k: nat)
    requires k < |installs|
  {
    forall id :: id in installs[k].affected ==> id !in live
  }

  lemma AffectedStillOwes(installs: seq<Installation>, live: map<AuthId, Authorization>, draining: map<AuthId,
                          seq<nat>>, j: nat, k: nat, id: AuthId)
    requires BarriersMatchHistory(installs, live) && j <= k < |installs| && id in live && id in installs[j].affected
    ensures id in Owing(live, draining, k)
  {
    assert j in live[id].barriers;
    var i :| 0 <= i < |live[id].barriers| && live[id].barriers[i] == j;
    assert live[id].barriers[i + k - j] == k;
  }

  /** A drained barrier speaks for its own install and for every one before it. */
  lemma DrainedMeansReleased(installs: seq<Installation>, remaining: seq<nat>, live: map<AuthId, Authorization>,
                             draining: map<AuthId, seq<nat>>, k: nat)
    requires BarriersMatchHistory(installs, live) && Counted(remaining, live, draining) && |remaining| == |installs|
    requires k < |remaining| && remaining[k] == 0
    ensures forall j :: 0 <= j <= k ==> Released(installs, live, j)
  {
    assert Owing(live, draining, k) == {};
    forall j, id | 0 <= j <= k && id in installs[j].affected ensures id !in live {
      if id in live {
        AffectedStillOwes(installs, live, draining, j, k, id);
      }
    }
  }

  // ----- Installing -----

  /** Whom a snapshot affects: the revoked, the demoted, and everyone when the
      generation changes. */
  function Affected(live: map<AuthId, Authorization>, s: Snapshot, generationChanged: bool): set<AuthId> {
    set id | id in live && (live[id].revoked || generationChanged
                            || Rank(Evaluate(s, true, live[id].computer, live[id].person)) < Rank(live[id].permission))
  }

  function Revoke(live: map<AuthId, Authorization>, ids: set<AuthId>): map<AuthId, Authorization> {
    map id | id in live :: if id in ids then live[id].(revoked := true) else live[id]
  }

  function Await(live: map<AuthId, Authorization>, ids: set<AuthId>, barrier: nat): map<AuthId, Authorization> {
    map id | id in live ::
      if id in ids then live[id].(revoked := true, barriers := live[id].barriers + [barrier]) else live[id]
  }

  lemma InstallMatchesHistory(installs: seq<Installation>, live: map<AuthId, Authorization>, s: Snapshot,
                              changed: bool, deviceRequired: bool)
    requires BarriersMatchHistory(installs, live)
    ensures var ids := Affected(live, s, changed);
      BarriersMatchHistory(installs + [Installation(AckOf(s), deviceRequired, ids)], Await(live, ids, |installs|))
  {
    var ids := Affected(live, s, changed);
    var all, after := installs + [Installation(AckOf(s), deviceRequired, ids)], Await(live, ids, |installs|);
    forall id | id in after
      ensures Contiguous(after[id].barriers, |all|) && (after[id].barriers != [] ==> after[id].revoked)
    {
      assert live[id].barriers != [] ==> id in ids;
    }
    forall id, k | id in after && 0 <= k < |all| ensures id in all[k].affected <==> k in after[id].barriers {
      if k == |installs| {
        assert id !in ids ==> live[id].barriers == [];
        if id in ids {
          assert after[id].barriers[|live[id].barriers|] == k;
        }
      } else {
        assert all[k] == installs[k];
        assert k in after[id].barriers <==> k in live[id].barriers;
      }
    }
  }

  lemma OwingAfterInstall(installs: seq<Installation>, live: map<AuthId, Authorization>, draining: map<AuthId,
                          seq<nat>>, ids: set<AuthId>, k: nat)
    requires BarriersMatchHistory(installs, live) && ids <= live.Keys && k <= |installs|
    requires forall id :: id in draining ==> Increasing(draining[id], |installs|)
    ensures Owing(Await(live, ids, |installs|), draining, k) == if k < |installs| then Owing(live, draining, k) else ids
  {
    var n := |installs|;
    var after := Await(live, ids, n);
    if k < n {
      assert forall id :: id in live ==> (k in after[id].barriers <==> k in live[id].barriers);
    } else {
      assert forall id :: id in live ==> n !in live[id].barriers;
      assert forall id :: id in ids ==> after[id].barriers[|live[id].barriers|] == n;
    }
  }

  lemma InstallCounts(remaining: seq<nat>, installs: seq<Installation>, live: map<AuthId, Authorization>,
                      draining: map<AuthId, seq<nat>>, ids: set<AuthId>)
    requires Counted(remaining, live, draining) && BarriersMatchHistory(installs, live) && |remaining| == |installs|
    requires ids <= live.Keys
    ensures Counted(remaining + [|ids|], Await(live, ids, |remaining|), draining)
  {
    var n := |remaining|;
    var after := Await(live, ids, n);
    assert after.Keys == live.Keys;
    forall id | id in draining ensures Increasing(draining[id], n + 1) {
      assert Increasing(draining[id], n);
    }
    hide Owing, Increasing, BarriersMatchHistory, Await;
    forall k | 0 <= k <= n ensures (remaining + [|ids|])[k] == |Owing(after, draining, k)| {
      OwingAfterInstall(installs, live, draining, ids, k);
    }
  }

  lemma InstallKeepsAuthority(valid: bool, current: Snapshot, s: Snapshot, live: map<AuthId, Authorization>,
                              acquiredIn: map<AuthId, int>, barrier: nat)
    requires NoExcessAuthority(valid, current, live, acquiredIn)
    ensures NoExcessAuthority(true, s, Await(live, Affected(live, s, valid && s.generation != current.generation),
                                             barrier), acquiredIn)
  {
  }

  lemma InstallAscends(installs: seq<Installation>, next: Installation, current: Snapshot)
    requires Ascending(installs)
    requires installs != [] ==> var last := installs[|installs| - 1];
      last.ack.generation == current.generation && last.ack.revision == current.revision
          && last.deviceRequired == current.adminDeviceRequired
    requires installs != [] ==> !Below(next.ack.generation, next.ack.revision, current.generation, current.revision)
    requires next.ack.generation == current.generation && next.ack.revision == current.revision ==>
               current.adminDeviceRequired ==> next.deviceRequired
    ensures Ascending(installs + [next])
  {
    var all := installs + [next];
    forall i, j | 0 <= i < j < |all|
      ensures !Below(all[j].ack.generation, all[j].ack.revision, all[i].ack.generation, all[i].ack.revision)
      ensures SameRevision(all[i].ack, all[j].ack) && all[i].deviceRequired ==> all[j].deviceRequired
    {
      if j == |installs| && i < |installs| - 1 {
        var last := installs[|installs| - 1];
        assert !Below(last.ack.generation, last.ack.revision, all[i].ack.generation, all[i].ack.revision);
      }
    }
  }

  // ----- Releasing -----

  lemma CountedTransfer(remaining: seq<nat>, live: map<AuthId, Authorization>, draining: map<AuthId, seq<nat>>,
                        other: map<AuthId, Authorization>, owed: map<AuthId, seq<nat>>)
    requires Counted(remaining, live, draining) && other.Keys !! owed.Keys
    requires forall id :: id in owed ==> Increasing(owed[id], |remaining|)
    requires forall k: nat :: Owing(other, owed, k) == Owing(live, draining, k)
    ensures Counted(remaining, other, owed)
  {
    hide Owing, Increasing;
  }

  lemma RemovingKeepsCounts(remaining: seq<nat>, live: map<AuthId, Authorization>, draining: map<AuthId, seq<nat>>,
                            id: AuthId)
    requires Counted(remaining, live, draining) && id in live && Contiguous(live[id].barriers, |remaining|)
    ensures Counted(remaining, live - {id}, draining[id := live[id].barriers])
  {
    var after, owed := live - {id}, draining[id := live[id].barriers];
    assert id !in draining && Increasing(live[id].barriers, |remaining|);
    forall k: nat ensures Owing(after, owed, k) == Owing(live, draining, k) {
      hide Counted, Increasing;
    }
    CountedTransfer(remaining, live, draining, after, owed);
  }

  lemma OwingAfterRelease(live: map<AuthId, Authorization>, draining: map<AuthId, seq<nat>>, id: AuthId, bound: nat,
                          m: nat)
    requires id in draining && id !in live && draining[id] != [] && Increasing(draining[id], bound)
    ensures var k := draining[id][0];
      Owing(live, draining[id := draining[id][1..]], m) == Owing(live, draining, m) - (if m == k then {id} else {})
  {
    var k, rest := draining[id][0], draining[id][1..];
    assert draining[id] == [k] + rest;
    assert k !in rest;
  }

  lemma OwesItsFirstBarrier(remaining: seq<nat>, live: map<AuthId, Authorization>, draining: map<AuthId, seq<nat>>,
                            id: AuthId)
    requires Counted(remaining, live, draining) && id in draining && draining[id] != []
    ensures draining[id][0] < |remaining| && remaining[draining[id][0]] > 0
    ensures id !in live && Increasing(draining[id], |remaining|) && id in Owing(live, draining, draining[id][0])
  {
    assert id in Owing(live, draining, draining[id][0]);
  }

  lemma ReleasingOneBarrier(remaining: seq<nat>, live: map<AuthId, Authorization>, draining: map<AuthId, seq<nat>>,
                            id: AuthId)
    requires Counted(remaining, live, draining) && id in draining && draining[id] != []
    ensures var k := draining[id][0];
      && k < |remaining| && remaining[k] > 0
      && Counted(remaining[k := remaining[k] - 1], live, draining[id := draining[id][1..]])
  {
    OwesItsFirstBarrier(remaining, live, draining, id);
    hide Owing;
    var k, rest := draining[id][0], draining[id][1..];
    var owed, after := draining[id := rest], remaining[k := remaining[k] - 1];
    assert Increasing(rest, |remaining|);
    forall x | x in owed ensures Increasing(owed[x], |after|) {
      hide Increasing;
      assert x != id ==> owed[x] == draining[x];
    }
    hide Increasing;
    assert owed.Keys == draining.Keys;
    forall m | 0 <= m < |after| ensures after[m] == |Owing(live, owed, m)| {
      OwingAfterRelease(live, draining, id, |remaining|, m);
      assert remaining[m] == |Owing(live, draining, m)|;
    }
  }

  // ----- The cache -----

  /** Installs are only added and what was released stays released. */
  ghost predicate OnlyForward(before: seq<Installation>, liveBefore: map<AuthId, Authorization>,
                              after: seq<Installation>, liveAfter: map<AuthId, Authorization>) {
    && |before| <= |after| && (forall k :: 0 <= k < |before| ==> after[k] == before[k])
    && forall k :: 0 <= k < |before| && Released(before, liveBefore, k) ==> Released(after, liveAfter, k)
  }

  /** No identity is used twice. */
  ghost predicate Numbered(installs: seq<Installation>, live: map<AuthId, Authorization>, draining: map<AuthId,
                           seq<nat>>, last: nat) {
    && (forall id :: id in live || id in draining ==> id <= last)
    && forall k, id :: 0 <= k < |installs| && id in installs[k].affected ==> id <= last
  }

  /** The newest install is the snapshot held, and the high-water mark is its. */
  ghost predicate HoldsNewest(installs: seq<Installation>, s: Snapshot, valid: bool, highGeneration: int,
                              highRevision: int) {
    && s.generation == highGeneration && s.revision == highRevision
    && (installs == [] ==> !valid && !s.adminDeviceRequired)
    && (installs != [] ==>
        && installs[|installs| - 1].ack == AckOf(s)
        && installs[|installs| - 1].deviceRequired == s.adminDeviceRequired)
  }

  const NO_SNAPSHOT := Snapshot(false, "", "", 0, 0, "", 0, "", false, [], [])

  /** The same revision, and something about it changed. Nothing is compared once the
      cache is closed, except when the device requirement was on. */
  predicate SilentlyChanged(wasValid: bool, current: Snapshot, next: Snapshot) {
    && (wasValid || current.adminDeviceRequired)
    && current.generation == next.generation && current.revision == next.revision
    && !SameRevisionAllowed(current, next)
  }

  /** Access rises exactly for those the new snapshot names on a Computer the old one
      does not list, or under a Fabric the old one was not issued by. */
  ghost predicate RaisesOnlyNewcomers(current: Snapshot, next: Snapshot) {
    forall computer, p {:trigger Raises(current, next, computer, p)} ::
      Raises(current, next, computer, p) <==>
        Names(next, computer, p) && (p.fabric != current.issuingFabric || !Lists(current, computer))
  }

  lemma SameRevisionRaisesOnlyNewcomers(current: Snapshot, next: Snapshot)
    requires Validated(current) && Validated(next) && SameRevisionAllowed(current, next)
    ensures RaisesOnlyNewcomers(current, next)
  {
    hide Validated, SameRevisionAllowed, Raises, Names, Lists;
    forall computer, p
      ensures Raises(current, next, computer, p) <==>
                Names(next, computer, p) && (p.fabric != current.issuingFabric || !Lists(current, computer))
    {
      SameRevisionRaisesExactly(current, next, computer, p);
    }
  }

  /** What any install raises, compared or not. */
  ghost predicate RaisesTheNewlyNamed(current: Snapshot, next: Snapshot) {
    forall computer, p {:trigger Raises(current, next, computer, p)} ::
      Raises(current, next, computer, p) <==>
        || (NamesFor(next, computer, p, Control) && !NamesFor(current, computer, p, Control))
        || (Names(next, computer, p) && !Names(current, computer, p))
  }

  lemma AnyInstallRaisesTheNewlyNamed(current: Snapshot, next: Snapshot)
    requires Validated(current) && Validated(next)
    ensures RaisesTheNewlyNamed(current, next)
  {
    hide Validated, Raises, NamesFor;
    forall computer, p
      ensures Raises(current, next, computer, p) <==>
                || (NamesFor(next, computer, p, Control) && !NamesFor(current, computer, p, Control))
                || (Names(next, computer, p) && !Names(current, computer, p))
    {
      RaisesExactlyTheNewlyNamed(current, next, computer, p);
    }
  }

  class ComputerPolicyCache {
    const node: string
    const boot: string
    var snapshot: Snapshot
    var valid: bool
    var highGeneration: int
    var highRevision: int
    var installSerial: nat
    var lastAuthId: nat
    var live: map<AuthId, Authorization>
    /** Sessions each install still waits for. */
    var remaining: seq<nat>
    /** Authorizations removed under the lock whose barriers are being released. */
    var draining: map<AuthId, seq<nat>>
    ghost var installs: seq<Installation>
    ghost var acquiredIn: map<AuthId, int>

    ghost predicate Valid()
      reads this
    {
      && |remaining| == |installs|
      && HoldsNewest(installs, snapshot, valid, highGeneration, highRevision)
      && (installs != [] ==> Validated(snapshot))
      && Ascending(installs)
      && NoExcessAuthority(valid, snapshot, live, acquiredIn)
      && BarriersMatchHistory(installs, live)
      && Counted(remaining, live, draining)
      && Numbered(installs, live, draining, lastAuthId)
    }

    constructor (node: string, boot: string)
      ensures Valid() && installs == [] && live == map[] && draining == map[] && !valid && snapshot == NO_SNAPSHOT
      ensures this.node == node && this.boot == boot
    {
      this.node, this.boot := node, boot;
      snapshot, valid, highGeneration, highRevision := NO_SNAPSHOT, false, 0, 0;
      installSerial, lastAuthId, live, remaining, draining := 0, 0, map[], [], map[];
      installs, acquiredIn := [], map[];
    }

    /** Takes every live authorization's authority away. Nothing is forgotten: the
        snapshot and the high-water mark stay. */
    method Invalidate()
      requires Valid()
      modifies `valid, `installSerial, `live
      ensures Valid() && !valid
      ensures live == Revoke(old(live), old(live).Keys)
      ensures installSerial == old(installSerial) || installSerial == old(installSerial) + 1
      ensures old(valid) ==> installSerial > old(installSerial)
      ensures OnlyForward(installs, old(live), installs, live)
    {
      hide NoExcessAuthority, BarriersMatchHistory, Counted, Numbered, Ascending, OnlyForward, Released;
      RevokingAll(valid, snapshot, installs, live, remaining, draining, lastAuthId, acquiredIn);
      if valid || |live| != 0 {
        valid := false;
        installSerial := installSerial + 1;
        live := Revoke(live, live.Keys);
      }
    }

    method ExpireIfNeeded(now: int)
      requires Valid()
      modifies `valid, `installSerial, `live
      ensures Valid()
      ensures valid == (old(valid) && snapshot.freshUntil > now)
      ensures valid == old(valid) ==> live == old(live) && installSerial == old(installSerial)
      ensures valid != old(valid) ==> live == Revoke(old(live), old(live).Keys)
      ensures OnlyForward(installs, old(live), installs, live)
    {
      if valid && snapshot.freshUntil <= now {
        Invalidate();
      }
    }

    /** The timer an install armed. Only the install that is still current expires. */
    method ExpiryFires(serial: nat)
      requires Valid()
      modifies `valid, `installSerial, `live
      ensures Valid()
      ensures serial == old(installSerial) ==> !valid && live == Revoke(old(live), old(live).Keys)
      ensures serial != old(installSerial) ==>
                valid == old(valid) && live == old(live) && installSerial == old(installSerial)
      ensures OnlyForward(installs, old(live), installs, live)
    {
      if installSerial == serial {
        Invalidate();
      }
    }

    method AcquireGrant(computer: string, person: Person, validPerson: bool, now: int)
      returns (acquired: Option<AuthId>)
      requires Valid()
      modifies `valid, `installSerial, `live, `lastAuthId, `acquiredIn
      ensures Valid()
      ensures acquired.Some? <==> validPerson && valid && Evaluate(snapshot, true, computer, person) != NoAccess
      ensures acquired.Some? ==>
                && acquired.value !in old(live)
                && var permission := Evaluate(snapshot, true, computer, person);
                   live == old(live)[acquired.value := Authorization(computer, person, permission, [], false)]
      ensures valid == (old(valid) && (snapshot.freshUntil > now || !validPerson))
      ensures OnlyForward(installs, old(live), installs, live)
    {
      hide NoExcessAuthority, BarriersMatchHistory, Counted, Numbered, Ascending, OnlyForward, Released;
      hide HoldsNewest, Evaluate;
      if !validPerson {
        NothingReleased(installs, live);
        return None;
      }
      ExpireIfNeeded(now);
      var permission := Evaluate(snapshot, valid, computer, person);
      EvaluateClosed(snapshot, valid, computer, person);
      if permission == NoAccess {
        return None;
      }
      var id := lastAuthId + 1;
      var authorization := Authorization(computer, person, permission, [], false);
      Acquiring(snapshot, installs, live, remaining, draining, lastAuthId, acquiredIn, authorization);
      ForwardTwice(installs, old(live), live, live[id := authorization]);
      live, lastAuthId, acquiredIn := live[id := authorization], id, acquiredIn[id := snapshot.generation];
      acquired := Some(id);
    }

    /** Installs a snapshot nothing was found against. */
    method InstallChecked(s: Snapshot) returns (receipt: Receipt)
      requires Valid() && Validated(s) && !SilentlyChanged(valid, snapshot, s)
      requires !Below(s.generation, s.revision, highGeneration, highRevision)
      modifies `snapshot, `valid, `highGeneration, `highRevision, `installSerial, `live, `remaining, `installs
      ensures Valid() && valid && snapshot == s && receipt == Receipt(AckOf(s), |old(installs)|)
      ensures var affected := Affected(old(live), s, old(valid) && s.generation != old(snapshot).generation);
        && installs == old(installs) + [Installation(AckOf(s), s.adminDeviceRequired, affected)]
        && remaining == old(remaining) + [|affected|]
        && live == Await(old(live), affected, |old(installs)|)
      ensures OnlyForward(old(installs), old(live), installs, live)
    {
      hide NoExcessAuthority, BarriersMatchHistory, Counted, Numbered, Ascending, OnlyForward, Released, Evaluate;
      hide Affected, Await;
      hide Validated, SameRevisionAllowed;
      AllowedKeepsTheRequirement(valid, snapshot, s);
      var affected := CollectAffected(live, s, valid && s.generation != snapshot.generation);
      var barrier := |remaining|;
      Installing(valid, snapshot, installs, live, remaining, draining, lastAuthId, acquiredIn, s);
      Adopt(s, affected);
      receipt := Receipt(AckOf(s), barrier);
    }

    /** Makes a snapshot the current one and has the affected authorizations revoked. */
    method Adopt(s: Snapshot, affected: set<AuthId>)
      modifies `snapshot, `valid, `highGeneration, `highRevision, `installSerial, `live, `remaining, `installs
      ensures installs == old(installs) + [Installation(AckOf(s), s.adminDeviceRequired, affected)]
      ensures live == Await(old(live), affected, |old(remaining)|) && remaining == old(remaining) + [|affected|]
      ensures valid && snapshot == s && highGeneration == s.generation && highRevision == s.revision
      ensures installSerial == old(installSerial) + 1
    {
      hide Await;
      installs := installs + [Installation(AckOf(s), s.adminDeviceRequired, affected)];
      live := Await(live, affected, |remaining|);
      remaining := remaining + [|affected|];
      snapshot, valid, highGeneration, highRevision := s, true, s.generation, s.revision;
      installSerial := installSerial + 1;
    }

    /** Why a snapshot is refused, if it is. */
    function RefusalOf(s: Snapshot, now: int): Option<Refusal>
      reads this
    {
      if !Validated(s) then Some(Malformed)
      else if s.node != node || s.boot != boot then Some(OtherBoot)
      else if s.freshUntil <= now then Some(AlreadyExpired)
      else if Below(s.generation, s.revision, highGeneration, highRevision) then Some(Regressed)
      else if SilentlyChanged(valid, snapshot, s) then Some(ChangedSilently)
      else None
    }

    /** Installs a snapshot, or refuses it and closes the cache. */
    method Install(s: Snapshot, now: int) returns (result: InstallResult)
      requires Valid()
      modifies `snapshot, `valid, `highGeneration, `highRevision, `installSerial, `live, `remaining, `installs
      ensures Valid()
      ensures !Below(highGeneration, highRevision, old(highGeneration), old(highRevision))
      ensures result.Refused? ==>
                && !valid && snapshot == old(snapshot) && installs == old(installs) && remaining == old(remaining)
                && live == Revoke(old(live), old(live).Keys)
      ensures result.Installed? <==>
                && Validated(s) && s.node == node && s.boot == boot && s.freshUntil > now
                && !Below(s.generation, s.revision, old(highGeneration), old(highRevision))
                && !SilentlyChanged(old(valid), old(snapshot), s)
      ensures result.Installed? ==>
                var affected := Affected(old(live), s, old(valid) && s.generation != old(snapshot).generation);
                && valid && snapshot == s
                && result.receipt == Receipt(AckOf(s), |old(installs)|)
                && installs == old(installs) + [Installation(AckOf(s), s.adminDeviceRequired, affected)]
                && remaining == old(remaining) + [|affected|]
                && live == Await(old(live), affected, |old(installs)|)
      ensures result.Installed? && old(Comparable(s)) ==> RaisesOnlyNewcomers(old(snapshot), s)
      ensures result.Installed? && old(installs) != [] ==> RaisesTheNewlyNamed(old(snapshot), s)
      ensures OnlyForward(old(installs), old(live), installs, live)
    {
      hide NoExcessAuthority, BarriersMatchHistory, Counted, Numbered, Ascending, OnlyForward, Released, Evaluate;
      hide Affected, Await, Revoke;
      hide Validated, SameRevisionAllowed, RaisesOnlyNewcomers, RaisesTheNewlyNamed;
      var why := RefusalOf(s, now);
      if why.Some? {
        Invalidate();
        return Refused(why.value);
      }
      if Comparable(s) {
        SameRevisionRaisesOnlyNewcomers(snapshot, s);
      }
      if installs != [] {
        AnyInstallRaisesTheNewlyNamed(snapshot, s);
      }
      var receipt := InstallChecked(s);
      result := Installed(receipt);
    }

    /** A snapshot of the very revision held, which the cache compares with it. */
    ghost predicate Comparable(s: Snapshot)
      reads this
    {
      && installs != [] && (valid || snapshot.adminDeviceRequired)
      && s.generation == snapshot.generation && s.revision == snapshot.revision
    }

    /** The first half of a release, under the lock. */
    method Remove(id: AuthId)
      requires Valid()
      modifies `live, `draining
      ensures Valid() && live == old(live) - {id}
      ensures id in old(live) ==> draining == old(draining)[id := old(live)[id].barriers]
      ensures id !in old(live) ==> draining == old(draining)
      ensures OnlyForward(installs, old(live), installs, live)
    {
      hide Counted, Ascending, HoldsNewest;
      if id in live {
        RemovingKeepsCounts(remaining, live, draining, id);
        draining := draining[id := live[id].barriers];
        live := live - {id};
      }
    }

    /** The second half, one barrier at a time and outside the lock. */
    method ReleaseNextBarrier(id: AuthId)
      requires Valid()
      modifies `draining, `remaining
      ensures Valid()
      ensures id in old(draining) && old(draining)[id] != [] ==>
                var k := old(draining)[id][0];
                && k < |old(remaining)| && old(remaining)[k] > 0
                && draining == old(draining)[id := old(draining)[id][1..]]
                && remaining == old(remaining)[k := old(remaining)[k] - 1]
      ensures !(id in old(draining) && old(draining)[id] != []) ==>
                draining == old(draining) && remaining == old(remaining)
    {
      hide Counted, Ascending, HoldsNewest, NoExcessAuthority, BarriersMatchHistory;
      if id in draining && draining[id] != [] {
        ReleasingOneBarrier(remaining, live, draining, id);
        var k := draining[id][0];
        if remaining[k] > 0 {
          remaining := remaining[k := remaining[k] - 1];
        }
        draining := draining[id := draining[id][1..]];
      }
    }
  }

  lemma AllowedKeepsTheRequirement(valid: bool, current: Snapshot, next: Snapshot)
    requires !SilentlyChanged(valid, current, next)
    ensures next.generation == current.generation && next.revision == current.revision ==>
              current.adminDeviceRequired ==> next.adminDeviceRequired
  {
  }

  /** Install's loop over the live authorizations. */
  method CollectAffected(live: map<AuthId, Authorization>, s: Snapshot, generationChanged: bool)
    returns (affected: set<AuthId>)
    ensures affected == Affected(live, s, generationChanged)
  {
    hide Evaluate;
    affected := {};
    var todo := live.Keys;
    while todo != {}
      invariant todo <= live.Keys
      invariant affected == Affected(live, s, generationChanged) - todo
      decreases |todo|
    {
      var id :| id in todo;
      todo := todo - {id};
      var next := Evaluate(s, true, live[id].computer, live[id].person);
      if live[id].revoked || Rank(next) < Rank(live[id].permission) || generationChanged {
        affected := affected + {id};
      }
    }
  }

  lemma EvaluateClosed(s: Snapshot, valid: bool, computer: string, p: Person)
    ensures Evaluate(s, valid, computer, p) == (if valid then Evaluate(s, true, computer, p) else NoAccess)
  {
  }

  lemma NothingReleased(installs: seq<Installation>, live: map<AuthId, Authorization>)
    ensures OnlyForward(installs, live, installs, live)
  {
  }

  lemma ForwardTwice(installs: seq<Installation>, a: map<AuthId, Authorization>, b: map<AuthId, Authorization>,
                     c: map<AuthId, Authorization>)
    requires OnlyForward(installs, a, installs, b) && OnlyForward(installs, b, installs, c)
    ensures OnlyForward(installs, a, installs, c)
  {
  }

  lemma SameOwing(live: map<AuthId, Authorization>, other: map<AuthId, Authorization>, remaining: seq<nat>,
                  draining: map<AuthId, seq<nat>>)
    requires Counted(remaining, live, draining) && other.Keys == live.Keys
    requires forall id :: id in live ==> other[id].barriers == live[id].barriers
    ensures Counted(remaining, other, draining)
  {
    forall k: nat ensures Owing(other, draining, k) == Owing(live, draining, k) {
      hide Counted;
    }
    CountedTransfer(remaining, live, draining, other, draining);
  }

  lemma RevokingAll(valid: bool, s: Snapshot, installs: seq<Installation>, live: map<AuthId, Authorization>,
                    remaining: seq<nat>,
                    draining: map<AuthId, seq<nat>>, last: nat, acquiredIn: map<AuthId, int>)
    requires BarriersMatchHistory(installs, live) && Counted(remaining, live, draining)
    requires Numbered(installs, live, draining, last)
    ensures var after := Revoke(live, live.Keys);
      && NoExcessAuthority(false, s, after, acquiredIn) && BarriersMatchHistory(installs, after)
      && Counted(remaining, after, draining) && Numbered(installs, after, draining, last)
      && OnlyForward(installs, live, installs, after)
      && (live == map[] ==> after == live)
      && (NoExcessAuthority(valid, s, live, acquiredIn) && live == map[] ==>
          NoExcessAuthority(false, s, live, acquiredIn))
  {
    hide Counted;
    SameOwing(live, Revoke(live, live.Keys), remaining, draining);
  }

  lemma Acquiring(s: Snapshot, installs: seq<Installation>, live: map<AuthId, Authorization>, remaining: seq<nat>,
                  draining: map<AuthId, seq<nat>>, last: nat, acquiredIn: map<AuthId, int>, a: Authorization)
    requires NoExcessAuthority(true, s, live, acquiredIn) && BarriersMatchHistory(installs, live)
    requires |remaining| == |installs|
    requires Counted(remaining, live, draining) && Numbered(installs, live, draining, last)
    requires a.barriers == [] && a.permission == Evaluate(s, true, a.computer, a.person)
    ensures var id, after := last + 1, live[last + 1 := a];
      && NoExcessAuthority(true, s, after, acquiredIn[id := s.generation]) && BarriersMatchHistory(installs, after)
      && Counted(remaining, after, draining) && Numbered(installs, after, draining, id)
      && OnlyForward(installs, live, installs, after) && id !in live
  {
    hide Evaluate, Counted;
    OneMoreOwesNothing(remaining, live, draining, last + 1, a);
  }

  lemma OneMoreOwesNothing(remaining: seq<nat>, live: map<AuthId, Authorization>, draining: map<AuthId, seq<nat>>,
                           id: AuthId, a: Authorization)
    requires Counted(remaining, live, draining) && id !in live && id !in draining && a.barriers == []
    ensures Counted(remaining, live[id := a], draining)
  {
    var after := live[id := a];
    forall k: nat ensures Owing(after, draining, k) == Owing(live, draining, k) {
      hide Counted;
    }
    CountedTransfer(remaining, live, draining, after, draining);
  }

  lemma Installing(valid: bool, current: Snapshot, installs: seq<Installation>, live: map<AuthId, Authorization>,
                   remaining: seq<nat>,
                   draining: map<AuthId, seq<nat>>, last: nat, acquiredIn: map<AuthId, int>, s: Snapshot)
    requires NoExcessAuthority(valid, current, live, acquiredIn) && BarriersMatchHistory(installs, live)
    requires |remaining| == |installs|
    requires Counted(remaining, live, draining) && Numbered(installs, live, draining, last) && Ascending(installs)
    requires HoldsNewest(installs, current, valid, current.generation, current.revision)
    requires !Below(s.generation, s.revision, current.generation, current.revision)
    requires current.adminDeviceRequired && s.generation == current.generation && s.revision == current.revision ==>
               s.adminDeviceRequired
    ensures var affected := Affected(live, s, valid && s.generation != current.generation);
      var all, after := installs + [Installation(AckOf(s), s.adminDeviceRequired, affected)],
          Await(live, affected, |remaining|);
      && NoExcessAuthority(true, s, after, acquiredIn) && BarriersMatchHistory(all, after)
      && Counted(remaining + [|affected|], after, draining) && Numbered(all, after, draining, last) && Ascending(all)
      && OnlyForward(installs, live, all, after)
  {
    hide Evaluate, NoExcessAuthority, BarriersMatchHistory, Counted, Ascending;
    var changed := valid && s.generation != current.generation;
    var affected := Affected(live, s, changed);
    InstallMatchesHistory(installs, live, s, changed, s.adminDeviceRequired);
    InstallCounts(remaining, installs, live, draining, affected);
    InstallKeepsAuthority(valid, current, s, live, acquiredIn, |remaining|);
    InstallAscends(installs, Installation(AckOf(s), s.adminDeviceRequired, affected), current);
  }

  // ----- Installs of one revision that raise access -----

  /** One Computer, one administrator, nothing granted. */
  function Room(id: string): Computer {
    Computer(id, [], Submission(false, 0, 1, 0))
  }

  function Plain(fabric: string, admins: seq<Admin>, computers: seq<Computer>, digest: string): Snapshot {
    Snapshot(true, "n", "b", 1, 1, digest, 9, fabric, false, admins, computers)
  }

  /** Installs one snapshot into a new cache, loses the watch or not, and installs
      another of the same revision. */
  method InstallTwice(first: Snapshot, second: Snapshot, watchLost: bool) returns (cache: ComputerPolicyCache)
    requires Validated(first) && Validated(second) && first.generation == second.generation == 1
    requires first.revision == second.revision == 1
    requires first.node == second.node == "n" && first.boot == second.boot == "b" && first.freshUntil > 0
    requires second.freshUntil > 0
    requires (watchLost && !first.adminDeviceRequired) || SameRevisionAllowed(first, second)
    ensures fresh(cache) && cache.Valid() && cache.valid && cache.snapshot == second && |cache.installs| == 2
    ensures cache.installs[0].ack == AckOf(first) && cache.installs[1].ack == AckOf(second)
  {
    hide Validated, SameRevisionAllowed, NoExcessAuthority, BarriersMatchHistory, Counted, Numbered, Ascending;
    hide OnlyForward;
    hide RaisesOnlyNewcomers, RaisesTheNewlyNamed, Affected, Await;
    cache := new ComputerPolicyCache("n", "b");
    var one := cache.Install(first, 0);
    if watchLost {
      cache.Invalidate();
    }
    var two := cache.Install(second, 0);
  }

  /** A Computer added within a revision brings whoever its lists name. */
  method NewComputerRaisesAccess() returns (cache: ComputerPolicyCache, before: Snapshot, computer: string, p: Person)
    ensures cache.Valid() && cache.valid && |cache.installs| == 2 && cache.installs[0].ack == AckOf(before)
    ensures SameRevision(AckOf(before), AckOf(cache.snapshot)) && before.issuingFabric == cache.snapshot.issuingFabric
    ensures Evaluate(before, true, computer, p) == NoAccess && Evaluate(cache.snapshot, true, computer, p) == Control
  {
    var admin := Admin("g", "u", "d");
    before := Plain("g", [admin], [], "x");
    var after := Plain("g", [admin], [Room("c")], "y");
    OneAdministrator(admin);
    assert LastComputer(before.computers, "c") == [];
    assert FirstComputer(after.computers, "c") == [Room("c")];
    cache := InstallTwice(before, after, false);
    computer, p := "c", Person("g", "u", "d");
  }

  /** Moving the issuing Fabric within a revision brings the people of the new one. */
  method MovedFabricRaisesAccess() returns (cache: ComputerPolicyCache, before: Snapshot, computer: string, p: Person)
    ensures cache.Valid() && cache.valid && |cache.installs| == 2 && cache.installs[0].ack == AckOf(before)
    ensures SameRevision(AckOf(before), AckOf(cache.snapshot)) && before.computers == cache.snapshot.computers
    ensures Evaluate(before, true, computer, p) == NoAccess && Evaluate(cache.snapshot, true, computer, p) == Control
  {
    var admin := Admin("g", "u", "d");
    before := Plain("f", [admin], [Room("c")], "x");
    var after := Plain("g", [admin], [Room("c")], "y");
    OneAdministrator(admin);
    assert "f"[0] != "g"[0];
    assert LastComputer([Room("c")], "c") == [Room("c")] && GrantPermissions([]) == map[];
    assert ComputerUnchanged(Room("c"), Room("c"));
    assert FirstComputer(after.computers, "c") == [Room("c")];
    cache := InstallTwice(before, after, false);
    computer, p := "c", Person("g", "u", "d");
  }

  /** A closed cache that had no device requirement compares nothing, so within a
      revision it lets an administrator be added. */
  method ClosedCacheRaisesAccess() returns (cache: ComputerPolicyCache, before: Snapshot, computer: string, p: Person)
    ensures cache.Valid() && cache.valid && |cache.installs| == 2 && cache.installs[0].ack == AckOf(before)
    ensures SameRevision(AckOf(before), AckOf(cache.snapshot)) && before.issuingFabric == cache.snapshot.issuingFabric
    ensures before.computers == cache.snapshot.computers && !SameRevisionAllowed(before, cache.snapshot)
    ensures Evaluate(before, true, computer, p) == NoAccess && Evaluate(cache.snapshot, true, computer, p) == Control
  {
    var admin := Admin("g", "u", "d");
    before := Plain("g", [], [Room("c")], "x");
    var after := Plain("g", [admin], [Room("c")], "y");
    assert AdminDevices([]) == map[];
    assert FirstComputer(after.computers, "c") == [Room("c")] && FirstComputer(before.computers, "c") == [Room("c")];
    assert FirstGrant([], ("g", "u")) == NoAccess && FirstAdmin([], ("g", "u")) == [];
    assert FirstAdmin([admin], ("g", "u")) == [admin];
    cache := InstallTwice(before, after, true);
    computer, p := "c", Person("g", "u", "d");
  }

  lemma OneAdministrator(admin: Admin)
    ensures AdminDevices([admin]) == map[admin.Key() := admin.device]
    ensures FirstAdmin([admin], admin.Key()) == [admin]
  {
    assert [admin][..0] == [] && AdminDevices([]) == map[];
  }
}
