/** Acknowledging policy installs to L1 once their sessions have closed: what a selection
    speaks for, over every run of the cache and the queue together.
    Source: agent/computer_policy_ack.go. */
module PolicyAcks {
  import opened Common
  import opened PolicyEvaluation
  import opened PolicyCache

  /** Some install acknowledged as `a` is settled: everything it affected, and
      everything any install before it affected, has been released. */
  ghost predicate Settled(installs: seq<Installation>, live: map<AuthId, Authorization>, a: Acknowledgement) {
    exists k :: 0 <= k < |installs| && installs[k].ack == a && ReleasedThrough(installs, live, k)
  }

  ghost predicate ReleasedThrough(installs: seq<Installation>, live: map<AuthId, Authorization>, k: int)
    requires k < |installs|
  {
    forall j :: 0 <= j <= k ==> Released(installs, live, j)
  }

  predicate Drained(remaining: seq<nat>, receipt: Option<nat>) {
    match receipt
    case None => true
    case Some(k) => k < |remaining| && remaining[k] == 0
  }

  /** The acknowledgements a selection throws away. */
  predicate AtMost(a: Acknowledgement, b: Acknowledgement) {
    !Below(b.generation, b.revision, a.generation, a.revision)
  }

  function Without(pending: map<Acknowledgement, Option<nat>>,
                   selected: Acknowledgement): map<Acknowledgement, Option<nat>> {
    map a | a in pending && !AtMost(a, selected) :: pending[a]
  }

  /** A drained receipt with no drained one above it. Between receipts of one revision
      the choice is the map's. */
  ghost predicate Selects(remaining: seq<nat>, pending: map<Acknowledgement, Option<nat>>, a: Acknowledgement) {
    && a in pending && Drained(remaining, pending[a])
    && forall b :: b in pending && Drained(remaining, pending[b]) ==> AtMost(b, a)
  }

  // ----- The cache and the queue together -----

  /** `pending` is each acknowledgement's channel: an install's barrier, or one already
      closed. `submitted` are the installs whose receipts were handed over, `delivering`
      the acknowledgement on its way to L1. */
  datatype System = System(
    installs: seq<Installation>, live: map<AuthId, Authorization>, remaining: seq<nat>, draining: map<AuthId, seq<nat>>,
    pending: map<Acknowledgement, Option<nat>>, submitted: set<nat>, delivering: Option<Acknowledgement>)

  datatype Move = CacheMoves | Submits(install: nat) | Takes(ack: Acknowledgement) | Delivered | Retries

  ghost predicate CacheOk(s: System) {
    && |s.remaining| == |s.installs| && Ascending(s.installs)
    && BarriersMatchHistory(s.installs, s.live) && Counted(s.remaining, s.live, s.draining)
  }

  ghost predicate Init(s: System) {
    CacheOk(s) && s.pending == map[] && s.submitted == {} && s.delivering == None
  }

  /** The cache may do anything that only adds installs and forgets no release. */
  ghost predicate Step(s: System, m: Move, s': System) {
    match m
    case CacheMoves =>
      && OnlyForward(s.installs, s.live, s'.installs, s'.live) && CacheOk(s')
      && s' == s.(installs := s'.installs, live := s'.live, remaining := s'.remaining, draining := s'.draining)
    case Submits(k) =>
      && k < |s.installs| && k !in s.submitted
      && s' == s.(pending := s.pending[s.installs[k].ack := Some(k)], submitted := s.submitted + {k})
    case Takes(a) =>
      && s.delivering.None? && Selects(s.remaining, s.pending, a)
      && s' == s.(pending := Without(s.pending, a), delivering := Some(a))
    case Delivered => s.delivering.Some? && s' == s.(delivering := None)
    case Retries => s.delivering.Some? && s' == s.(pending := s.pending[s.delivering.value := None], delivering := None)
  }

  /** A pending barrier is a submitted install of its acknowledgement; a closed channel,
      and a delivery under way, are about a settled one. */
  ghost predicate Inv(s: System) {
    && CacheOk(s)
    && (forall k :: k in s.submitted ==> k < |s.installs|)
    && (forall a :: a in s.pending && s.pending[a].Some? ==>
          s.pending[a].value in s.submitted && s.pending[a].value < |s.installs|
              && s.installs[s.pending[a].value].ack == a)
    && (forall a :: a in s.pending && s.pending[a].None? ==> Settled(s.installs, s.live, a))
    && (s.delivering.Some? ==> Settled(s.installs, s.live, s.delivering.value))
  }

  // ----- What an acknowledgement speaks for -----

  /** Install `k`, handed over as `a`, still waits for a session. */
  ghost predicate Waits(s: System, a: Acknowledgement, k: nat) {
    k in s.submitted && k < |s.installs| && s.installs[k].ack == a && !Released(s.installs, s.live, k)
  }

  /** No session any install handed over as `a` affected is still live. */
  ghost predicate SpeaksForAll(s: System, a: Acknowledgement) {
    forall k :: k in s.submitted ==> !Waits(s, a, k)
  }

  /** A receipt that, once drained, speaks for every install handed over as `a`. */
  ghost predicate Vouches(s: System, a: Acknowledgement, receipt: Option<nat>) {
    forall k :: k in s.submitted && Waits(s, a, k) ==> receipt.Some? && k <= receipt.value
  }

  ghost predicate Honest(s: System) {
    && (forall a :: a in s.pending ==> Vouches(s, a, s.pending[a]))
    && (s.delivering.Some? && s.delivering.value !in s.pending ==> SpeaksForAll(s, s.delivering.value))
  }

  ghost predicate ReceiptReleased(s: System, receipt: Option<nat>) {
    receipt.Some? && receipt.value < |s.installs| ==> Released(s.installs, s.live, receipt.value)
  }

  /** The two moves that can overwrite a receipt, when they overwrite none that still
      waits: no newer install of the same snapshot was handed over first and waits, and
      the acknowledgement retried was not handed over again and waits. */
  ghost predicate Guarded(s: System, m: Move) {
    match m
    case Submits(k) => k < |s.installs| ==> forall j :: j in s.submitted && j > k ==> !Waits(s, s.installs[k].ack, j)
    case Retries =>
      s.delivering.Some? && s.delivering.value in s.pending ==> ReceiptReleased(s, s.pending[s.delivering.value])
    case _ => true
  }

  // ----- One move -----

  lemma OrderIsReflexive(a: Acknowledgement)
    ensures AtMost(a, a)
  {
  }

  lemma RaisesTheBar(a: Acknowledgement, b: Acknowledgement)
    requires Below(a.generation, a.revision, b.generation, b.revision)
    ensures forall c :: AtMost(c, a) ==> AtMost(c, b)
  {
  }

  /** A released install means every one before it is released too. */
  lemma ReleasedDownward(s: System, k: nat)
    requires CacheOk(s) && k < |s.installs| && Released(s.installs, s.live, k)
    ensures ReleasedThrough(s.installs, s.live, k)
  {
    forall j, id | 0 <= j <= k && id in s.installs[j].affected ensures id !in s.live {
      if id in s.live {
        AffectedStillOwes(s.installs, s.live, map[], j, k, id);
      }
    }
  }

  lemma SettledStays(before: seq<Installation>, liveBefore: map<AuthId, Authorization>,
                     after: seq<Installation>, liveAfter: map<AuthId, Authorization>, a: Acknowledgement)
    requires OnlyForward(before, liveBefore, after, liveAfter) && Settled(before, liveBefore, a)
    ensures Settled(after, liveAfter, a)
  {
    var k :| 0 <= k < |before| && before[k].ack == a && ReleasedThrough(before, liveBefore, k);
    assert after[k].ack == a && ReleasedThrough(after, liveAfter, k);
  }

  lemma CacheMoveKeepsInv(s: System, s': System)
    requires Inv(s) && Step(s, CacheMoves, s')
    ensures Inv(s')
  {
    hide BarriersMatchHistory, Counted, Ascending, Settled;
    forall a | a in s.pending && s.pending[a].None? ensures Settled(s'.installs, s'.live, a) {
      SettledStays(s.installs, s.live, s'.installs, s'.live, a);
    }
    if s.delivering.Some? {
      SettledStays(s.installs, s.live, s'.installs, s'.live, s.delivering.value);
    }
  }

  lemma SelectedIsSettled(s: System, a: Acknowledgement)
    requires Inv(s) && a in s.pending && Drained(s.remaining, s.pending[a])
    ensures Settled(s.installs, s.live, a)
    ensures s.pending[a].Some? ==> ReleasedThrough(s.installs, s.live, s.pending[a].value)
  {
    hide BarriersMatchHistory, Counted, Released, Ascending;
    if s.pending[a].Some? {
      DrainedMeansReleased(s.installs, s.remaining, s.live, s.draining, s.pending[a].value);
      assert ReleasedThrough(s.installs, s.live, s.pending[a].value);
    }
  }

  /** Every move keeps the bookkeeping sound. */
  lemma StepKeepsInv(s: System, m: Move, s': System)
    requires Inv(s) && Step(s, m, s')
    ensures Inv(s')
  {
    hide BarriersMatchHistory, Counted, Ascending, Settled, OnlyForward, Drained, AtMost;
    match m {
      case CacheMoves => CacheMoveKeepsInv(s, s');
      case Takes(a) => SelectedIsSettled(s, a);
      case _ =>
    }
  }

  /** What the cache does only ever releases. */
  lemma CacheMoveKeepsHonesty(s: System, s': System)
    requires Inv(s) && Honest(s) && Step(s, CacheMoves, s')
    ensures Honest(s')
  {
    hide BarriersMatchHistory, Counted, Ascending, Settled, Released;
    assert forall a, k :: Waits(s', a, k) ==> Waits(s, a, k);
  }

  lemma TakeSpeaksForAll(s: System, a: Acknowledgement)
    requires Inv(s) && Honest(s) && Selects(s.remaining, s.pending, a)
    ensures SpeaksForAll(s, a)
  {
    hide BarriersMatchHistory, Counted, Ascending, Settled, Released;
    SelectedIsSettled(s, a);
    assert Vouches(s, a, s.pending[a]);
  }

  lemma TakeKeepsHonesty(s: System, a: Acknowledgement, s': System)
    requires Inv(s) && Honest(s) && Step(s, Takes(a), s')
    ensures Honest(s') && SpeaksForAll(s', a)
  {
    TakeSpeaksForAll(s, a);
    OrderIsReflexive(a);
    hide CacheOk, Settled, Released, Vouches, SpeaksForAll, Selects, AtMost;
    SameWaits(s, s');
    forall b | b in s'.pending ensures Vouches(s', b, s'.pending[b]) {
      assert b in s.pending && s'.pending[b] == s.pending[b];
    }
  }

  /** What an acknowledgement speaks for depends on the installs, not on the queue. */
  lemma SameWaits(s: System, s': System)
    requires s'.installs == s.installs && s'.live == s.live && s'.submitted == s.submitted
    ensures forall a, receipt :: Vouches(s', a, receipt) <==> Vouches(s, a, receipt)
    ensures forall a :: SpeaksForAll(s', a) <==> SpeaksForAll(s, a)
  {
    hide Released;
    assert forall a, k :: Waits(s', a, k) <==> Waits(s, a, k);
  }

  lemma SubmitIsHonestExactlyWhen(s: System, k: nat, s': System)
    requires Inv(s) && Honest(s) && Step(s, Submits(k), s')
    ensures Honest(s') <==> Guarded(s, Submits(k))
  {
    hide BarriersMatchHistory, Counted, Ascending, Settled, Released;
    var a := s.installs[k].ack;
    assert forall b, j :: j != k ==> (Waits(s', b, j) <==> Waits(s, b, j));
    assert forall b :: Waits(s', b, k) ==> b == a;
    if Guarded(s, Submits(k)) {
      assert Vouches(s', a, Some(k));
    } else {
      var j :| j in s.submitted && j > k && Waits(s, a, j);
      assert Waits(s', a, j) && s'.pending[a] == Some(k);
    }
  }

  lemma RetryIsHonestExactlyWhen(s: System, s': System)
    requires Inv(s) && Honest(s) && Step(s, Retries, s')
    ensures Honest(s') <==> Guarded(s, Retries)
  {
    hide BarriersMatchHistory, Counted, Ascending, Settled, Released;
    var a := s.delivering.value;
    assert forall b, k :: Waits(s', b, k) <==> Waits(s, b, k);
    if a in s.pending {
      var receipt := s.pending[a];
      assert Vouches(s, a, receipt);
      if receipt.Some? && Released(s.installs, s.live, receipt.value) {
        ReleasedDownward(s, receipt.value);
        assert Vouches(s', a, None);
      } else if receipt.Some? {
        assert Waits(s', a, receipt.value) && s'.pending[a] == None;
      }
    }
  }

  /** One move keeps every receipt honest if and only if it is guarded. */
  lemma StepIsHonestExactlyWhenGuarded(s: System, m: Move, s': System)
    requires Inv(s) && Honest(s) && Step(s, m, s')
    ensures Honest(s') <==> Guarded(s, m)
  {
    match m {
      case CacheMoves => CacheMoveKeepsHonesty(s, s');
      case Submits(k) => SubmitIsHonestExactlyWhen(s, k, s');
      case Takes(a) => TakeKeepsHonesty(s, a, s');
      case Delivered => SameWaits(s, s');
      case Retries => RetryIsHonestExactlyWhen(s, s');
    }
  }

  // ----- Whole runs -----

  ghost predicate IsRun(states: seq<System>, moves: seq<Move>) {
    && |states| == |moves| + 1 && Init(states[0])
    && forall i :: 0 <= i < |moves| ==> Step(states[i], moves[i], states[i + 1])
  }

  lemma {:induction false} RunsStayHonest(states: seq<System>, moves: seq<Move>, n: nat)
    requires IsRun(states, moves) && n <= |moves|
    requires forall i :: 0 <= i < n ==> Guarded(states[i], moves[i])
    ensures Inv(states[n]) && Honest(states[n])
    decreases n
  {
    hide Inv, Honest, Step, Guarded;
    if n == 0 {
      StartIsHonest(states[0]);
    } else {
      RunsStayHonest(states, moves, n - 1);
      StepKeepsInv(states[n - 1], moves[n - 1], states[n]);
      StepIsHonestExactlyWhenGuarded(states[n - 1], moves[n - 1], states[n]);
    }
  }

  lemma StartIsHonest(s: System)
    requires Init(s)
    ensures Inv(s) && Honest(s)
  {
  }

  /** In every run whose submissions and retries were guarded so far, whatever the cache
      did in between, a selected acknowledgement speaks for every install handed over as
      it, and for every install below it. */
  lemma SelectionsAreTruthful(states: seq<System>, moves: seq<Move>, n: nat)
    requires IsRun(states, moves) && n < |moves| && moves[n].Takes?
    requires forall i :: 0 <= i < n ==> Guarded(states[i], moves[i])
    ensures SpeaksForAll(states[n], moves[n].ack)
    ensures SpeaksForLower(states[n], moves[n].ack)
  {
    hide Inv, Honest, Guarded, SpeaksForAll, SpeaksForLower;
    RunsStayHonest(states, moves, n);
    assert Step(states[n], moves[n], states[n + 1]);
    TakeSpeaksForAll(states[n], moves[n].ack);
    SettledSpeaksForLower(states[n], moves[n].ack);
  }

  ghost predicate SpeaksForLower(s: System, a: Acknowledgement) {
    forall j :: 0 <= j < |s.installs| ==>
      Below(s.installs[j].ack.generation, s.installs[j].ack.revision, a.generation, a.revision) ==>
          Released(s.installs, s.live, j)
  }

  /** Every install strictly below a selected one is released with it. */
  lemma SettledSpeaksForLower(s: System, a: Acknowledgement)
    requires Inv(s) && Selects(s.remaining, s.pending, a)
    ensures SpeaksForLower(s, a)
  {
    SelectedIsSettled(s, a);
    LowerAreReleased(s, a);
  }

  lemma LowerAreReleased(s: System, a: Acknowledgement)
    requires CacheOk(s) && Settled(s.installs, s.live, a)
    ensures SpeaksForLower(s, a)
  {
    hide BarriersMatchHistory, Counted;
    var k :| 0 <= k < |s.installs| && s.installs[k].ack == a && ReleasedThrough(s.installs, s.live, k);
    forall j | 0 <= j < |s.installs|
      && Below(s.installs[j].ack.generation, s.installs[j].ack.revision, a.generation, a.revision)
      ensures j < k
    {
    }
  }

  lemma {:induction false} RunsKeepInv(states: seq<System>, moves: seq<Move>, n: nat)
    requires IsRun(states, moves) && n <= |moves|
    ensures Inv(states[n])
    decreases n
  {
    hide Inv, Honest, Step;
    if n == 0 {
      StartIsHonest(states[0]);
    } else {
      RunsKeepInv(states, moves, n - 1);
      StepKeepsInv(states[n - 1], moves[n - 1], states[n]);
    }
  }

  /** In every run whatever, guarded or not, a selected acknowledgement has an install
      whose sessions, and those of every install before it, are closed, and every install
      of a lower revision is released. */
  lemma EverySelectionIsSettled(states: seq<System>, moves: seq<Move>, n: nat)
    requires IsRun(states, moves) && n < |moves| && moves[n].Takes?
    ensures Settled(states[n].installs, states[n].live, moves[n].ack)
    ensures SpeaksForLower(states[n], moves[n].ack)
  {
    hide Inv, Settled, SpeaksForLower, Drained;
    RunsKeepInv(states, moves, n);
    assert Step(states[n], moves[n], states[n + 1]);
    SelectedIsSettled(states[n], moves[n].ack);
    SettledSpeaksForLower(states[n], moves[n].ack);
  }

  /** A retry that is not guarded can be followed at once by a selection that
      acknowledges an install with a session of it still live. */
  lemma UnguardedRetryCanSpeakFalsely(s: System, s': System) returns (s'': System)
    requires Inv(s) && Honest(s) && Step(s, Retries, s') && !Guarded(s, Retries)
    ensures Step(s', Takes(s.delivering.value), s'') && !SpeaksForAll(s', s.delivering.value)
  {
    var a := s.delivering.value;
    var k := s.pending[a].value;
    forall b | b in s'.pending && Drained(s'.remaining, s'.pending[b]) ensures AtMost(b, a) {
      if !AtMost(b, a) {
        hide BarriersMatchHistory, Counted, Ascending, Released, Settled;
        assert s'.pending[b] == s.pending[b];
        SelectedIsSettled(s, b);
        LowerAreReleased(s, b);
        assert false;
      }
    }
    hide BarriersMatchHistory, Counted, Ascending, Released, Settled;
    assert Waits(s', a, k);
    s'' := s'.(pending := Without(s'.pending, a), delivering := Some(a));
  }

  /** No release is half done: every authorization removed has told all its barriers. */
  ghost predicate Quiet(s: System) {
    forall id :: id in s.draining ==> s.draining[id] == []
  }

  /** With no release half done, the guard can be read off the channel. */
  lemma ReleasedIsDrained(s: System, receipt: Option<nat>)
    requires CacheOk(s) && (receipt.Some? ==> receipt.value < |s.installs|)
    ensures Drained(s.remaining, receipt) ==> ReceiptReleased(s, receipt)
    ensures Quiet(s) ==> (Drained(s.remaining, receipt) <==> ReceiptReleased(s, receipt))
  {
    if receipt.Some? {
      var k := receipt.value;
      hide Released, Ascending;
      if Drained(s.remaining, receipt) {
        DrainedMeansReleased(s.installs, s.remaining, s.live, s.draining, k);
      } else if Quiet(s) {
        NobodyOwes(s, k);
      }
    }
  }

  lemma NobodyOwes(s: System, k: nat)
    requires CacheOk(s) && k < |s.installs| && Quiet(s)
    ensures Released(s.installs, s.live, k) ==> s.remaining[k] == 0
  {
    if Released(s.installs, s.live, k) {
      assert Owing(s.live, s.draining, k) == {};
    }
  }

  /** For any number of installs of one snapshot: putting a failed delivery back leaves
      every later selection truthful, and the next one of that acknowledgement, if and
      only if at the retry it is not pending again or what it waits for is released. With
      no release half done that is when its channel is closed. */
  lemma RetrySpeaksForEveryInstallExactlyWhen(s: System, s': System)
    requires Inv(s) && Honest(s) && Step(s, Retries, s')
    ensures var a := s.delivering.value;
      Honest(s') <==> (a in s.pending ==> ReceiptReleased(s, s.pending[a]))
    ensures var a := s.delivering.value;
      (Selects(s'.remaining, s'.pending, a) ==> SpeaksForAll(s', a)) <==>
        (a in s.pending ==> ReceiptReleased(s, s.pending[a]))
    ensures var a := s.delivering.value;
      Quiet(s) ==> (Honest(s') <==> (a in s.pending ==> Drained(s.remaining, s.pending[a])))
  {
    hide Inv, Honest, Selects, SpeaksForAll, Drained, CacheOk, ReceiptReleased, Quiet;
    var a := s.delivering.value;
    RetryIsHonestExactlyWhen(s, s');
    StepKeepsInv(s, Retries, s');
    if a in s.pending {
      InvParts(s, a);
      ReleasedIsDrained(s, s.pending[a]);
    }
    if Guarded(s, Retries) {
      if Selects(s'.remaining, s'.pending, a) {
        TakeSpeaksForAll(s', a);
      }
    } else {
      var s'' := UnguardedRetryCanSpeakFalsely(s, s');
      TakenWasSelected(s', a, s'');
    }
  }

  lemma InvParts(s: System, a: Acknowledgement)
    requires Inv(s)
    ensures CacheOk(s) && (a in s.pending && s.pending[a].Some? ==> s.pending[a].value < |s.installs|)
  {
  }

  lemma TakenWasSelected(s: System, a: Acknowledgement, s': System)
    requires Step(s, Takes(a), s')
    ensures Selects(s.remaining, s.pending, a)
  {
  }

  // ----- What a selection throws away -----

  /** A selection throws no receipt away that still waits if and only if no receipt of
      the revision selected waits; receipts below it never do. With no release half done
      that is when no other receipt of the revision is undrained. */
  lemma SelectionForgetsNothingExactlyWhen(s: System, a: Acknowledgement, s': System)
    requires Inv(s) && Step(s, Takes(a), s')
    ensures (forall b :: b in s.pending && b !in s'.pending ==> ReceiptReleased(s, s.pending[b])) <==>
              (forall b :: b in s.pending && SameRevision(a, b) ==> ReceiptReleased(s, s.pending[b]))
    ensures Quiet(s) ==>
              ((forall b :: b in s.pending && b !in s'.pending ==> ReceiptReleased(s, s.pending[b])) <==>
               (forall b :: b in s.pending && SameRevision(a, b) ==> Drained(s.remaining, s.pending[b])))
  {
    hide BarriersMatchHistory, Counted, Ascending, Settled, Released, CacheOk, Quiet;
    SettledSpeaksForLower(s, a);
    forall b | b in s.pending && Quiet(s)
      ensures Drained(s.remaining, s.pending[b]) <==> ReceiptReleased(s, s.pending[b])
    {
      InvParts(s, b);
      ReleasedIsDrained(s, s.pending[b]);
    }
    forall b | b in s.pending && b !in s'.pending && !SameRevision(a, b)
      ensures ReceiptReleased(s, s.pending[b])
    {
      if s.pending[b].Some? {
        assert s.installs[s.pending[b].value].ack == b;
      }
    }
  }

  // ----- The controller -----

  class AckController {
    const cache: ComputerPolicyCache
    var pending: map<Acknowledgement, Option<nat>>
    /** The acknowledgement the delivery loop is sending. */
    var delivering: Option<Acknowledgement>
    ghost var submitted: set<nat>

    ghost function View(): System
      reads this, cache
    {
      System(cache.installs, cache.live, cache.remaining, cache.draining, pending, submitted, delivering)
    }

    ghost predicate Valid()
      reads this, cache
    {
      cache.Valid() && Inv(View())
    }

    constructor (cache: ComputerPolicyCache)
      requires cache.Valid()
      ensures Valid() && this.cache == cache && Init(View())
    {
      this.cache := cache;
      pending, delivering, submitted := map[], None, {};
    }

    method Submit(receipt: Receipt)
      requires Valid() && receipt.barrier < |cache.installs| && cache.installs[receipt.barrier].ack == receipt.ack
      requires receipt.barrier !in submitted
      modifies this
      ensures Valid() && Step(old(View()), Submits(receipt.barrier), View())
    {
      hide Settled;
      pending := pending[receipt.ack := Some(receipt.barrier)];
      submitted := submitted + {receipt.barrier};
      StepKeepsInv(old(View()), Submits(receipt.barrier), View());
    }

    /** L1 took the acknowledgement. */
    method Deliver()
      requires Valid() && delivering.Some?
      modifies this
      ensures Valid() && Step(old(View()), Delivered, View())
    {
      hide Settled;
      delivering := None;
      StepKeepsInv(old(View()), Delivered, View());
    }

    /** Puts back an acknowledgement whose delivery failed, on a closed channel. */
    method Retry()
      requires Valid() && delivering.Some?
      modifies this
      ensures Valid() && Step(old(View()), Retries, View())
    {
      hide Settled;
      pending, delivering := pending[delivering.value := None], None;
      StepKeepsInv(old(View()), Retries, View());
    }

    /** The highest drained receipt, and nothing at or below it left behind. */
    method TakeReady() returns (selected: Option<Acknowledgement>)
      requires Valid() && delivering.None?
      modifies this
      ensures Valid() && delivering == selected
      ensures selected.None? ==>
                View() == old(View()) && forall a :: a in pending ==> !Drained(cache.remaining, pending[a])
      ensures selected.Some? ==> Step(old(View()), Takes(selected.value), View())
    {
      hide Inv, Below;
      selected := None;
      var todo := pending.Keys;
      while todo != {}
        invariant todo <= pending.Keys && View() == old(View())
        invariant selected.None? ==> forall a :: a in pending && a !in todo ==> !Drained(cache.remaining, pending[a])
        invariant selected.Some? ==> selected.value in pending && Drained(cache.remaining, pending[selected.value])
        invariant selected.Some? ==>
                    forall a :: a in pending && a !in todo && Drained(cache.remaining, pending[a]) ==>
                        AtMost(a, selected.value)
        decreases |todo|
      {
        var a :| a in todo;
        todo := todo - {a};
        if Drained(cache.remaining, pending[a]) {
          if selected.None? || Below(selected.value.generation, selected.value.revision, a.generation, a.revision) {
            if selected.Some? {
              RaisesTheBar(selected.value, a);
            }
            OrderIsReflexive(a);
            selected := Some(a);
          }
        }
      }
      if selected.Some? {
        pending, delivering := Without(pending, selected.value), selected;
        StepKeepsInv(old(View()), Takes(selected.value), View());
      }
    }
  }

  // ----- Two installs of one revision -----

  /** A snapshot is installed into a new cache, with no session open. */
  method FirstInstall(s: Snapshot) returns (cache: ComputerPolicyCache, receipt: Receipt)
    requires Validated(s) && s.freshUntil > 0 && !Below(s.generation, s.revision, 0, 0)
    ensures fresh(cache) && cache.Valid() && cache.valid && cache.snapshot == s
    ensures cache.node == s.node && cache.boot == s.boot && cache.draining == map[]
    ensures |cache.installs| == 1 && cache.installs[0].ack == AckOf(s) && cache.remaining == [0]
    ensures receipt == Receipt(AckOf(s), 0)
  {
    hide Validated, SameRevisionAllowed, Evaluate, Counted, BarriersMatchHistory, NoExcessAuthority, Ascending;
    hide Numbered;
    hide RaisesOnlyNewcomers, RaisesTheNewlyNamed, OnlyForward, Released, Affected, Await;
    cache := new ComputerPolicyCache(s.node, s.boot);
    var first := cache.Install(s, 0);
    receipt := first.receipt;
    NobodyIsAffected(s, false);
  }

  lemma NobodyIsAffected(s: Snapshot, changed: bool)
    ensures Affected(map[], s, changed) == {}
  {
  }

  /** It is handed over and selected. */
  method InstallAndSelect(s: Snapshot) returns (cache: ComputerPolicyCache, acks: AckController)
    requires Validated(s) && !s.adminDeviceRequired && s.freshUntil > 0 && !Below(s.generation, s.revision, 0, 0)
    ensures fresh(cache) && fresh(acks) && acks.cache == cache && acks.Valid() && acks.pending == map[]
    ensures cache.valid && cache.snapshot == s && cache.node == s.node && cache.boot == s.boot && |cache.installs| == 1
    ensures acks.delivering == Some(AckOf(s)) && acks.submitted == {0} && cache.draining == map[]
  {
    hide Validated, SameRevisionAllowed, Evaluate, Counted, BarriersMatchHistory, NoExcessAuthority, Ascending;
    hide Numbered;
    hide RaisesOnlyNewcomers, RaisesTheNewlyNamed, OnlyForward, Settled, Released, Inv;
    var first;
    cache, first := FirstInstall(s);
    acks := new AckController(cache);
    acks.Submit(first);
    assert acks.pending == map[AckOf(s) := Some(0)] && Drained(cache.remaining, acks.pending[AckOf(s)]);
    var delivering := acks.TakeReady();
    OrderIsReflexive(AckOf(s));
  }

  /** A session opens, is revoked when the watch is lost, and is what a second install
      of the same revision waits for. */
  method InstallWithASessionOpen(cache: ComputerPolicyCache, s: Snapshot, second: Snapshot, computer: string,
                                 person: Person)
    returns (id: AuthId, receipt: Receipt)
    requires cache.Valid() && cache.valid && cache.snapshot == s && cache.node == s.node && cache.boot == s.boot
    requires |cache.installs| == 1
    requires Validated(s) && !s.adminDeviceRequired && s.freshUntil > 0
    requires Evaluate(s, true, computer, person) != NoAccess
    requires Validated(second) && second.node == s.node && second.boot == s.boot && second.freshUntil > 0
    requires second.generation == s.generation && second.revision == s.revision
    modifies cache
    ensures cache.Valid() && |cache.installs| == 2 && cache.installs[1].ack == AckOf(second)
    ensures cache.draining == old(cache.draining)
    ensures receipt == Receipt(AckOf(second), 1) && id in cache.live && id in cache.installs[1].affected
    ensures cache.installs[0] == old(cache.installs[0])
    ensures |cache.remaining| == 2 && cache.remaining[0] == old(cache.remaining[0]) && cache.remaining[1] > 0
    ensures OnlyForward(old(cache.installs), old(cache.live), cache.installs, cache.live)
  {
    hide Validated, SameRevisionAllowed, Evaluate, Counted, BarriersMatchHistory, NoExcessAuthority, Ascending;
    hide Numbered, Released;
    hide RaisesOnlyNewcomers, RaisesTheNewlyNamed, OnlyForward;
    var acquired := cache.AcquireGrant(computer, person, true, 0);
    id := acquired.value;
    ghost var acquiredLive := cache.live;
    cache.Invalidate();
    ForwardTwice(cache.installs, old(cache.live), acquiredLive, cache.live);
    ghost var installs, live := cache.installs, cache.live;
    var result := cache.Install(second, 0);
    receipt := result.receipt;
    ForwardThenInstalled(installs, old(cache.live), live, cache.installs, cache.live);
    ghost var affected := cache.installs[1].affected;
    assert id in affected && |affected| > 0;
  }

  lemma ForwardThenInstalled(installs: seq<Installation>, a: map<AuthId, Authorization>, b: map<AuthId, Authorization>,
                             after: seq<Installation>, c: map<AuthId, Authorization>)
    requires OnlyForward(installs, a, installs, b) && OnlyForward(installs, b, after, c)
    ensures OnlyForward(installs, a, after, c)
  {
  }

  lemma CacheMoved(before: System, after: System)
    requires Inv(before) && CacheOk(after) && OnlyForward(before.installs, before.live, after.installs, after.live)
    requires after == before.(installs := after.installs, live := after.live, remaining := after.remaining,
                              draining := after.draining)
    ensures Step(before, CacheMoves, after) && Inv(after)
  {
    hide Inv, CacheOk, OnlyForward;
    CacheMoveKeepsInv(before, after);
  }

  /** A delivery fails; the same snapshot is installed again and waits for a session
      revoked meanwhile; the retry overwrites that receipt; and the next selection
      acknowledges the install with the session still live. */
  method RetryCanOvertakeAReinstall(s: Snapshot, computer: string, person: Person)
    returns (selected: Option<Acknowledgement>, cache: ComputerPolicyCache, id: AuthId)
    requires Validated(s) && !s.adminDeviceRequired && s.freshUntil > 0 && !Below(s.generation, s.revision, 0, 0)
    requires Evaluate(s, true, computer, person) != NoAccess
    ensures selected == Some(AckOf(s)) && cache.Valid() && id in cache.live
    ensures |cache.installs| == 2 && cache.installs[1].ack == AckOf(s) && id in cache.installs[1].affected
  {
    hide Validated, SameRevisionAllowed, Evaluate, Counted, BarriersMatchHistory, NoExcessAuthority, Ascending;
    hide Numbered;
    hide OnlyForward, Settled, Released, Inv;
    var acks: AckController;
    cache, acks := InstallAndSelect(s);
    ghost var before := acks.View();
    var second: Receipt;
    id, second := InstallWithASessionOpen(cache, s, s, computer, person);
    CacheMoved(before, acks.View());
    acks.Submit(second);
    acks.Retry();
    assert acks.pending == map[AckOf(s) := None] && Drained(cache.remaining, acks.pending[AckOf(s)]);
    selected := acks.TakeReady();
  }

  /** A delivery fails and is put back; a second snapshot of the same revision, with its
      own digest and the device requirement on, is installed and waits for a session; and
      the next selection, of the first, throws its receipt away with the session live. */
  method SelectionCanForgetAReceipt(s: Snapshot, second: Snapshot, computer: string, person: Person)
    returns (selected: Option<Acknowledgement>, acks: AckController, id: AuthId)
    requires Validated(s) && !s.adminDeviceRequired && s.freshUntil > 0 && !Below(s.generation, s.revision, 0, 0)
    requires Evaluate(s, true, computer, person) != NoAccess
    requires second == s.(adminDeviceRequired := true, digest := second.digest) && second.digest != s.digest
    ensures selected == Some(AckOf(s)) && acks.Valid() && acks.pending == map[]
    ensures var cache := acks.cache;
      id in cache.live && |cache.installs| == 2 && cache.installs[1].ack == AckOf(second)
          && id in cache.installs[1].affected
  {
    hide SameRevisionAllowed, Evaluate, Counted, BarriersMatchHistory, NoExcessAuthority, Ascending, Numbered;
    hide OnlyForward, Settled, Released, Inv;
    assert Validated(second);
    hide Validated;
    var cache;
    cache, acks := InstallAndSelect(s);
    acks.Retry();
    ghost var before := acks.View();
    var receipt: Receipt;
    id, receipt := InstallWithASessionOpen(cache, s, second, computer, person);
    CacheMoved(before, acks.View());
    acks.Submit(receipt);
    assert AckOf(second) != AckOf(s);
    assert !Drained(cache.remaining, acks.pending[AckOf(second)]) && Drained(cache.remaining, acks.pending[AckOf(s)]);
    selected := acks.TakeReady();
  }

  /** The same snapshot is installed twice, the second time with a session open, and the
      second receipt is handed over first: the first then overwrites it, and the next
      selection acknowledges the snapshot with the session still live. */
  method SubmissionsCanOvertake(s: Snapshot, computer: string, person: Person)
    returns (selected: Option<Acknowledgement>, acks: AckController, id: AuthId)
    requires Validated(s) && !s.adminDeviceRequired && s.freshUntil > 0 && !Below(s.generation, s.revision, 0, 0)
    requires Evaluate(s, true, computer, person) != NoAccess
    ensures selected == Some(AckOf(s)) && acks.Valid() && acks.submitted == {0, 1}
    ensures var cache := acks.cache;
      && id in cache.live && |cache.installs| == 2
      && cache.installs[1].ack == AckOf(s) && id in cache.installs[1].affected
  {
    hide Validated, SameRevisionAllowed, Evaluate, Counted, BarriersMatchHistory, NoExcessAuthority, Ascending;
    hide Numbered;
    hide OnlyForward, Settled, Released, Inv;
    var cache, first := FirstInstall(s);
    var second: Receipt;
    id, second := InstallWithASessionOpen(cache, s, s, computer, person);
    acks := new AckController(cache);
    acks.Submit(second);
    acks.Submit(first);
    assert acks.pending == map[AckOf(s) := Some(0)] && Drained(cache.remaining, acks.pending[AckOf(s)]);
    selected := acks.TakeReady();
  }
}
