/** What a node says it can run, and when it may claim work: only on what L1 has
    confirmed. Source: agent/capabilities.go. */
module Capabilities {
  type Name = string

  const KIND_OCI := "kind:oci"
  const HOST_VM_IDLE := "host_vm_idle"
  const PROBE_FAILED := "probe_failed"
  const INTENT_DISABLED := "oci_intent_disabled"
  const BOOT_SWEEP_FAILED := "boot_sweep_failed"
  const SEAT_REQUESTS := "computer:seat-requests"

  predicate HasPrefix(s: string, prefix: string) {
    |prefix| <= |s| && s[..|prefix|] == prefix
  }

  predicate IsOci(name: Name) {
    || name in {KIND_OCI, "cgroup_v2", "apparmor", "computer"}
    || HasPrefix(name, "runtime_handler:") || HasPrefix(name, "runtime_platform:")
  }

  /** The three facts claims depend on. An empty reason is none. */
  datatype Content = Content(capabilities: map<Name, bool>, missing: set<Name>, reason: string)

  datatype Result = Result(capabilities: map<Name, bool>, missing: set<Name>, reason: string)

  /** L1's view of this node. */
  datatype NodeView = NodeView(bootSession: string, revision: nat, content: Content, validRestriction: bool)

  predicate Enabled(capabilities: map<Name, bool>, name: Name) {
    name in capabilities && capabilities[name]
  }

  function OciOnly(names: set<Name>): set<Name> {
    set n | n in names && IsOci(n)
  }

  function EnabledOci(capabilities: map<Name, bool>): set<Name> {
    set n | n in capabilities && capabilities[n] && IsOci(n)
  }

  /** The content one observation leads to. */
  function Observe(base: map<Name, bool>, configured: map<Name, bool>, lastPositive: map<Name, bool>,
                   current: Content, result: Result, positive: bool): Content {
    var probed := map n | n in result.capabilities && IsOci(n) :: result.capabilities[n];
    var earned := if positive then base + probed else base;
    var lost := if positive then (if Enabled(earned, KIND_OCI) then {} else {KIND_OCI})
                else EnabledOci(current.capabilities) + {KIND_OCI};
    var demanded := if result.reason == HOST_VM_IDLE then EnabledOci(configured) + EnabledOci(lastPositive) else {};
    var all := OciOnly(result.missing) + lost + demanded;
    var missing := if result.reason == HOST_VM_IDLE && !Enabled(base, SEAT_REQUESTS) then all - {"computer"} else all;
    Content(earned - missing, missing,
            if missing == {} then "" else if result.reason == "" then PROBE_FAILED else result.reason)
  }

  /** A probe whose runtime was lost before it could be recorded says so. */
  function Seen(result: Result, probeOk: bool, stillValid: bool): Result {
    if probeOk && !stillValid then result.(reason := BOOT_SWEEP_FAILED) else result
  }

  /** An observation that is not positive never offers OCI work, and a positive one
      only what the probe earned. */
  lemma ObservationOffersOnlyWhatWasEarned(base: map<Name, bool>, configured: map<Name, bool>, lastPositive: map<Name,
                                           bool>,
                                           current: Content, result: Result, positive: bool)
    requires forall n :: n in base ==> !IsOci(n)
    ensures var next := Observe(base, configured, lastPositive, current, result, positive);
      && (forall n :: n in next.capabilities && IsOci(n) ==>
          positive && n in result.capabilities && next.capabilities[n] == result.capabilities[n])
      && (forall n :: n in next.capabilities <==>
          && (n in base || (positive && n in result.capabilities && IsOci(n)))
          && n !in next.missing)
      && (forall n :: n in base ==> n in next.capabilities && next.capabilities[n] == base[n])
      && (!positive ==> KIND_OCI in next.missing)
      && (next.missing == {} <==> next.reason == "")
  {
  }

  // ----- What happened to OCI admission -----

  /** `latched` says the suppression was the durable disabled intent. */
  datatype Happening = Suppressed(latched: bool) | IntentAllowed | ProbeBegan | ProbeRecorded(positive: bool)

  /** What outdates every probe begun before it. */
  predicate Interrupts(h: Happening) {
    h.Suppressed? || h.IntentAllowed?
  }

  function Interruptions(history: seq<Happening>): nat {
    if history == [] then 0
    else Interruptions(history[..|history| - 1]) + (if Interrupts(history[|history| - 1]) then 1 else 0)
  }

  /** The last decision about the intent was to disable it. */
  predicate Latched(history: seq<Happening>) {
    if history == [] then false
    else
      var last := history[|history| - 1];
      if last.IntentAllowed? then false
      else last == Suppressed(true) || Latched(history[..|history| - 1])
  }

  ghost predicate Undisturbed(history: seq<Happening>, since: nat) {
    forall k :: since <= k < |history| ==> !Interrupts(history[k])
  }

  lemma OneMore(history: seq<Happening>, h: Happening)
    ensures Interruptions(history + [h]) == Interruptions(history) + (if Interrupts(h) then 1 else 0)
    ensures Latched(history + [h]) == if h.IntentAllowed? then false else h == Suppressed(true) || Latched(history)
  {
    assert (history + [h])[..|history|] == history;
  }

  /** The count stands still exactly while nothing interrupts. */
  lemma {:induction false} CountStandsStillExactlyWhen(history: seq<Happening>, since: nat)
    requires since <= |history|
    ensures Interruptions(history[..since]) <= Interruptions(history)
    ensures Interruptions(history) == Interruptions(history[..since]) <==> Undisturbed(history, since)
    decreases |history|
  {
    if since == |history| {
      assert history[..since] == history;
    } else {
      var n := |history| - 1;
      assert history[..n][..since] == history[..since];
      CountStandsStillExactlyWhen(history[..n], since);
      assert Undisturbed(history, since) <==> Undisturbed(history[..n], since) && !Interrupts(history[n]);
    }
  }

  class CapabilityState {
    const base: map<Name, bool>
    const configured: map<Name, bool>
    var lastPositive: map<Name, bool>
    var current: Content
    var revision: nat
    /** The revision L1 has yet to confirm, or 0. */
    var pending: nat
    var sequence: nat
    var intentDisabled: bool
    /** What L1 last confirmed, or the initial observation. */
    ghost var confirmed: Content
    ghost var history: seq<Happening>

    ghost predicate Valid()
      reads this
    {
      && (forall n :: n in base ==> !IsOci(n))
      && (pending == 0 ==> current == confirmed)
      && (pending != 0 ==> pending == revision)
      && (intentDisabled ==> !Enabled(current.capabilities, KIND_OCI))
      && sequence == Interruptions(history) && intentDisabled == Latched(history)
    }

    constructor (base: map<Name, bool>, configured: map<Name, bool>, revision: nat)
      requires forall n :: n in base ==> !IsOci(n)
      ensures Valid() && pending == 0 && current == Content(base, {}, "") && confirmed == current && !intentDisabled
      ensures history == []
    {
      this.base, this.configured, this.revision := base, configured, revision;
      lastPositive, current, pending, sequence, intentDisabled := map[], Content(base, {}, ""), 0, 0, false;
      confirmed, history := Content(base, {}, ""), [];
    }

    /** Commits an observation. Any change of content closes claims until L1 has
        confirmed it, a change back to what it confirmed before included. */
    method Apply(result: Result, positive: bool)
      requires Valid() && (intentDisabled ==> !positive)
      modifies `current, `revision, `pending
      ensures Valid() && current == Observe(base, configured, lastPositive, old(current), result, positive)
      ensures current == old(current) ==> revision == old(revision) && pending == old(pending)
      ensures current != old(current) ==> revision == old(revision) + 1 && pending == revision
    {
      hide Observe;
      ObservationOffersOnlyWhatWasEarned(base, configured, lastPositive, current, result, positive);
      Commit(Observe(base, configured, lastPositive, current, result, positive));
    }

    /** Withdraws OCI, and outdates every probe under way. `latched` is the caller's
        having set the latch first. */
    method SuppressOci(reason: string, ghost latched: bool)
      requires WithdrawableWith(latched)
      modifies `current, `revision, `pending, `sequence, `history
      ensures Valid() && !Enabled(current.capabilities, KIND_OCI)
      ensures current == Observe(base, configured, lastPositive, old(current), Result(map[], {}, reason), false)
      ensures history == old(history) + [Suppressed(latched)] && sequence == old(sequence) + 1
      ensures current == old(current) ==> revision == old(revision) && pending == old(pending)
      ensures current != old(current) ==> revision == old(revision) + 1 && pending == revision
    {
      hide Observe, Interruptions, Latched;
      OneMore(history, Suppressed(latched));
      ObservationOffersOnlyWhatWasEarned(base, configured, lastPositive, current, Result(map[], {}, reason), false);
      sequence, history := sequence + 1, history + [Suppressed(latched)];
      var next := Observe(base, configured, lastPositive, current, Result(map[], {}, reason), false);
      Commit(next);
    }

    /** Valid but for the latch, which an intent suppression sets before it withdraws. */
    ghost predicate WithdrawableWith(latched: bool)
      reads this
    {
      && (forall n :: n in base ==> !IsOci(n))
      && (pending == 0 ==> current == confirmed)
      && (pending != 0 ==> pending == revision)
      && sequence == Interruptions(history) && intentDisabled == (latched || Latched(history))
    }

    /** Replaces the content, at a new revision to be confirmed if it differs. */
    method Commit(next: Content)
      modifies `current, `revision, `pending
      ensures current == next
      ensures next == old(current) ==> revision == old(revision) && pending == old(pending)
      ensures next != old(current) ==> revision == old(revision) + 1 && pending == revision
    {
      if next != current {
        revision := revision + 1;
        pending := revision;
      }
      current := next;
    }

    method SuppressOciIntent()
      requires Valid()
      modifies `current, `revision, `pending, `sequence, `history, `intentDisabled
      ensures Valid() && intentDisabled && !Enabled(current.capabilities, KIND_OCI)
      ensures history == old(history) + [Suppressed(true)]
    {
      intentDisabled := true;
      SuppressOci(INTENT_DISABLED, true);
      OneMore(old(history), Suppressed(true));
    }

    /** Opens the latch if nothing interrupted since the count `seen` was read, when
        `at` things had happened. */
    method AllowOciIntentIfUnchanged(seen: nat, ghost at: nat) returns (ok: bool)
      requires Valid() && at <= |history| && seen == Interruptions(history[..at])
      modifies `sequence, `history, `intentDisabled
      ensures Valid() && (ok <==> Undisturbed(old(history), at))
      ensures if ok then !intentDisabled && history == old(history) + [IntentAllowed]
              else intentDisabled == old(intentDisabled) && history == old(history)
    {
      CountStandsStillExactlyWhen(history, at);
      ok := sequence == seen;
      if ok {
        OneMore(history, IntentAllowed);
        intentDisabled := false;
        sequence, history := sequence + 1, history + [IntentAllowed];
      }
    }

    /** The first thing a probe asks, before it waits its turn: whether it may run. */
    method MayProbe() returns (open: bool)
      requires Valid()
      ensures open <==> !Latched(history)
    {
      open := !intentDisabled;
    }

    /** What a probe remembers once its turn has come, some time after it asked. */
    method BeginProbe() returns (started: nat, ghost at: nat)
      requires Valid()
      modifies `history
      ensures Valid() && history == old(history) + [ProbeBegan]
      ensures at == |history| && started == Interruptions(history[..at])
    {
      OneMore(history, ProbeBegan);
      history := history + [ProbeBegan];
      assert history[..|history|] == history;
      started, at := sequence, |history|;
    }

    /** Records a finished probe. A positive result is recorded if and only if the latch
        is open and nothing interrupted since the probe began, when `at` things had
        happened. */
    method RecordProbeResult(started: nat, ghost at: nat, result: Result, probeOk: bool, stillValid: bool)
      returns (recorded: bool)
      requires Valid() && at <= |history| && started == Interruptions(history[..at])
      modifies `current, `revision, `pending, `lastPositive, `history
      ensures Valid()
      ensures recorded <==> !probeOk || (!Latched(old(history)) && Undisturbed(old(history), at))
      ensures !recorded ==>
                current == old(current) && revision == old(revision) && pending == old(pending)
                    && history == old(history)
      ensures recorded ==>
                && history == old(history) + [ProbeRecorded(probeOk && stillValid)]
                && current == Observe(base, configured, old(lastPositive), old(current),
                                      Seen(result, probeOk, stillValid), probeOk && stillValid)
                && lastPositive == (if probeOk && stillValid then current.capabilities else old(lastPositive))
      ensures Enabled(current.capabilities, KIND_OCI) && current != old(current) ==>
                probeOk && stillValid && Undisturbed(old(history), at) && Enabled(result.capabilities, KIND_OCI)
    {
      hide Interruptions, Latched;
      CountStandsStillExactlyWhen(history, at);
      recorded := !(probeOk && (intentDisabled || sequence != started));
      if !recorded {
        return;
      }
      var seen := Seen(result, probeOk, stillValid);
      var positive := probeOk && stillValid;
      ObservationOffersOnlyWhatWasEarned(base, configured, lastPositive, current, seen, positive);
      Apply(seen, positive);
      if positive {
        lastPositive := current.capabilities;
      }
      OneMore(history, ProbeRecorded(positive));
      history := history + [ProbeRecorded(positive)];
    }

    /** Learns the restrictive observation L1 assigned with the registration. */
    method AdoptRestrictive(node: NodeView) returns (ok: bool)
      requires Valid()
      modifies `current, `revision, `pending, `confirmed
      ensures Valid()
      ensures ok <==>
                && !Enabled(node.content.capabilities, KIND_OCI) && KIND_OCI in node.content.missing
                && node.validRestriction
      ensures ok ==> current == node.content && confirmed == node.content && pending == 0 && revision == node.revision
      ensures !ok ==>
                && current == old(current) && pending == old(pending) && confirmed == old(confirmed)
                && revision == old(revision)
    {
      ok := !Enabled(node.content.capabilities, KIND_OCI) && KIND_OCI in node.content.missing && node.validRestriction;
      if ok {
        current, revision, pending := node.content, node.revision, 0;
        confirmed := node.content;
      }
    }

    /** L1's reply to a publication. It opens claims if and only if it is at least as
        new as the last local change and says exactly what this node now says. */
    method Acknowledge(node: NodeView)
      requires Valid()
      modifies `pending, `confirmed
      ensures Valid()
      ensures pending == 0 <==>
                old(pending) == 0 || (node.bootSession != "" && node.revision >= revision && node.content == current)
      ensures pending != 0 ==> pending == old(pending)
      ensures confirmed == if old(pending) != 0 && pending == 0 then node.content else old(confirmed)
    {
      if pending == 0 || node.bootSession == "" || node.revision < pending || node.content != current {
        return;
      }
      pending, confirmed := 0, node.content;
    }

    /** Claims are open only on what L1 last confirmed. */
    method AllowsClaim() returns (open: bool)
      requires Valid()
      ensures open ==> current == confirmed && (intentDisabled ==> !Enabled(current.capabilities, KIND_OCI))
      ensures open <==> pending == 0
    {
      open := pending == 0;
    }
  }
}
