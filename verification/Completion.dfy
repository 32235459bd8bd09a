/** The fence that keeps a late reply from destroying evidence an upgrade needs.
    Source: agent/completion_delivery.go, agent/evidence_outbox.go. */
module Completion {

  datatype Mode = Live | Replay | Upgrade

  /** Where an error code sends the caller. */
  datatype Destination = AttemptAuthority | NodeSession | Transient | Unclassified

  /** L1's answer. `Permanent` are the codes that reject evidence for good. */
  datatype Reply = Accepted | LeaseExpired | Permanent | Other(destination: Destination)

  datatype Verdict = Delivered | RetryLater | RefusedButKept | PermanentlyRefused | Sealed

  /** What happens to the durable evidence. */
  datatype Effect = Keep | MarkDelivered | Seal | ReplaceWithGap

  /** An effect that ends evidence L1 did not accept. */
  predicate Destroys(effect: Effect, reply: Reply) {
    effect.Seal? || effect.ReplaceWithGap? || (effect.MarkDelivered? && !reply.Accepted?)
  }

  function EffectiveMode(mode: Mode, processService: bool, revision: nat, current: nat, held: bool): Mode {
    if processService && (held || current != revision) then Upgrade else mode
  }

  function DeliverCompletion(mode: Mode, processService: bool, reply: Reply, revision: nat, current: nat,
                             held: bool): (Verdict, Effect) {
    var m := EffectiveMode(mode, processService, revision, current, held);
    match reply
    case Accepted => (Delivered, MarkDelivered)
    case LeaseExpired => if m.Upgrade? then (RefusedButKept, Keep) else (Delivered, MarkDelivered)
    case Permanent => if m.Replay? then (Sealed, Seal) else (PermanentlyRefused, Keep)
    case Other(destination) =>
      if destination.Transient? then (RetryLater, Keep)
      else if !destination.AttemptAuthority? || m.Upgrade? then (RefusedButKept, Keep)
      else (Sealed, Seal)
  }

  /** One reply of a log replay. `hasGap` says the batch already holds a gap,
      `replaced` that a gap could be written in its place. */
  function ReplayReply(preserve: bool, reply: Reply, hasGap: bool, replaced: bool, revision: nat, current: nat,
                       held: bool): Effect {
    if reply.Accepted? then MarkDelivered
    else if preserve || held || current != revision then Keep
    else
      match reply
      case Permanent => if hasGap || !replaced then Seal else ReplaceWithGap
      case LeaseExpired => Seal
      case Other(destination) => if destination.AttemptAuthority? then Seal else Keep
  }

  // ----- Requests against upgrades -----

  /** `revision` is what the request read when it started. */
  datatype Request =
    | Completing(mode: Mode, processService: bool, revision: nat)
    | Replaying(preserve: bool, revision: nat)

  /** One attempt's upgrade hold, its revision, and the requests in flight. */
  datatype State = State(held: bool, revision: nat, requests: map<nat, Request>)

  const INITIAL := State(false, 0, map[])

  datatype Event =
    | HoldUpgrade
    | ReleaseUpgrade
    | StartCompletion(id: nat, mode: Mode, processService: bool)
    | StartReplay(id: nat, preserve: bool)
    | Answered(id: nat, reply: Reply, hasGap: bool, replaced: bool)
    | Abandoned(id: nat)

  function EffectOf(s: State, r: Request, reply: Reply, hasGap: bool, replaced: bool): Effect {
    match r
    case Completing(mode, processService, revision) =>
      DeliverCompletion(mode, processService, reply, revision, s.revision, s.held).1
    case Replaying(preserve, revision) =>
      ReplayReply(preserve, reply, hasGap, replaced, revision, s.revision, s.held)
  }

  function Step(s: State, e: Event): State {
    match e
    case HoldUpgrade => if s.held then s else s.(held := true, revision := s.revision + 1)
    case ReleaseUpgrade => if s.held then s.(held := false, revision := s.revision + 1) else s
    case StartCompletion(id, mode, processService) =>
      if id in s.requests then s else s.(requests := s.requests[id := Completing(mode, processService, s.revision)])
    case StartReplay(id, preserve) =>
      if id in s.requests then s else s.(requests := s.requests[id := Replaying(preserve, s.revision)])
    case Answered(id, reply, hasGap, replaced) =>
      if id !in s.requests then s
      else
        var r := s.requests[id];
        var effect := EffectOf(s, r, reply, hasGap, replaced);
        // A replay pass goes on after an accepted batch or a gap; all else ends it.
        if r.Replaying? && (reply.Accepted? || effect.ReplaceWithGap?) then s else s.(requests := s.requests - {id})
    case Abandoned(id) => s.(requests := s.requests - {id})
  }

  /** The state once the first `n` events have happened. */
  function After(events: seq<Event>, n: nat): State
    requires n <= |events|
  {
    if n == 0 then INITIAL else Step(After(events, n - 1), events[n - 1])
  }

  /** Process-service completions and log replays are fenced; nothing else is. */
  predicate Fenced(r: Request) {
    r.Completing? ==> r.processService
  }

  predicate InFlight(events: seq<Event>, n: nat, id: nat, r: Request)
    requires n <= |events|
  {
    id in After(events, n).requests && After(events, n).requests[id] == r
  }

  /** How often the hold began or ended during the first `n` events. */
  function Transfers(events: seq<Event>, n: nat): nat
    requires n <= |events|
  {
    if n == 0 then 0
    else Transfers(events, n - 1) + (if After(events, n).held != After(events, n - 1).held then 1 else 0)
  }

  /** In every run the revision counts how often the hold began or ended and is odd
      exactly while it is in force. */
  lemma {:induction false} RevisionCountsTransfers(events: seq<Event>, n: nat)
    requires n <= |events|
    ensures After(events, n).revision == Transfers(events, n)
    ensures After(events, n).held <==> After(events, n).revision % 2 == 1
    decreases n
  {
    if n > 0 {
      RevisionCountsTransfers(events, n - 1);
    }
  }

  /** Between two moments with one revision the hold stayed as it was. */
  lemma {:induction false} SameRevisionSameHold(events: seq<Event>, i: nat, k: nat, j: nat)
    requires i <= k <= j <= |events|
    ensures After(events, i).revision <= After(events, k).revision <= After(events, j).revision
    ensures After(events, i).revision == After(events, j).revision ==> After(events, k).held == After(events, i).held
    decreases j - i
  {
    if i < k {
      SameRevisionSameHold(events, i + 1, k, j);
    } else if k < j {
      SameRevisionSameHold(events, i, k, j - 1);
    }
  }

  /** The start of a request in flight: event `i` started it, with the revision of that
      moment, and it has been in flight ever since. */
  lemma {:induction false} RequestHasAStart(events: seq<Event>, j: nat, id: nat, r: Request) returns (i: nat)
    requires j <= |events| && InFlight(events, j, id, r)
    ensures i < j && id !in After(events, i).requests && r.revision == After(events, i).revision
    ensures StartsAs(events[i], id, r)
    ensures forall k :: i < k <= j ==> InFlight(events, k, id, r)
    decreases j
  {
    if id in After(events, j - 1).requests {
      assert InFlight(events, j - 1, id, r);
      i := RequestHasAStart(events, j - 1, id, r);
    } else {
      i := j - 1;
    }
  }

  predicate StartsAs(e: Event, id: nat, r: Request) {
    match r
    case Completing(mode, processService, _) => e == StartCompletion(id, mode, processService)
    case Replaying(preserve, _) => e == StartReplay(id, preserve)
  }

  /** Some upgrade hold was in force at some moment from `i` to `j`. */
  ghost predicate HeldBetween(events: seq<Event>, i: nat, j: nat)
    requires i <= j <= |events|
  {
    exists k :: i <= k <= j && After(events, k).held
  }

  /** The fence closes exactly when an upgrade hold was in force at some moment while
      the request was in flight. */
  lemma FenceClosesExactlyWhenAHoldOverlapped(events: seq<Event>, i: nat, j: nat)
    requires i <= j <= |events|
    ensures After(events, j).held || After(events, j).revision != After(events, i).revision <==>
              HeldBetween(events, i, j)
  {
    SameRevisionSameHold(events, i, j, j);
    if After(events, j).revision == After(events, i).revision {
      forall k | i <= k <= j ensures After(events, k).held == After(events, j).held {
        SameRevisionSameHold(events, i, k, j);
        SameRevisionSameHold(events, i, j, j);
      }
    } else if !HeldBetween(events, i, j) {
      NeverHeldKeepsTheRevision(events, i, j);
    }
  }

  lemma {:induction false} NeverHeldKeepsTheRevision(events: seq<Event>, i: nat, j: nat)
    requires i <= j <= |events| && !HeldBetween(events, i, j)
    ensures After(events, i).revision == After(events, j).revision
    decreases j
  {
    if i < j {
      assert !After(events, j - 1).held && !After(events, j).held;
      NeverHeldKeepsTheRevision(events, i, j - 1);
    }
  }

  /** What became of the evidence at event `j`. */
  ghost predicate DestroysAt(events: seq<Event>, j: nat, r: Request)
    requires j < |events|
  {
    && events[j].Answered? && InFlight(events, j, events[j].id, r)
    && Destroys(EffectOf(After(events, j), r, events[j].reply, events[j].hasGap, events[j].replaced), events[j].reply)
  }

  /** In every run, a refusal of a process-service completion or of a log replay destroys
      evidence only if no upgrade hold was in force at any moment from the start of that
      request or pass to the reply. */
  lemma LateRepliesDestroyNothing(events: seq<Event>, j: nat, r: Request) returns (i: nat)
    requires j < |events| && DestroysAt(events, j, r) && Fenced(r)
    ensures i < j && StartsAs(events[i], events[j].id, r)
    ensures forall k :: i < k <= j ==> InFlight(events, k, events[j].id, r)
    ensures forall k :: i <= k <= j ==> !After(events, k).held
  {
    i := RequestHasAStart(events, j, events[j].id, r);
    FenceClosesExactlyWhenAHoldOverlapped(events, i, j);
    OnlyAnUnfencedReplyDestroys(After(events, j), r, events[j].reply, events[j].hasGap, events[j].replaced);
  }

  /** And when none was, the reply is treated as if there were no upgrades at all. */
  lemma UndisturbedRepliesAreNotFenced(events: seq<Event>, i: nat, j: nat, r: Request, reply: Reply, hasGap: bool,
                                       replaced: bool)
    requires i <= j <= |events| && r.revision == After(events, i).revision && !HeldBetween(events, i, j)
    ensures EffectOf(After(events, j), r, reply, hasGap, replaced)
            == EffectOf(State(false, r.revision, map[]), r, reply, hasGap, replaced)
  {
    FenceClosesExactlyWhenAHoldOverlapped(events, i, j);
  }

  /** The fence, one reply at a time: a destroying effect needs no hold now and an
      unchanged revision. */
  lemma OnlyAnUnfencedReplyDestroys(s: State, r: Request, reply: Reply, hasGap: bool, replaced: bool)
    requires Fenced(r)
    ensures Destroys(EffectOf(s, r, reply, hasGap, replaced), reply) ==> !s.held && s.revision == r.revision
  {
  }

  /** Every other completion's evidence fares the same whoever holds what, and the
      fence never turns an accepted reply away. */
  lemma FenceTouchesNothingElse(mode: Mode, processService: bool, reply: Reply, revision: nat, current: nat, held: bool)
    ensures !processService ==> DeliverCompletion(mode, processService, reply, revision, current, held)
                                == DeliverCompletion(mode, processService, reply, revision, revision, false)
    ensures reply.Accepted? ==>
              DeliverCompletion(mode, processService, reply, revision, current, held) == (Delivered, MarkDelivered)
    ensures DeliverCompletion(Upgrade, processService, reply, revision, current, held).1 ==
              (if reply.Accepted? then MarkDelivered else Keep)
  {
  }

  /** Helper: the table of replies that destroy evidence, read off `EffectOf`. */
  lemma DestroysExactlyWhen(s: State, r: Request, reply: Reply, hasGap: bool, replaced: bool)
    ensures Destroys(EffectOf(s, r, reply, hasGap, replaced), reply) <==>
              match r
              case Replaying(preserve, revision) =>
                !preserve && !s.held && s.revision == revision
                    && (reply.LeaseExpired? || reply.Permanent? || reply == Other(AttemptAuthority))
              case Completing(mode, processService, revision) =>
                && !mode.Upgrade? && !(processService && (s.held || s.revision != revision))
                && (reply.LeaseExpired? || reply == Other(AttemptAuthority) || (reply.Permanent? && mode.Replay?))
  {
  }
}
