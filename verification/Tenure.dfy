/** Who drives a Computer: taking, overriding and releasing control while the
    driver signal, the audit log and the relays answer in their own time.
    Source: agent/controller_tenure.go. */
module Tenure {
  import opened Common

  type SessionId = nat
  type Conn = nat

  datatype Session = Session(canTake: bool, administrator: bool, hasRelay: bool)

  datatype Holder = Holder(session: SessionId, conn: Conn)

  /** How far an operation has come. Every phase runs with the mutex released. */
  datatype Phase =
    | Displacing(prior: Holder)        // an override detaching the leg it took over
    | Signalling                       // about to set the driver signal true
    | Connecting                       // dialling and negotiating the control backend
    | Recording(conn: Conn)            // writing the acquired facts to the audit log
    | Activating(conn: Conn)           // handing the leg to the session's relay
    | Activated(conn: Conn)            // about to become the holder
    | Withdrawing(holder: Holder)      // detaching a leg on the way to a clear
    | Clearing                         // about to clear the driver signal
    | Finishing                        // about to free the tenure

  /** `relay` and `since` are as they were when it began: whether the
      session has a relay, and how many signal commands had been issued. */
  datatype Operation = Operation(session: SessionId, relay: bool, take: bool, override: bool, since: nat, phase: Phase)

  /** A driver-signal command and whether it was answered with success. */
  datatype Command = SetTrue(ok: bool) | Clear(ok: bool)

  /** `legs` are the relays that have a control leg, with the leg's connection. */
  datatype State = State(live: map<SessionId, Session>, held: Option<Holder>, op: Option<Operation>,
                         legs: map<SessionId, Conn>, commands: seq<Command>, conns: nat)

  const INITIAL := State(map[], None, None, map[], [], 0)

  /** `ended` says the session's, the caller's or the attempt's context is done;
      `ok` how the outside call was answered. */
  datatype Event =
    | Register(id: SessionId, session: Session)
    | Unregister(id: SessionId)
    | BeginTake(id: SessionId, ended: bool)
    | Displaced(auditOk: bool)
    | Signalled(ok: bool)
    | Connected(ok: bool)
    | Recorded(ok: bool)
    | RelayAnswered(ok: bool)
    | FinishTake(ended: bool)
    | Withdrawn
    | Cleared(ok: bool)
    | FinishOperation
    | BeginRelease(id: SessionId)
    | RelayClosed(id: SessionId)

  function WithoutLeg(legs: map<SessionId, Conn>, h: Holder): map<SessionId, Conn> {
    if h.session in legs && legs[h.session] == h.conn then legs - {h.session} else legs
  }

  function At(s: State, phase: Phase): State
    requires s.op.Some?
  {
    s.(op := Some(s.op.value.(phase := phase)))
  }

  predicate MayTake(s: State, id: SessionId, ended: bool) {
    && id in s.live && s.live[id].canTake && !ended && s.op.None?
    && (s.held.Some? ==> s.held.value.session != id && s.live[id].administrator)
  }

  predicate InPhase(s: State, e: Event) {
    s.op.Some? &&
    match e
    case Displaced(_) => s.op.value.phase.Displacing?
    case Signalled(_) => s.op.value.phase.Signalling?
    case Connected(_) => s.op.value.phase.Connecting?
    case Recorded(_) => s.op.value.phase.Recording?
    case RelayAnswered(_) => s.op.value.phase.Activating?
    case FinishTake(_) => s.op.value.phase.Activated?
    case Withdrawn => s.op.value.phase.Withdrawing?
    case Cleared(_) => s.op.value.phase.Clearing?
    case FinishOperation => s.op.value.phase.Finishing?
    case _ => false
  }

  /** One step of the operation in progress. */
  function Advance(s: State, e: Event): State
    requires InPhase(s, e)
  {
    var op := s.op.value;
    match e
    case Displaced(auditOk) =>
      At(s.(legs := WithoutLeg(s.legs, op.phase.prior)), if auditOk then Connecting else Clearing)
    case Signalled(ok) =>
      var asked := s.(commands := s.commands + [SetTrue(ok)]);
      if ok then At(asked, Connecting) else asked.(op := None)
    case Connected(ok) =>
      if ok then At(s.(conns := s.conns + 1), Recording(s.conns)) else At(s, Clearing)
    case Recorded(ok) =>
      if ok then At(s, Activating(op.phase.conn)) else At(s, Clearing)
    case RelayAnswered(ok) =>
      if !op.relay then At(s, Activated(op.phase.conn))
      else if !ok || op.session in s.legs then At(s, Clearing)
      else At(s.(legs := s.legs[op.session := op.phase.conn]), Activated(op.phase.conn))
    case FinishTake(ended) =>
      var holder := Holder(op.session, op.phase.conn);
      if ended then At(s, Withdrawing(holder)) else s.(held := Some(holder), op := None)
    case Withdrawn => At(s.(legs := WithoutLeg(s.legs, op.phase.holder)), Clearing)
    case Cleared(ok) => At(s.(commands := s.commands + [Clear(ok)]), Finishing)
    case FinishOperation => s.(op := None)
  }

  function Step(s: State, e: Event): State {
    match e
    case Register(id, session) => if id in s.live then s else s.(live := s.live[id := session])
    case Unregister(id) => s.(live := s.live - {id})
    case BeginTake(id, ended) =>
      if !MayTake(s, id, ended) then s
      else
        var phase := if s.held.Some? then Displacing(s.held.value) else Signalling;
        s.(held := None, op := Some(Operation(id, s.live[id].hasRelay, true, s.held.Some?, |s.commands|, phase)))
    case BeginRelease(id) =>
      if s.op.Some? || s.held.None? || s.held.value.session != id then s
      else s.(held := None, op := Some(Operation(id, false, false, false, |s.commands|, Withdrawing(s.held.value))))
    case RelayClosed(id) => s.(legs := s.legs - {id})
    case _ => if InPhase(s, e) then Advance(s, e) else s
  }

  function Run(s: State, events: seq<Event>): State
    decreases |events|
  {
    if events == [] then s else Run(Step(s, events[0]), events[1..])
  }

  predicate Free(s: State) {
    s.held.None? && s.op.None?
  }

  // ----- What every step keeps -----

  /** The last successful set-true has not been followed by a clear. */
  predicate DrivenSignal(commands: seq<Command>) {
    commands != [] && commands[|commands| - 1] == SetTrue(true)
  }

  /** Whose control leg a relay may have: the holder's, or one the operation in
      progress is moving. */
  ghost predicate OwnsLeg(s: State, id: SessionId, conn: Conn) {
    || s.held == Some(Holder(id, conn))
    || (s.op.Some? && match s.op.value.phase
                      case Displacing(h) => h == Holder(id, conn)
                      case Withdrawing(h) => h == Holder(id, conn)
                      case Activated(c) => s.op.value.session == id && c == conn
                      case _ => false)
  }

  /** After a successful set-true the next command is a clear. */
  ghost predicate EverySetTrueIsCleared(commands: seq<Command>) {
    forall i :: 0 <= i < |commands| - 1 && commands[i] == SetTrue(true) ==> commands[i + 1].Clear?
  }

  ghost predicate Inv(s: State) {
    && (s.op.Some? ==> s.held.None?)
    && (forall id :: id in s.legs ==> OwnsLeg(s, id, s.legs[id]))
    && EverySetTrueIsCleared(s.commands)
    && (s.held.Some? ==> DrivenSignal(s.commands))
    && (Free(s) ==> !DrivenSignal(s.commands))
    && (s.op.Some? ==>
          && (DrivenSignal(s.commands) <==> !s.op.value.phase.Signalling? && !s.op.value.phase.Finishing?)
          && s.op.value.since <= |s.commands|
          && (s.op.value.phase.Finishing? ==> s.commands != [] && s.commands[|s.commands| - 1].Clear?)
          && (s.op.value.override && !s.op.value.phase.Finishing? ==> s.op.value.since == |s.commands|)
          && (s.op.value.override ==> !s.op.value.phase.Signalling?))
  }

  lemma ConnectingKeepsInv(s: State, e: Event)
    requires Inv(s) && InPhase(s, e) && (e.Signalled? || e.Connected? || e.Recorded?)
    ensures Inv(Advance(s, e))
  {
  }

  lemma AcquiringKeepsInv(s: State, e: Event)
    requires Inv(s) && InPhase(s, e) && (e.RelayAnswered? || e.FinishTake?)
    ensures Inv(Advance(s, e))
  {
  }

  lemma EndingKeepsInv(s: State, e: Event)
    requires Inv(s) && InPhase(s, e) && (e.Displaced? || e.Withdrawn? || e.Cleared? || e.FinishOperation?)
    ensures Inv(Advance(s, e))
  {
  }

  lemma ClaimingKeepsInv(s: State, e: Event)
    requires Inv(s) && !InPhase(s, e)
    ensures Inv(Step(s, e))
  {
    hide Advance;
  }

  lemma StepKeepsInv(s: State, e: Event)
    requires Inv(s)
    ensures Inv(Step(s, e))
  {
    if !InPhase(s, e) {
      ClaimingKeepsInv(s, e);
    } else {
      hide Inv, Advance;
      if e.Displaced? || e.Withdrawn? || e.Cleared? || e.FinishOperation? {
        EndingKeepsInv(s, e);
      } else if e.RelayAnswered? || e.FinishTake? {
        AcquiringKeepsInv(s, e);
      } else {
        ConnectingKeepsInv(s, e);
      }
    }
  }

  lemma {:induction false} RunKeepsInv(s: State, events: seq<Event>)
    requires Inv(s)
    ensures Inv(Run(s, events))
    decreases |events|
  {
    hide Inv, Step;
    if events != [] {
      StepKeepsInv(s, events[0]);
      RunKeepsInv(Step(s, events[0]), events[1..]);
    }
  }

  // ----- Main results -----

  /** In every run, an operation in progress means no holder, and at most one relay
      of all sessions has a control leg. */
  lemma OneDriver(events: seq<Event>)
    ensures var s := Run(INITIAL, events);
      && (s.op.Some? ==> s.held.None?)
      && (forall a, b :: a in s.legs && b in s.legs ==> a == b)
      && (Free(s) ==> s.legs == map[])
  {
    RunKeepsInv(INITIAL, events);
    var s := Run(INITIAL, events);
    forall id | id in s.legs ensures OwnsLeg(s, id, s.legs[id]) {
    }
  }

  /** In every run, a free tenure has cleared the driver signal after every
      successful set-true, and a held one drives it. */
  lemma FreeMeansCleared(events: seq<Event>)
    ensures var s := Run(INITIAL, events);
      && (s.held.Some? ==> DrivenSignal(s.commands))
      && forall i :: 0 <= i < |s.commands| && s.commands[i] == SetTrue(true) && Free(s) ==>
           i + 1 < |s.commands| && s.commands[i + 1].Clear?
  {
    RunKeepsInv(INITIAL, events);
  }

  /** An override that succeeds issued no signal command from its beginning to its
      end: the signal stayed true. */
  lemma OverrideNeverClears(events: seq<Event>, ended: bool)
    ensures var s := Run(INITIAL, events);
      s.op.Some? && s.op.value.override && s.op.value.phase.Activated? ==>
        var t := Step(s, FinishTake(ended));
        t.held.Some? ==> t.commands == s.commands && |s.commands| == s.op.value.since && DrivenSignal(t.commands)
  {
    RunKeepsInv(INITIAL, events);
  }

  /** Setting the signal true frees the tenure with no clear if and only if the
      call came back with an error, and nothing else frees it that way. */
  lemma OnlyAFailedSetTrueSkipsTheClear(events: seq<Event>, e: Event)
    ensures var s, t := Run(INITIAL, events), Step(Run(INITIAL, events), e);
      !Free(s) && Free(t) ==>
        ((|t.commands| > 0 && t.commands[|t.commands| - 1].Clear?) <==> e != Signalled(false))
  {
    RunKeepsInv(INITIAL, events);
    var s := Run(INITIAL, events);
  }

  /** A first take whose set-true came back with an error: the tenure is free, the one
      command issued was never cleared, and it may have reached the driver. */
  lemma AFailedSetTrueLeavesTheSignal(id: SessionId, session: Session) returns (events: seq<Event>)
    requires session.canTake
    ensures var s := Run(INITIAL, events); Free(s) && s.commands == [SetTrue(false)]
    ensures var s := Run(INITIAL, events[..|events| - 1]); !Free(s)
  {
    var registered, begun := Register(id, session), BeginTake(id, false);
    events := [registered, begun, Signalled(false)];
    var s1 := Step(INITIAL, registered);
    var s2 := Step(s1, begun);
    assert MayTake(s1, id, false) && s2.op.Some? && s2.op.value.phase.Signalling?;
    hide Step, Run;
    assert events == [registered] + ([begun] + ([Signalled(false)] + []));
    assert events[..2] == [registered] + ([begun] + []);
    RunCons(INITIAL, registered, [begun] + ([Signalled(false)] + []));
    RunCons(s1, begun, [Signalled(false)] + []);
    RunCons(s2, Signalled(false), []);
    RunCons(INITIAL, registered, [begun] + []);
    RunCons(s1, begun, []);
    FailedSetTrue(s2);
  }

  lemma FailedSetTrue(s: State)
    requires s.op.Some? && s.op.value.phase.Signalling? && s.held.None?
    ensures Free(Step(s, Signalled(false))) && Step(s, Signalled(false)).commands == s.commands + [SetTrue(false)]
  {
  }

  lemma RunCons(s: State, e: Event, rest: seq<Event>)
    ensures Run(s, [e] + rest) == Run(Step(s, e), rest)
    ensures Run(Step(s, e), []) == Step(s, e)
  {
    hide Step;
    assert ([e] + rest)[1..] == rest;
  }

  // ----- What an undisturbed operation does -----

  function UndisturbedTake(s: State, id: SessionId): State {
    var begun := Step(s, BeginTake(id, false));
    var signalled := if s.held.Some? then Step(begun, Displaced(true)) else Step(begun, Signalled(true));
    Step(Step(Step(Step(signalled, Connected(true)), Recorded(true)), RelayAnswered(true)), FinishTake(false))
  }

  lemma OnlyTheHolderHasALeg(s: State)
    requires Inv(s) && s.op.None?
    ensures s.legs == (if s.held.Some? && s.held.value.session in s.legs
                       then map[s.held.value.session := s.held.value.conn] else map[])
  {
    forall other | other in s.legs ensures s.held == Some(Holder(other, s.legs[other])) {
      assert OwnsLeg(s, other, s.legs[other]);
    }
  }

  /** The first half of an undisturbed take: nobody drives, the signal is true. */
  lemma TakeClears(s: State, id: SessionId)
    requires Inv(s) && MayTake(s, id, false)
    ensures var begun := Step(s, BeginTake(id, false));
      var signalled := if s.held.Some? then Step(begun, Displaced(true)) else Step(begun, Signalled(true));
      signalled == s.(held := None, legs := map[],
                      commands := if s.held.Some? then s.commands else s.commands + [SetTrue(true)],
                      op := Some(Operation(id, s.live[id].hasRelay, true, s.held.Some?, |s.commands|, Connecting)))
  {
    OnlyTheHolderHasALeg(s);
    if s.held.Some? {
      assert WithoutLeg(s.legs, s.held.value) == map[];
    }
  }

  lemma TakeConnects(s: State)
    requires s.op.Some? && s.op.value.phase.Connecting? && s.op.value.relay && s.legs == map[]
    ensures Step(Step(Step(Step(s, Connected(true)), Recorded(true)), RelayAnswered(true)), FinishTake(false))
            == s.(conns := s.conns + 1, legs := map[s.op.value.session := s.conns],
                  held := Some(Holder(s.op.value.session, s.conns)), op := None)
  {
    var s1 := Step(s, Connected(true));
    assert s1 == At(s.(conns := s.conns + 1), Recording(s.conns));
    var s2 := Step(s1, Recorded(true));
    assert s2 == At(s1, Activating(s.conns));
    var s3 := Step(s2, RelayAnswered(true));
    assert s3 == At(s2.(legs := map[s.op.value.session := s.conns]), Activated(s.conns));
  }

  /** An undisturbed take makes the session the only driver, whoever drove before. */
  lemma TakeMakesTheOnlyDriver(s: State, id: SessionId)
    requires Inv(s) && MayTake(s, id, false) && s.live[id].hasRelay
    ensures var t := UndisturbedTake(s, id);
      && t.held == Some(Holder(id, s.conns)) && t.op.None? && t.legs == map[id := s.conns] && DrivenSignal(t.commands)
      && t.commands == (if s.held.Some? then s.commands else s.commands + [SetTrue(true)])
  {
    hide Step;
    TakeClears(s, id);
    var begun := Step(s, BeginTake(id, false));
    TakeConnects(if s.held.Some? then Step(begun, Displaced(true)) else Step(begun, Signalled(true)));
  }

  /** An undisturbed release leaves nobody driving and the signal cleared. */
  lemma ReleaseFreesTheTenure(s: State)
    requires Inv(s) && s.held.Some?
    ensures var r := Step(Step(Step(Step(s, BeginRelease(s.held.value.session)), Withdrawn), Cleared(true)),
                          FinishOperation);
      r == s.(held := None, legs := map[], commands := s.commands + [Clear(true)])
  {
    OnlyTheHolderHasALeg(s);
    var h := s.held.value;
    assert WithoutLeg(s.legs, h) == map[];
    var s1 := Step(s, BeginRelease(h.session));
    assert s1 == s.(held := None, op := Some(Operation(h.session, false, false, false, |s.commands|, Withdrawing(h))));
    var s2 := Step(s1, Withdrawn);
    assert s2 == At(s1.(legs := map[]), Clearing);
    var s3 := Step(s2, Cleared(true));
    assert s3 == At(s2.(commands := s.commands + [Clear(true)]), Finishing);
  }
}
