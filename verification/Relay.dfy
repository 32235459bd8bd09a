/** One session's relay: a client socket, a durable view leg and at most one control
    leg, swapped under traffic. Source: agent/computer_session_relay.go. */
module Relay {
  import opened Common

  type Conn = nat

  datatype Leg = View | Control(conn: Conn)

  /** The one client-input path. `Parked` waits for a failed control leg to go. */
  datatype Writer = Idle | Writing(leg: Leg) | Parked(leg: Leg) | Stopped

  /** A swap in progress, with the mutex released while it waits. */
  datatype Swap = NoSwap | Installing(conn: Conn) | Removing(conn: Conn) | Restoring

  datatype Sent = Sent(leg: Leg, bytes: seq<char>)

  /** `delivering` are the backends with a client write in flight; `input` is every
      byte read from the client; `accepted` what each leg took, in order; `started`
      counts transfers begun. */
  datatype State = State(
    current: Option<Leg>, control: Option<Conn>, active: nat, closed: bool, swap: Swap,
    writer: Writer, delivering: set<Leg>,
    input: seq<char>, written: nat, accepted: seq<Sent>, started: nat)

  const INITIAL := State(Some(View), None, 0, false, NoSwap, Idle, {}, [], 0, [], 0)

  datatype Event =
    | ClientSends(bytes: seq<char>)
    | StartWrite
    | EndWrite(count: nat, ok: bool)
    | Unpark
    | StartDeliver(source: Leg)
    | EndDeliver(source: Leg)
    | BeginActivate(conn: Conn)
    | EndActivate
    | BeginDeactivate(conn: Conn)
    | LegIdle
    | ControlClosed
    | Close

  /** A leg takes a prefix of what it is offered, and all of it when it reports no
      error. */
  predicate LegMayAccept(s: State, count: nat, ok: bool) {
    s.written + count <= |s.input| && (ok ==> s.written + count == |s.input|)
  }

  function AfterWrite(s: State, leg: Leg, ok: bool): Writer {
    if ok || s.current != Some(leg) then Idle
    else if leg.Control? && s.control == Some(leg.conn) then Parked(leg)
    else Stopped
  }

  function Step(s: State, e: Event): State {
    match e
    case ClientSends(bytes) =>
      // The copy loop reads again only once everything read was written.
      if s.writer.Idle? && s.written == |s.input| then s.(input := s.input + bytes) else s
    case StartWrite =>
      if !s.writer.Idle? || s.written == |s.input| then s
      else if s.closed then s.(writer := Stopped)
      else if s.current.None? then s
      else s.(writer := Writing(s.current.value), active := s.active + 1, started := s.started + 1)
    case EndWrite(count, ok) =>
      if !s.writer.Writing? || !LegMayAccept(s, count, ok) || s.active == 0 then s
      else
        var leg := s.writer.leg;
        s.(accepted := s.accepted + [Sent(leg, s.input[s.written..s.written + count])],
           written := s.written + count, active := s.active - 1, writer := AfterWrite(s, leg, ok))
    case Unpark =>
      if s.writer.Parked? && (s.closed || s.current != Some(s.writer.leg)) then s.(writer := Idle) else s
    case StartDeliver(source) =>
      if s.closed || s.current != Some(source) || source in s.delivering then s
      else s.(delivering := s.delivering + {source}, active := s.active + 1, started := s.started + 1)
    case EndDeliver(source) =>
      if source !in s.delivering || s.active == 0 then s
      else s.(delivering := s.delivering - {source}, active := s.active - 1)
    case BeginActivate(conn) =>
      if s.closed || s.current != Some(View) || s.control.Some? then s
      else s.(current := None, swap := Installing(conn))
    case EndActivate =>
      // A close that came meanwhile is not looked at again.
      if !s.swap.Installing? || s.active != 0 then s
      else s.(control := Some(s.swap.conn), current := Some(Control(s.swap.conn)), swap := NoSwap)
    case BeginDeactivate(conn) =>
      if s.control != Some(conn) || s.swap != NoSwap then s
      else s.(current := None, swap := Removing(conn))
    case LegIdle =>
      if !s.swap.Removing? || s.active != 0 then s else s.(control := None, swap := Restoring)
    case ControlClosed =>
      if !s.swap.Restoring? then s
      else s.(current := if s.closed then s.current else Some(View), swap := NoSwap)
    case Close =>
      if s.closed then s else s.(closed := true, current := None, control := None)
  }

  function Run(s: State, events: seq<Event>): State
    decreases |events|
  {
    if events == [] then s else Run(Step(s, events[0]), events[1..])
  }

  // ----- What every step keeps -----

  /** A transfer over this leg is in flight. */
  predicate InFlight(s: State, leg: Leg) {
    leg in s.delivering || s.writer == Writing(leg)
  }

  /** The bytes the legs took, all together. */
  function Accepted(sent: seq<Sent>): seq<char> {
    if sent == [] then [] else Accepted(sent[..|sent| - 1]) + sent[|sent| - 1].bytes
  }

  ghost predicate OneLeg(s: State) {
    && (forall a, b :: InFlight(s, a) && InFlight(s, b) ==> a == b)
    && (forall a :: InFlight(s, a) ==>
          s.current == Some(a) || (s.current.None? && (s.closed || s.swap.Installing? || s.swap.Removing?)))
    && s.active == |s.delivering| + (if s.writer.Writing? then 1 else 0)
  }

  /** Where a swap stands. Only a swap or a close leaves no leg current. */
  ghost predicate Swapping(s: State) {
    && (s.swap.Installing? ==> s.current.None? && s.control.None?)
    && (s.swap.Removing? ==> s.current.None?)
    && (s.swap.Restoring? ==> s.current.None? && s.active == 0 && s.control.None?)
    && (s.swap.NoSwap? && !s.closed ==> s.current == Some(if s.control.Some? then Control(s.control.value) else View))
    && (s.swap.Removing? && !s.closed ==> s.control == Some(s.swap.conn))
  }

  ghost predicate InOrder(s: State) {
    s.written <= |s.input| && Accepted(s.accepted) == s.input[..s.written]
  }

  ghost predicate Inv(s: State) {
    OneLeg(s) && Swapping(s) && InOrder(s)
  }

  lemma StepKeepsOneLeg(s: State, e: Event)
    requires OneLeg(s) && Swapping(s)
    ensures OneLeg(Step(s, e))
  {
    if s.active == 0 {
      assert s.delivering == {};
    }
    var t := Step(s, e);
    forall a | InFlight(t, a) ensures InFlight(s, a) || s.current == t.current == Some(a) {
    }
    forall a, b | InFlight(t, a) && InFlight(t, b) ensures a == b {
      assert InFlight(s, a) && InFlight(s, b) ==> a == b;
    }
  }

  lemma StepKeepsSwapping(s: State, e: Event)
    requires OneLeg(s) && Swapping(s)
    ensures Swapping(Step(s, e))
  {
  }

  lemma StepKeepsInOrder(s: State, e: Event)
    requires InOrder(s)
    ensures InOrder(Step(s, e))
  {
    if e.EndWrite? && Step(s, e) != s {
      var t := Step(s, e);
      assert t.accepted[..|s.accepted|] == s.accepted;
      assert s.input[..s.written] + s.input[s.written..t.written] == s.input[..t.written];
    }
  }

  lemma {:induction false} RunKeepsInv(s: State, events: seq<Event>)
    requires Inv(s)
    ensures Inv(Run(s, events))
    decreases |events|
  {
    hide OneLeg, Swapping, InOrder, Step;
    if events != [] {
      StepKeepsOneLeg(s, events[0]);
      StepKeepsSwapping(s, events[0]);
      StepKeepsInOrder(s, events[0]);
      RunKeepsInv(Step(s, events[0]), events[1..]);
    }
  }

  // ----- Main results -----

  /** In every run all transfers in flight use one leg, which is current or is being
      replaced or closed. */
  lemma TransfersShareOneLeg(events: seq<Event>)
    ensures var s := Run(INITIAL, events);
      && (forall a, b :: InFlight(s, a) && InFlight(s, b) ==> a == b)
      && (forall a :: InFlight(s, a) ==>
          || s.current == Some(a)
          || (s.current.None? && (s.closed || s.swap.Installing? || s.swap.Removing?)))
  {
    RunKeepsInv(INITIAL, events);
  }

  /** A leg becomes current only while nothing is in flight. */
  lemma LegChangesOnlyWhenIdle(events: seq<Event>, e: Event)
    ensures var s := Run(INITIAL, events);
      Step(s, e).current != s.current && Step(s, e).current.Some? ==> s.active == 0 && forall a :: !InFlight(s, a)
  {
    RunKeepsInv(INITIAL, events);
    var s := Run(INITIAL, events);
    if s.active == 0 {
      assert s.delivering == {};
    }
  }

  lemma {:induction false} StaysClosed(s: State, events: seq<Event>)
    requires s.closed
    ensures Run(s, events).closed && Run(s, events).started == s.started
    decreases |events|
  {
    if events != [] {
      StaysClosed(Step(s, events[0]), events[1..]);
    }
  }

  lemma {:induction false} RunAppend(s: State, before: seq<Event>, after: seq<Event>)
    ensures Run(s, before + after) == Run(Run(s, before), after)
    decreases |before|
  {
    hide Step;
    if before == [] {
      assert before + after == after;
    } else {
      assert (before + after)[1..] == before[1..] + after;
      RunAppend(Step(s, before[0]), before[1..], after);
    }
  }

  /** However a run goes on after a close, no transfer starts in it. */
  lemma NothingStartsAfterClose(before: seq<Event>, after: seq<Event>)
    ensures Run(INITIAL, before).closed ==>
              Run(INITIAL, before + after).closed && Run(INITIAL, before + after).started ==
                  Run(INITIAL, before).started
  {
    hide Step;
    RunAppend(INITIAL, before, after);
    if Run(INITIAL, before).closed {
      StaysClosed(Run(INITIAL, before), after);
    }
  }

  /** The client's bytes taken by all legs together are what the client sent, in
      order, each once: a prefix of its input, however often the legs changed or
      failed. */
  lemma ClientBytesArriveInOrder(events: seq<Event>)
    ensures var s := Run(INITIAL, events);
      Accepted(s.accepted) <= s.input && |Accepted(s.accepted)| == s.written
  {
    RunKeepsInv(INITIAL, events);
  }

  /** Helper: the safety results would hold of a relay that never swaps. With nothing in
      flight a swap ends on the control leg, and removing that leg restores the view. */
  lemma SwapAndRestore(s: State, conn: Conn)
    requires !s.closed && s.current == Some(View) && s.control.None? && s.swap.NoSwap? && s.active == 0
    ensures var on := Step(Step(s, BeginActivate(conn)), EndActivate);
      && on == s.(current := Some(Control(conn)), control := Some(conn))
      && Step(Step(Step(on, BeginDeactivate(conn)), LegIdle), ControlClosed) == s
  {
  }

  /** A failed control leg costs nothing: what it did not take goes to the view once
      the leg is gone. */
  lemma FailedControlWriteIsRetriedOnTheView(s: State, conn: Conn, count: nat)
    requires !s.closed && s.current == Some(Control(conn)) && s.control == Some(conn) && s.swap.NoSwap?
    requires s.writer == Idle && s.active == 0 && s.delivering == {} && s.written < |s.input|
    requires s.written + count < |s.input|
    ensures var failed := Step(Step(s, StartWrite), EndWrite(count, false));
      var restored := Step(Step(Step(Step(failed, BeginDeactivate(conn)), LegIdle), ControlClosed), Unpark);
      var done := Step(Step(restored, StartWrite), EndWrite(|s.input| - s.written - count, true));
      && failed.writer == Parked(Control(conn)) && failed.written == s.written + count
      && restored.writer == Idle && restored.current == Some(View)
      && done.written == |s.input| && done.accepted[|s.accepted| + 1] == Sent(View, s.input[s.written + count..])
  {
  }
}
