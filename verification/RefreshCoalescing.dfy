/**
 * Coalescing concurrent `ensureFresh` calls on one manager: a step is a turn of the event
 * loop, and calls, completions and wake-ups interleave freely.
 */
module RefreshCoalescing {
  import opened Wrappers

  /** A run of `doEnsureFresh`: its body, then its `finally` handler, then its promise settles. */
  datatype Phase = Running | Finishing | Settled

  datatype RefreshRun = RefreshRun(force: bool, phase: Phase)

  /** The field `inFlightRefresh`; a promise is named by the number of its run. */
  datatype InFlight = InFlight(promise: nat, force: bool)

  /** A caller holds a promise, waits to call again, or has its result. */
  datatype Caller = Attached(force: bool, promise: nat) | Queued(promise: nat) | Resolved(force: bool, promise: nat)

  datatype State = State(slot: Option<InFlight>, runs: seq<RefreshRun>, callers: seq<Caller>)

  datatype Event =
    | Call(force: bool)
    | BodyDone(run: nat)
    | Finally(run: nat)
    | WakeUp(caller: nat)
    | Deliver(caller: nat)

  /** What `ensureFresh` does with the slot and the runs, and what it returns. */
  function EnsureFresh(slot: Option<InFlight>, runs: seq<RefreshRun>, force: bool)
    : (result: (Option<InFlight>, seq<RefreshRun>, Caller))
  {
    match slot
    case Some(current) =>
      if !force || current.force then (slot, runs, Attached(force, current.promise))
      else (slot, runs, Queued(current.promise))
    case None =>
      (Some(InFlight(|runs|, force)), runs + [RefreshRun(force, Running)], Attached(force, |runs|))
  }

  function Apply(s: State, event: Event): (next: Option<State>) {
    match event
    case Call(force) =>
      var (slot, runs, caller) := EnsureFresh(s.slot, s.runs, force);
      Some(State(slot, runs, s.callers + [caller]))
    case BodyDone(run) =>
      if run < |s.runs| && s.runs[run].phase.Running?
      then Some(s.(runs := s.runs[run := s.runs[run].(phase := Finishing)])) else None
    case Finally(run) =>
      if run < |s.runs| && s.runs[run].phase.Finishing? then
        var slot := if s.slot.Some? && s.slot.value.promise == run then None else s.slot;
        Some(s.(slot := slot, runs := s.runs[run := s.runs[run].(phase := Settled)]))
      else None
    case WakeUp(caller) =>
      if caller < |s.callers| && s.callers[caller].Queued? && IsSettled(s, s.callers[caller].promise) then
        var (slot, runs, again) := EnsureFresh(s.slot, s.runs, true);
        Some(State(slot, runs, s.callers[caller := again]))
      else None
    case Deliver(caller) =>
      if caller < |s.callers| && s.callers[caller].Attached? && IsSettled(s, s.callers[caller].promise) then
        Some(s.(callers := s.callers[caller := Resolved(s.callers[caller].force, s.callers[caller].promise)]))
      else None
  }

  predicate IsSettled(s: State, run: nat) {
    run < |s.runs| && s.runs[run].phase.Settled?
  }

  function RunEvents(s: State, events: seq<Event>): (end: Option<State>)
    decreases |events|
  {
    if events == [] then Some(s) else
      match Apply(s, events[0])
      case None => None
      case Some(s') => RunEvents(s', events[1..])
  }

  const START := State(None, [], [])

  /** The slot names the one run that has not settled, and a forced caller only forced runs. */
  ghost predicate Inv(s: State) {
    && (s.slot.Some? ==>
          var current := s.slot.value;
          current.promise < |s.runs| && s.runs[current.promise].force == current.force
          && !s.runs[current.promise].phase.Settled?)
    && (forall r :: 0 <= r < |s.runs| && !s.runs[r].phase.Settled? ==> s.slot.Some? && s.slot.value.promise == r)
    && (forall c :: 0 <= c < |s.callers| ==> CallerOk(s.runs, s.callers[c]))
  }

  ghost predicate CallerOk(runs: seq<RefreshRun>, caller: Caller) {
    && caller.promise < |runs|
    && (caller.Queued? ==> !runs[caller.promise].force)
    && (!caller.Queued? && caller.force ==> runs[caller.promise].force)
    && (caller.Resolved? ==> runs[caller.promise].phase.Settled?)
  }

  lemma EnsureFreshKeepsInv(s: State, force: bool)
    requires Inv(s)
    ensures var (slot, runs, caller) := EnsureFresh(s.slot, s.runs, force);
      Inv(State(slot, runs, s.callers)) && CallerOk(runs, caller)
  {
  }

  lemma EventKeepsInv(s: State, event: Event)
    requires Inv(s) && Apply(s, event).Some?
    ensures Inv(Apply(s, event).value)
  {
    match event
    case Call(force) =>
      EnsureFreshKeepsInv(s, force);
    case WakeUp(caller) =>
      EnsureFreshKeepsInv(s, true);
    case _ =>
  }

  lemma {:induction false} RunKeepsInv(s: State, events: seq<Event>)
    requires Inv(s) && RunEvents(s, events).Some?
    ensures Inv(RunEvents(s, events).value)
    decreases |events|
  {
    hide Apply, Inv;
    if events != [] {
      EventKeepsInv(s, events[0]);
      RunKeepsInv(Apply(s, events[0]).value, events[1..]);
    }
  }

  ghost predicate Reachable(s: State) {
    exists events :: RunEvents(START, events) == Some(s)
  }

  lemma ReachableInv(s: State)
    requires Reachable(s)
    ensures Inv(s)
  {
    var events :| RunEvents(START, events) == Some(s);
    RunKeepsInv(START, events);
  }

  /** At most one `doEnsureFresh` is in flight. */
  lemma OneInFlight(s: State, a: nat, b: nat)
    requires Reachable(s) && a < |s.runs| && b < |s.runs|
    requires !s.runs[a].phase.Settled? && !s.runs[b].phase.Settled?
    ensures a == b
  {
    ReachableInv(s);
  }

  /** A finishing run finds its own promise in the slot, and leaves the slot empty. */
  lemma ClearsOwnSlot(s: State, run: nat)
    requires Reachable(s) && Apply(s, Finally(run)).Some?
    ensures s.slot == Some(InFlight(run, s.runs[run].force))
    ensures Apply(s, Finally(run)).value.slot.None?
  {
    ReachableInv(s);
  }

  /** In any state at all a finishing run leaves a slot alone that is not its own. */
  lemma LeavesOthersSlot(s: State, run: nat)
    requires Apply(s, Finally(run)).Some? && s.slot.Some? && s.slot.value.promise != run
    ensures Apply(s, Finally(run)).value.slot == s.slot
  {
  }

  /** A forced caller never resolves with the result of an unforced run. */
  lemma ForcedGetsForced(s: State, caller: nat)
    requires Reachable(s) && caller < |s.callers| && s.callers[caller].Resolved? && s.callers[caller].force
    ensures IsSettled(s, s.callers[caller].promise) && s.runs[s.callers[caller].promise].force
  {
    ReachableInv(s);
  }

  /** A forced call waits behind an unforced run only; it never starts a second run beside one. */
  lemma ForcedCallWaits(s: State)
    requires Reachable(s)
    ensures var s' := Apply(s, Call(true)).value;
      match s'.callers[|s.callers|]
      case Queued(promise) =>
        promise < |s.runs| && s'.runs == s.runs && !s.runs[promise].phase.Settled? && !s.runs[promise].force
      case Attached(_, promise) =>
        promise < |s'.runs| && !s'.runs[promise].phase.Settled? && s'.runs[promise].force
      case Resolved(_, _) => false
  {
    ReachableInv(s);
  }

  /**
   * What any call does: beside an unfinished run it starts none, and shares that run, except that a
   * forced call waits for an unforced one to finish; otherwise it starts a run of its own kind.
   */
  lemma CallIs(s: State, force: bool, run: nat)
    requires Reachable(s)
    ensures var s', c := Apply(s, Call(force)).value, |s.callers|;
      && |s'.callers| == c + 1 && s'.callers[..c] == s.callers
      && (run < |s.runs| && !s.runs[run].phase.Settled? ==>
            && s'.runs == s.runs && s'.slot == s.slot
            && s'.callers[c] == if force && !s.runs[run].force then Queued(run) else Attached(force, run))
      && ((forall r :: 0 <= r < |s.runs| ==> s.runs[r].phase.Settled?) ==>
            s'.runs == s.runs + [RefreshRun(force, Running)] && s'.callers[c] == Attached(force, |s.runs|))
  {
    ReachableInv(s);
  }

  /** A caller that has waited calls again, forced; nobody else notices. */
  lemma WakeUpCallsAgain(s: State, caller: nat)
    requires Apply(s, WakeUp(caller)).Some?
    ensures var woken, called := Apply(s, WakeUp(caller)).value, Apply(s, Call(true)).value;
      && woken.slot == called.slot && woken.runs == called.runs
      && |woken.callers| == |s.callers| && woken.callers[caller] == called.callers[|s.callers|]
      && forall c :: 0 <= c < |s.callers| && c != caller ==> woken.callers[c] == s.callers[c]
  {
  }

  /** The manager itself: the one field the calls share. */
  class OAuthManager {
    var inFlightRefresh: Option<InFlight>
    ghost var runs: seq<RefreshRun>

    constructor ()
      ensures inFlightRefresh.None? && runs == []
    {
      inFlightRefresh, runs := None, [];
    }

    /** `ensureFresh`: synchronous up to the first await; `next` names the promise of a new run. */
    method Call(force: bool, next: nat) returns (caller: Caller)
      requires next == |runs|
      modifies this
      ensures (inFlightRefresh, runs, caller) == EnsureFresh(old(inFlightRefresh), old(runs), force)
    {
      var current := inFlightRefresh;
      if current.Some? {
        if !force || current.value.force {
          return Attached(force, current.value.promise);
        }
        return Queued(current.value.promise);
      }
      runs := runs + [RefreshRun(force, Running)];
      inFlightRefresh := Some(InFlight(next, force));
      caller := Attached(force, next);
    }

    /** The `finally` handler of a run: clear the slot only if it is still this run's. */
    method Cleanup(run: nat)
      requires run < |runs| && runs[run].phase.Finishing?
      modifies this
      ensures forall callers :: Apply(State(old(inFlightRefresh), old(runs), callers), Finally(run))
                             == Some(State(inFlightRefresh, runs, callers))
    {
      if inFlightRefresh.Some? && inFlightRefresh.value.promise == run {
        inFlightRefresh := None;
      }
      runs := runs[run := runs[run].(phase := Settled)];
    }
  }
}
