/**
 The governed runner: it forwards an adapter's events, captures and verifies a
 completed run, stops the fence and only then reveals the terminal event.

 The adapter is arbitrary: `script` is whatever sequence of events it emits,
 also after its callback failed or after a terminal event.
 */
module RuntimeRunner {
  import opened Wrappers
  import opened DurableDirectory
  import Fence = RuntimeFence
  import F = FenceProtocol

  datatype Status = Queued | Running | Completed | Failed | Canceled | InputRequired | OutcomeUnknown

  /** An event carries an optional status; `payload` is everything else. */
  datatype Event = Event(status: Option<Status>, payload: int, captureError: bool)

  /** What the outside sees of one run, in order; a stop with its answer. */
  datatype Action =
    | Emit(event: Event)
    | Capture
    | Verify(checkpoint: int)
    | Stop(outcome: Fence.Outcome, answer: Result<Fence.View, Fence.Error>)

  /** What the coordinator prepared, and its decision to start. */
  datatype Ticket = Ticket(spec: Fence.Spec, admission: Fence.Digest, workspace: nat)
  datatype Decision = Decision(view: Fence.View, invoke: bool, workspace: Option<nat>)

  /** The fence as the stop finds it: its journal, whether its store was closed,
      the clock and how the write goes. */
  datatype FenceSide = FenceSide(owner: Fence.Owner, found: Fence.Journal, closed: bool, now: Fence.Time, fault: Fault)

  /** What the run meets: whether each check after validation passes, what the
      adapter emits, which calls of the caller's `emit` fail, whether `Execute`
      itself fails, the capture result, whether a verifier is configured, and
      the fence. */
  datatype Environment = Environment(
    ticket: Ticket, decision: Decision,
    checksPass: bool, script: seq<Event>, emitFails: seq<bool>, executeFails: bool,
    checkpoint: Option<int>, verifier: bool, fence: FenceSide)

  // ---------------------------------------------------------------- stopping

  /** The decision is an invocation of exactly this ticket. */
  predicate Exact(t: Ticket, d: Decision) {
    && d.invoke && d.workspace == Some(t.workspace)
    && d.view.spec == t.spec && d.view.admission == t.admission
    && d.view.state == Fence.Starting && d.view.start.Some?
  }

  /** `GovernedAdmissionCoordinator.Stop`. */
  function CoordinatorStop(t: Ticket, d: Decision, f: FenceSide, outcome: Fence.Outcome)
    : (r: (Fence.Journal, Result<Fence.View, Fence.Error>))
    requires f.found.Valid()
    ensures r.0.Valid()
  {
    if !Exact(t, d) || !Fence.ValidOutcome(outcome) || f.now == Fence.ZERO_TIME then (f.found, Err(Fence.Invalid))
    else if f.closed then (f.found, Err(Fence.Changed))
    else
      var (j, r) := Fence.StopSection(f.found, f.owner, t.spec.run, t.admission, d.view.start.value, outcome, f.now,
          f.fault);
      if r.Err? then (j, r)
      else if r.value.spec != t.spec || r.value.admission != t.admission || r.value.state != Fence.Stopped
              || r.value.start != d.view.start || r.value.outcome != Some(outcome)
      then (j, Err(Fence.Changed))
      else (j, r)
  }

  /** The journal holds the stop of this decision with this outcome. */
  predicate Recorded(j: Fence.Journal, t: Ticket, d: Decision, outcome: Fence.Outcome) {
    && Fence.Name(t.spec.run, Fence.Stopped) in j.entries
    && var stop := j.entries[Fence.Name(t.spec.run, Fence.Stopped)];
       && stop.StopRecord? && stop.run == t.spec.run && stop.admission == t.admission
       && d.view.start == Some(stop.start) && stop.outcome == outcome
  }

  /** The stop was already written, and its sync failed. */
  predicate LeftUnsynced(f: FenceSide, run: Fence.Id) {
    Fence.Name(run, Fence.Stopped) in f.found.entries && Fence.Name(run, Fence.Stopped) !in f.found.durable
  }

  /** A stop that succeeds leaves exactly this stop in the journal; it is durable
      unless an earlier stop of the run was left unsynced, which this one accepts
      as it is.  A stop that fails adds at most this one record. */
  lemma StopIsRecorded(t: Ticket, d: Decision, f: FenceSide, outcome: Fence.Outcome)
    requires f.found.Valid()
    ensures var (j, r) := CoordinatorStop(t, d, f, outcome);
            var stop := Fence.Name(t.spec.run, Fence.Stopped);
            && (r.Ok? ==> Recorded(j, t, d, outcome) && (stop in j.durable <==> !LeftUnsynced(f, t.spec.run)))
            && (forall n :: n in f.found.entries ==> n in j.entries && j.entries[n] == f.found.entries[n])
            && (forall n :: n in j.entries && n !in f.found.entries ==> n == stop && Recorded(j, t, d, outcome))
  {
  }

  /** `runtimeOutcomeForStatus`. */
  function OutcomeOf(status: Status): (r: Option<Fence.Outcome>) {
    match status
    case Completed => Some(Fence.Completed)
    case Failed => Some(Fence.Failed)
    case Canceled => Some(Fence.Canceled)
    case InputRequired => Some(Fence.InputRequired)
    case OutcomeUnknown => Some(Fence.OutcomeUnknown)
    case _ => None
  }

  predicate IsTerminal(e: Event) {
    e.status.Some? && OutcomeOf(e.status.value).Some?
  }

  /** `captureOutcomeUnknownEvent`. */
  function CaptureUnknown(e: Event): (r: Event)
    ensures IsTerminal(r)
  {
    e.(status := Some(OutcomeUnknown), captureError := true)
  }

  /** The index of the first terminal event, or the length. */
  function FirstTerminal(script: seq<Event>): (k: nat)
    ensures k <= |script|
    ensures forall i :: 0 <= i < k ==> !IsTerminal(script[i])
    ensures k < |script| ==> IsTerminal(script[k])
  {
    if script == [] || IsTerminal(script[0]) then 0 else 1 + FirstTerminal(script[1..])
  }

  function Emits(events: seq<Event>): (actions: seq<Action>)
    ensures |actions| == |events|
    ensures forall i :: 0 <= i < |events| ==> actions[i] == Emit(events[i])
  {
    seq(|events|, i requires 0 <= i < |events| => Emit(events[i]))
  }

  /** The execution failed: the adapter said so, the caller refused an event, an
      event followed the terminal one, or there was none. */
  predicate ExecutionFailed(e: Environment)
    requires |e.emitFails| == |e.script|
  {
    var k := FirstTerminal(e.script);
    e.executeFails || (exists i :: 0 <= i < k && e.emitFails[i]) || k != |e.script| - 1
  }

  function Outcome(e: Environment): (outcome: Fence.Outcome) {
    var k := FirstTerminal(e.script);
    if k < |e.script| then OutcomeOf(e.script[k].status.value).value else Fence.OutcomeUnknown
  }

  predicate Clean(e: Environment)
    requires |e.emitFails| == |e.script|
  {
    !ExecutionFailed(e) && Outcome(e) == Fence.Completed
  }

  /** The environment is one a run can meet. */
  ghost predicate Possible(e: Environment) {
    |e.emitFails| == |e.script| && e.fence.found.Valid()
  }

  /** The stop of this run: the journal it leaves and its answer. */
  function TheStop(e: Environment): (r: (Fence.Journal, Result<Fence.View, Fence.Error>))
    requires Possible(e)
    ensures r.0.Valid()
  {
    CoordinatorStop(e.ticket, e.decision, e.fence, if e.checksPass then Outcome(e) else Fence.OutcomeUnknown)
  }

  /** The terminal event in the end: the adapter's own, or the mark of a failed
      capture. */
  function FinalEvent(e: Environment): (event: Event)
    requires |e.emitFails| == |e.script| && FirstTerminal(e.script) < |e.script|
    ensures IsTerminal(event)
  {
    var own := e.script[FirstTerminal(e.script)];
    if Clean(e) && e.checkpoint.None? then CaptureUnknown(own) else own
  }

  /** Events: nonterminal ones are the adapter's, in order, before its first
      terminal one; a terminal one is the final event, last, directly after a
      successful stop. */
  ghost predicate LawfulEvents(e: Environment, actions: seq<Action>)
    requires Possible(e)
  {
    forall i :: 0 <= i < |actions| && actions[i].Emit? ==> LawfulEvent(e, actions, i)
  }

  ghost predicate LawfulEvent(e: Environment, actions: seq<Action>, i: nat)
    requires Possible(e) && i < |actions| && actions[i].Emit?
  {
    if !IsTerminal(actions[i].event) then i < FirstTerminal(e.script) && actions[i].event == e.script[i]
    else
      && e.checksPass && i == |actions| - 1 && i > 0 && FirstTerminal(e.script) < |e.script|
      && actions[i].event == FinalEvent(e)
      && actions[i - 1] == Stop(Outcome(e), TheStop(e).1) && TheStop(e).1.Ok?
  }

  /** At most one stop, and nothing but an event after it. */
  ghost predicate LawfulStops(actions: seq<Action>) {
    forall i, k :: 0 <= i < k < |actions| && actions[i].Stop? ==> actions[k].Emit?
  }

  /** Capture only after a clean completed outcome, verification only of its
      checkpoint. */
  ghost predicate LawfulCaptures(e: Environment, actions: seq<Action>)
    requires Possible(e)
  {
    && (forall i :: 0 <= i < |actions| && actions[i].Capture? ==>
          e.checksPass && Clean(e) && i == FirstTerminal(e.script))
    && (forall i :: 0 <= i < |actions| && actions[i].Verify? ==>
          i > 0 && actions[i - 1] == Capture && e.checkpoint == Some(actions[i].checkpoint))
  }

  /** What a trace of a run may be, said about the trace alone. */
  ghost predicate Lawful(e: Environment, actions: seq<Action>)
    requires Possible(e)
  {
    LawfulEvents(e, actions) && LawfulStops(actions) && LawfulCaptures(e, actions)
  }

  /** The trace of a run whose decision is exact. */
  function Trace(e: Environment): (actions: seq<Action>)
    requires Possible(e)
  {
    if !e.checksPass then [Stop(Fence.OutcomeUnknown, TheStop(e).1)]
    else
      Emits(e.script[..FirstTerminal(e.script)]) + Captures(e) + [Stop(Outcome(e), TheStop(e).1)]
      + (if ExecutionFailed(e) || TheStop(e).1.Err? then [] else [Emit(FinalEvent(e))])
  }

  function Captures(e: Environment): (actions: seq<Action>)
    requires |e.emitFails| == |e.script|
  {
    if !Clean(e) then []
    else if e.checkpoint.Some? && e.verifier then [Capture, Verify(e.checkpoint.value)]
    else [Capture]
  }

  lemma TraceEvents(e: Environment)
    requires Possible(e)
    ensures LawfulEvents(e, Trace(e))
  {
    hide TheStop;
  }

  lemma TraceStops(e: Environment)
    requires Possible(e)
    ensures LawfulStops(Trace(e))
    ensures exists i :: 0 <= i < |Trace(e)| && Trace(e)[i].Stop? && Trace(e)[i].answer == TheStop(e).1
  {
    hide TheStop;
    if e.checksPass {
      var at := FirstTerminal(e.script) + |Captures(e)|;
      assert Trace(e)[at] == Stop(Outcome(e), TheStop(e).1);
    } else {
      assert Trace(e)[0].Stop?;
    }
  }

  lemma TraceCaptures(e: Environment)
    requires Possible(e)
    ensures LawfulCaptures(e, Trace(e))
  {
    hide TheStop;
  }

  lemma TraceIsLawful(e: Environment)
    requires Possible(e)
    ensures Lawful(e, Trace(e))
    ensures exists i :: 0 <= i < |Trace(e)| && Trace(e)[i].Stop? && Trace(e)[i].answer == TheStop(e).1
  {
    TraceEvents(e);
    TraceStops(e);
    TraceCaptures(e);
    hide LawfulEvents, LawfulStops, LawfulCaptures, Trace, TheStop;
  }

  /** `GovernedRuntimeRunner.Run`.  The journal is written by the stop alone. */
  method Run(e: Environment) returns (actions: seq<Action>, journal: Fence.Journal, failed: bool)
    requires Possible(e)
    ensures Lawful(e, actions)
    ensures !Exact(e.ticket, e.decision) ==> actions == [] && journal == e.fence.found && failed
    ensures Exact(e.ticket, e.decision) ==>
              && journal == TheStop(e).0
              && exists i :: 0 <= i < |actions| && actions[i].Stop? && actions[i].answer == TheStop(e).1
    ensures failed <==> !Exact(e.ticket, e.decision) || !e.checksPass || ExecutionFailed(e) || TheStop(e).1.Err?
    ensures !failed <==> actions != [] && actions[|actions| - 1].Emit?
  {
    hide CoordinatorStop, Lawful, Exact;
    actions, journal := [], e.fence.found;
    NothingIsLawful(e);
    if !Exact(e.ticket, e.decision) {
      return [], journal, true;
    }
    TraceIsLawful(e);
    if !e.checksPass {
      var stop := CoordinatorStop(e.ticket, e.decision, e.fence, Fence.OutcomeUnknown);
      return [Stop(Fence.OutcomeUnknown, stop.1)], stop.0, true;
    }
    var outcome, terminal, executeErr;
    actions, outcome, terminal, executeErr := Execute(e);
    if !executeErr && outcome == Fence.Completed {
      actions := actions + [Capture];
      if e.checkpoint.None? {
        terminal := Some(CaptureUnknown(terminal.value));
      } else if e.verifier {
        actions := actions + [Verify(e.checkpoint.value)];
      }
    }
    assert actions == Emits(e.script[..FirstTerminal(e.script)]) + Captures(e);
    var stop := CoordinatorStop(e.ticket, e.decision, e.fence, outcome);
    journal := stop.0;
    actions := actions + [Stop(outcome, stop.1)];
    failed := executeErr || stop.1.Err?;
    if !failed {
      actions := actions + [Emit(terminal.value)];
    }
    assert actions == Trace(e);
  }

  lemma NothingIsLawful(e: Environment)
    requires Possible(e)
    ensures Lawful(e, [])
  {
  }

  /** The adapter's execution with the runner's callback. */
  method Execute(e: Environment)
    returns (actions: seq<Action>, outcome: Fence.Outcome, terminal: Option<Event>, failed: bool)
    requires |e.emitFails| == |e.script|
    ensures actions == Emits(e.script[..FirstTerminal(e.script)])
    ensures outcome == Outcome(e)
    ensures terminal.Some? <==> FirstTerminal(e.script) < |e.script|
    ensures terminal.Some? ==> terminal.value == e.script[FirstTerminal(e.script)]
    ensures failed <==> ExecutionFailed(e)
  {
    actions, outcome, terminal := [], Fence.OutcomeUnknown, None;
    var emittedErr := false;
    ghost var k := FirstTerminal(e.script);
    for i := 0 to |e.script|
      invariant terminal.Some? <==> k < i
      invariant terminal.Some? ==> terminal.value == e.script[k] && outcome == Outcome(e)
      invariant terminal.None? ==> outcome == Fence.OutcomeUnknown
      invariant actions == Emits(e.script[..if i <= k then i else k])
      invariant emittedErr <==> (exists n :: 0 <= n < i && n < k && e.emitFails[n]) || k + 1 < i
    {
      if terminal.Some? {
        emittedErr := true;
      } else if IsTerminal(e.script[i]) {
        FirstTerminalAt(e.script, i);
        outcome := OutcomeOf(e.script[i].status.value).value;
        terminal := Some(e.script[i]);
      } else {
        actions := actions + [Emit(e.script[i])];
        if e.emitFails[i] {
          emittedErr := true;
        }
      }
    }
    failed := e.executeFails || emittedErr || terminal.None?;
  }

  lemma FirstTerminalAt(script: seq<Event>, i: nat)
    requires i < |script| && IsTerminal(script[i]) && FirstTerminal(script) >= i
    ensures FirstTerminal(script) == i
  {
  }

  /** Whatever the adapter emits: when the caller sees a terminal event, it comes
      last and the fence holds the stop of exactly this decision with the outcome
      of the adapter's first terminal event, durably unless an earlier stop of the
      run was left unsynced. */
  lemma TerminalEventIsBacked(e: Environment, actions: seq<Action>, i: nat)
    requires Possible(e) && Lawful(e, actions)
    requires i < |actions| && actions[i].Emit? && IsTerminal(actions[i].event)
    ensures i == |actions| - 1
    ensures FirstTerminal(e.script) < |e.script|
    ensures var outcome := OutcomeOf(e.script[FirstTerminal(e.script)].status.value).value;
            && Recorded(TheStop(e).0, e.ticket, e.decision, outcome)
            && (Fence.Name(e.ticket.spec.run, Fence.Stopped) in TheStop(e).0.durable <==>
                  !LeftUnsynced(e.fence, e.ticket.spec.run))
  {
    assert LawfulEvent(e, actions, i);
    StopIsRecorded(e.ticket, e.decision, e.fence, Outcome(e));
  }

  /** And the exception is real (`UnsyncedRecovery` is how it comes up): over a stop that was left unsynced the event is
      revealed although the record is not durable. */
  lemma UnsyncedStopIsAccepted(t: Ticket, d: Decision, f: FenceSide, outcome: Fence.Outcome)
    requires f.found.Valid() && Exact(t, d) && Fence.ValidOutcome(outcome) && f.now != Fence.ZERO_TIME && !f.closed
    requires Fence.Get(f.found, f.owner, t.spec.run).Ok?
    requires var view := Fence.Get(f.found, f.owner, t.spec.run).value;
             && view.spec == t.spec && view.admission == t.admission
             && view.start == d.view.start && view.outcome == Some(outcome)
    requires LeftUnsynced(f, t.spec.run)
    ensures var (j, r) := CoordinatorStop(t, d, f, outcome);
            r.Ok? && j == f.found && Fence.Name(t.spec.run, Fence.Stopped) !in j.durable
  {
  }

  /** A recovery whose sync fails leaves such a journal. */
  lemma UnsyncedRecovery(s: F.State, run: Fence.Id, now: Fence.Time, later: Fence.Time)
    requires s.open && s.journal.Valid() && now != Fence.ZERO_TIME && Fence.Get(s.journal, s.owner, run).Ok?
    requires var view := Fence.Get(s.journal, s.owner, run).value;
             view.state == Fence.Starting && view.authorityCheckedAt.value <= now
    ensures var t := F.Apply(s, F.RecoverRun(run, now, FailsAfterLink));
            var (view, left) := (Fence.Get(s.journal, s.owner, run).value, Fence.Get(t.journal, s.owner, run));
            && t.journal.Valid() && LeftUnsynced(FenceSide(s.owner, t.journal, false, later, NoFault), run)
            && left.Ok? && left.value.spec == view.spec && left.value.admission == view.admission
            && left.value.start == view.start && left.value.outcome == Some(Fence.OutcomeUnknown)
  {
  }
}
