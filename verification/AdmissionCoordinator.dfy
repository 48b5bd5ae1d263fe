/**
 The admission coordinator's `Start`: it drives the fence's two critical
 sections around the authority callback and classifies every failure.

 `atObserve`, `atCommit` and `atGet` are the journals this call finds when it
 takes the lock.  They come from one run of the fence protocol in which this
 call's own steps are surrounded by any steps of others.
 */
module AdmissionCoordinator {
  import opened Wrappers
  import opened DurableDirectory
  import opened RuntimeFence
  import F = FenceProtocol

  datatype Ticket = Ticket(spec: Spec, admission: Digest, consistent: bool)

  /** What this call meets: whether the store is open at each lock, the journals
      it finds, whether every other recheck of the callback passes, the clock
      reading after it and how the write goes. */
  datatype Environment = Environment(
    atObserve: Journal, observeOpen: bool, rechecksPass: bool, at: Time,
    atCommit: Journal, commitOpen: bool, fault: Fault,
    atGet: Journal, getOpen: bool)

  /** How `fence.Start` ends: its result, the journal it leaves and whether the
      callback failed. */
  datatype FenceStart = FenceStart(result: Result<StartResult, Error>, journal: Journal, callbackFailed: bool)

  datatype StartError = StartError(possibleStart: bool)

  datatype Decision = Decision(view: View, invoke: bool)

  function CallFence(e: Environment, owner: Owner, ticket: Ticket): (r: FenceStart)
    requires e.atCommit.Valid()
    ensures r.journal.Valid()
  {
    var observed :=
      if e.observeOpen then StartObserveSection(e.atObserve, owner, ticket.spec.run, ticket.admission)
        else Err(Changed);
    if observed.Err? then FenceStart(Err(observed.error), e.atCommit, false)
    else if observed.value.state != Claimed then FenceStart(Ok(StartResult(observed.value, false)), e.atCommit, false)
    else if observed.value.spec != ticket.spec || !e.rechecksPass then FenceStart(Err(Changed), e.atCommit, true)
    else if !e.commitOpen then FenceStart(Err(Changed), e.atCommit, false)
    else
      var (j, r) := StartCommitSection(e.atCommit, owner, observed.value, ticket.admission, e.at, e.fault);
      FenceStart(r, j, false)
  }

  function Start(e: Environment, owner: Owner, ticket: Ticket): (r: Result<Decision, StartError>)
    requires e.atCommit.Valid()
  {
    if !ticket.consistent || !ValidSpec(ticket.spec) then Err(StartError(false))
    else
      var call := CallFence(e, owner, ticket);
      if call.result.Err? then
        if call.callbackFailed then Err(StartError(false))
        else
          var observed := if e.getOpen then Get(e.atGet, owner, ticket.spec.run) else Err(Changed);
          if observed.Ok? && observed.value.spec == ticket.spec && observed.value.admission == ticket.admission
          then Err(StartError(observed.value.state != Claimed))
          else Err(StartError(true))
      else
        var view := call.result.value.view;
        if view.spec != ticket.spec || view.admission != ticket.admission then Err(StartError(false))
        else if call.result.value.invoke && (view.state != Starting || view.start.None?) then Err(StartError(false))
        else Ok(Decision(view, call.result.value.invoke))
  }

  /** The call left a start record. */
  ghost predicate LeftStart(e: Environment, owner: Owner, ticket: Ticket)
    requires e.atCommit.Valid()
  {
    ticket.consistent && ValidSpec(ticket.spec) && CallFence(e, owner, ticket).journal.entries != e.atCommit.entries
  }

  ghost predicate Plausible(e: Environment, owner: Owner, ticket: Ticket) {
    && F.JournalInv(e.atObserve, owner) && F.JournalInv(e.atCommit, owner) && F.JournalInv(e.atGet, owner)
    && F.Grows(e.atObserve, e.atCommit) && F.Grows(CallFence(e, owner, ticket).journal, e.atGet)
  }

  /** What the journals found have to be like; `RunIsPlausible` says they are. */
  lemma LeftIsReported(e: Environment, owner: Owner, ticket: Ticket)
    requires Plausible(e, owner, ticket) && LeftStart(e, owner, ticket)
    ensures var (r, j) := (Start(e, owner, ticket), CallFence(e, owner, ticket).journal);
            && Name(ticket.spec.run, Starting) in j.entries && Name(ticket.spec.run, Starting) !in e.atCommit.entries
            && (r.Err? ==> r.error.possibleStart)
            && (r.Ok? ==> r.value.invoke && r.value.view.spec == ticket.spec && r.value.view.state == Starting
                          && Name(ticket.spec.run, Starting) in j.durable)
  {
    var observed := StartObserveSection(e.atObserve, owner, ticket.spec.run, ticket.admission).value;
    F.CommitAddsStart(e.atCommit, owner, observed, ticket.admission, e.at, e.fault);
    var call := CallFence(e, owner, ticket);
    assert Name(ticket.spec.run, Starting) in e.atGet.entries;
    if call.result.Ok? {
      F.InvokingCommit(e.atCommit, owner, observed, ticket.admission, e.at, e.fault);
    }
  }

  // ----------------------------------------------------- one call within a run

  /** A run around one call: what happened before it, during its callback and
      between its end and the look after a failure. */
  datatype Timeline = Timeline(
    before: seq<F.Step>, during: seq<F.Step>, rechecksPass: bool, at: Time, fault: Fault, after: seq<F.Step>)

  /** This process lives through the call, and nobody else acts for it. */
  predicate Around(steps: seq<F.Step>, call: nat) {
    forall k :: 0 <= k < |steps| ==>
      && !steps[k].MachineCrash? && !steps[k].ProcessCrash?
      && (steps[k].Authorize? ==> steps[k].call != call) && (steps[k].Commit? ==> steps[k].call != call)
  }

  ghost function AtObserve(owner: Owner, line: Timeline): (s: F.State)
    ensures s.journal.Valid() && s.owner == owner
  {
    F.Run(F.Init(owner), line.before)
  }

  /** After the first section and the callback; `true` when it was asked. */
  ghost function Asked(owner: Owner, ticket: Ticket, line: Timeline): (r: (F.State, bool))
    ensures r.0.journal.Valid() && r.0.owner == owner
  {
    var s := AtObserve(owner, line);
    var asked := F.Apply(s, F.Observe(ticket.spec.run, ticket.admission));
    (F.Run(asked, line.during), asked != s)
  }

  /** After the second section, if the callback agreed. */
  ghost function Committed(owner: Owner, ticket: Ticket, line: Timeline): (s: F.State)
    ensures s.journal.Valid() && s.owner == owner
  {
    var (call, (s, asked)) := (AtObserve(owner, line).nextCall, Asked(owner, ticket, line));
    if !asked then s
    else
      var agreed := line.rechecksPass && call in s.calls && s.calls[call].observed.spec == ticket.spec;
      F.Apply(F.Apply(s, F.Authorize(call, agreed, line.at)), F.Commit(call, line.fault))
  }

  /** What the call meets in this run. */
  ghost function Met(owner: Owner, ticket: Ticket, line: Timeline): (e: Environment)
    ensures e.atCommit.Valid()
  {
    var (s, t) := (AtObserve(owner, line), Asked(owner, ticket, line).0);
    var u := F.Run(Committed(owner, ticket, line), line.after);
    Environment(s.journal, s.open, line.rechecksPass, line.at, t.journal, t.open && t.store == s.store, line.fault,
                u.journal, u.open && u.store == s.store)
  }

  ghost predicate Possible(owner: Owner, ticket: Ticket, line: Timeline) {
    && ticket.consistent && ValidSpec(ticket.spec)
    && Around(line.during, AtObserve(owner, line).nextCall) && Around(line.after, AtObserve(owner, line).nextCall)
  }

  /** The call that was asked waits unchanged through what others do. */
  lemma {:induction false} CallStays(s: F.State, call: nat, steps: seq<F.Step>)
    requires s.journal.Valid() && call in s.calls && call < s.nextCall && Around(steps, call)
    ensures var t := F.Run(s, steps); call in t.calls && t.calls[call] == s.calls[call] && call < t.nextCall
    decreases |steps|
  {
    if steps != [] {
      var before := steps[..|steps| - 1];
      CallStays(s, call, before);
      StepKeepsCall(F.Run(s, before), call, steps[|steps| - 1]);
    }
  }

  lemma StepKeepsCall(s: F.State, call: nat, step: F.Step)
    requires s.journal.Valid() && call in s.calls && call < s.nextCall && Around([step], call)
    ensures var t := F.Apply(s, step); call in t.calls && t.calls[call] == s.calls[call] && call < t.nextCall
  {
    assert [step][0] == step;
    hide ClaimSection, StartObserveSection, StartCommitSection, StopSection, F.RecoverRunSection;
  }

  /** The protocol's two sections are the call of the fence. */
  lemma CommittedIsCall(owner: Owner, ticket: Ticket, line: Timeline)
    requires Possible(owner, ticket, line)
    ensures Committed(owner, ticket, line).journal == CallFence(Met(owner, ticket, line), owner, ticket).journal
  {
    var s := AtObserve(owner, line);
    var call := s.nextCall;
    var observe := F.Observe(ticket.spec.run, ticket.admission);
    var asked := F.Apply(s, observe);
    if asked != s {
      CallStays(asked, call, line.during);
    }
    hide F.Run, StartObserveSection, StartCommitSection;
  }

  /** The journals a call meets in a run are plausible. */
  lemma RunIsPlausible(owner: Owner, ticket: Ticket, line: Timeline)
    requires Possible(owner, ticket, line)
    ensures Plausible(Met(owner, ticket, line), owner, ticket)
  {
    var s := AtObserve(owner, line);
    F.RunKeeps(owner, line.before);
    var asked := F.Apply(s, F.Observe(ticket.spec.run, ticket.admission));
    F.RunKeepsJournal(asked, line.during);
    F.RunGrows(asked, line.during);
    var t := Asked(owner, ticket, line).0;
    CommittedKeeps(owner, ticket, line);
    var u := Committed(owner, ticket, line);
    F.RunKeepsJournal(u, line.after);
    F.RunGrows(u, line.after);
    CommittedIsCall(owner, ticket, line);
    hide F.Run, CallFence, F.JournalInv, Committed;
  }

  lemma CommittedKeeps(owner: Owner, ticket: Ticket, line: Timeline)
    requires F.JournalInv(Asked(owner, ticket, line).0.journal, owner)
    ensures F.JournalInv(Committed(owner, ticket, line).journal, owner)
  {
    var (call, (s, asked)) := (AtObserve(owner, line).nextCall, Asked(owner, ticket, line));
    if asked {
      var agreed := line.rechecksPass && call in s.calls && s.calls[call].observed.spec == ticket.spec;
      F.StepKeepsJournal(s, F.Authorize(call, agreed, line.at));
      F.StepKeepsJournal(F.Apply(s, F.Authorize(call, agreed, line.at)), F.Commit(call, line.fault));
    }
  }

  // -------------------------------------------------------------- main results

  /** The call left a start record in the journal of the run. */
  ghost predicate Left(owner: Owner, ticket: Ticket, line: Timeline) {
    Committed(owner, ticket, line).journal.entries != Asked(owner, ticket, line).0.journal.entries
  }

  /** Error classification is conservative, in every run: an error that does not
      report a possible start comes from a call that left no start record,
      whatever failed, including a link that succeeded before a failed sync. */
  lemma ErrorsAreConservative(owner: Owner, ticket: Ticket, line: Timeline)
    requires Possible(owner, ticket, line)
    requires Start(Met(owner, ticket, line), owner, ticket) == Err(StartError(false))
    ensures !Left(owner, ticket, line)
  {
    RunIsPlausible(owner, ticket, line);
    CommittedIsCall(owner, ticket, line);
    if Left(owner, ticket, line) {
      LeftIsReported(Met(owner, ticket, line), owner, ticket);
    }
  }

  /** A call that left a start record either returns the invocation, with the
      record durable and the view it was made for, or reports a possible start. */
  lemma StartIsReported(owner: Owner, ticket: Ticket, line: Timeline)
    requires Possible(owner, ticket, line) && Left(owner, ticket, line)
    ensures var (r, j) := (Start(Met(owner, ticket, line), owner, ticket), Committed(owner, ticket, line).journal);
            && Name(ticket.spec.run, Starting) in j.entries
            && (r.Err? ==> r.error.possibleStart)
            && (r.Ok? ==> r.value.invoke && r.value.view.spec == ticket.spec && r.value.view.state == Starting
                          && Name(ticket.spec.run, Starting) in j.durable)
  {
    RunIsPlausible(owner, ticket, line);
    CommittedIsCall(owner, ticket, line);
    LeftIsReported(Met(owner, ticket, line), owner, ticket);
  }

  /** An invocation is returned only to the call that left the start record, and
      only when its own rechecks passed inside the admission window. */
  lemma InvokeMeansLeft(owner: Owner, ticket: Ticket, line: Timeline)
    requires Possible(owner, ticket, line)
    requires Start(Met(owner, ticket, line), owner, ticket).Ok?
    requires Start(Met(owner, ticket, line), owner, ticket).value.invoke
    ensures Left(owner, ticket, line) && line.rechecksPass && Current(ticket.spec, line.at)
  {
    RunIsPlausible(owner, ticket, line);
    CommittedIsCall(owner, ticket, line);
    InvokedLeft(Met(owner, ticket, line), owner, ticket);
  }

  lemma InvokedLeft(e: Environment, owner: Owner, ticket: Ticket)
    requires Plausible(e, owner, ticket)
    requires Start(e, owner, ticket).Ok? && Start(e, owner, ticket).value.invoke
    ensures LeftStart(e, owner, ticket) && e.rechecksPass && Current(ticket.spec, e.at)
  {
    var observed := StartObserveSection(e.atObserve, owner, ticket.spec.run, ticket.admission).value;
    F.InvokingCommit(e.atCommit, owner, observed, ticket.admission, e.at, e.fault);
  }
}
