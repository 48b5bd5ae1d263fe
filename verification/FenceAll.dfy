/**
 `FenceAll`: one worker lists the open processes under the mutex and then fences
 them one after the other, while every other step of the process journal goes on
 around it.
 */
module FenceAll {
  import opened Wrappers
  import opened ProcessStore
  import P = ProcessProtocol

  /** The worker still has to fence `todo`; `waiting` is the operation of its
      head while it waits for the lock.  It returns nil or an error. */
  datatype Worker = Idle | Looping(todo: seq<Identity>, waiting: Option<nat>) | Returned(ok: bool)

  datatype State = State(process: P.State, worker: Worker)

  datatype Step =
    | Other(step: P.Step)
    | List(order: seq<Identity>)
    | FenceNext
    | Wait
    | Confirm(now: Time, closing: CloseFault)
    | GiveUp

  predicate Open(d: Disk, owner: Owner, identity: Identity) {
    var view := Get(d.journal, owner, identity.run);
    view.Ok? && view.value.identity == identity && view.value.terminal.None?
  }

  /** The operation the worker is in is its own; the list has some order. */
  ghost predicate Enabled(s: State, step: Step) {
    match step
    case Other(p) =>
      && (p.SeeFree? ==> !OwnOperation(s.worker, p.operation))
      && (p.Confirm? ==> !OwnOperation(s.worker, p.operation))
    case List(order) => forall i :: i in order <==> Open(s.process.disk, s.process.owner, i)
    case _ => true
  }

  predicate OwnOperation(worker: Worker, operation: nat) {
    worker.Looping? && worker.waiting == Some(operation)
  }

  predicate Dies(step: P.Step) {
    step.Restart? || step.MachineCrash?
  }

  ghost function Apply(s: State, step: Step): (t: State)
    requires s.process.disk.journal.Valid()
    ensures t.process.disk.journal.Valid()
  {
    if !Enabled(s, step) then s
    else
      match step
      case Other(p) => State(P.Apply(s.process, p), if Dies(p) then Idle else s.worker)
      case List(order) =>
        s.(worker := if Listed(s.process.disk, s.process.owner) then Looping(order, None) else Returned(false))
      case FenceNext => ApplyFenceNext(s)
      case Wait =>
        if s.worker.Looping? && s.worker.waiting.Some?
        then s.(process := P.Apply(s.process, P.SeeFree(s.worker.waiting.value))) else s
      case Confirm(now, closing) => ApplyConfirm(s, now, closing)
      case GiveUp => if s.worker.Looping? then s.(worker := Returned(false)) else s
  }

  /** `FenceAndWait` of the next process up to its wait, or the end. */
  function ApplyFenceNext(s: State): (t: State)
    requires s.process.disk.journal.Valid()
    ensures t.process.disk.journal.Valid()
  {
    if !s.worker.Looping? || s.worker.waiting.Some? then s
    else if s.worker.todo == [] then s.(worker := Returned(true))
    else
      var identity := s.worker.todo[0];
      match FenceSection(s.process.disk, s.process.owner, identity)
      case Over(r) => s.(worker := if r.Ok? then Looping(s.worker.todo[1..], None) else Returned(false))
      case Wait(_) =>
        State(P.Apply(s.process, P.BeginFence(identity)), Looping(s.worker.todo, Some(s.process.nextOperation)))
  }

  /** `FenceAndWait` after its wait succeeded. */
  function ApplyConfirm(s: State, now: Time, closing: CloseFault): (t: State)
    requires s.process.disk.journal.Valid()
    ensures t.process.disk.journal.Valid()
  {
    if !s.worker.Looping? || s.worker.waiting.None? || s.worker.todo == [] then s
    else
      var n := s.worker.waiting.value;
      if n !in s.process.operations || !s.process.operations[n].free then s
      else
        var o := s.process.operations[n];
        var r := ConfirmSection(s.process.disk, s.process.owner, o.identity, o.lease, o.observed, now, closing).1;
        State(P.Apply(s.process, P.Confirm(n, now, closing)),
              if r.Ok? then Looping(s.worker.todo[1..], None) else Returned(false))
  }

  ghost function Run(s: State, steps: seq<Step>): (t: State)
    requires s.process.disk.journal.Valid()
    ensures t.process.disk.journal.Valid()
    decreases |steps|
  {
    if steps == [] then s else Apply(Run(s, steps[..|steps| - 1]), steps[|steps| - 1])
  }

  // ------------------------------------------------------------------- waiting

  /** What one wait meets: the lock file's presence when it is opened, and
      attempts that find the lock free only while nobody holds it. */
  ghost predicate Meets(s: P.State, o: P.Operation, file: OpenResult, first: Attempt, ticks: seq<Attempt>) {
    && (file == Missing ==> o.identity.run !in s.disk.locks)
    && (first == Available || (exists i :: 0 <= i < |ticks| && ticks[i] == Available) ==>
          P.Live(s, o.identity.run) == {})
  }

  /** The wait of the source succeeds only where the protocol's wait step does;
      it kills exactly when a child was recorded. */
  lemma WaitIsSeeFree(s: P.State, operation: nat, killed: bool, file: OpenResult, first: Attempt, ticks: seq<Attempt>)
    requires s.disk.journal.Valid() && operation in s.operations
    requires Meets(s, s.operations[operation], file, first, ticks)
    requires WaitSucceeds(file, s.operations[operation].observed.Some?, killed, first, ticks)
    ensures operation in P.Apply(s, P.SeeFree(operation)).operations
    ensures P.Apply(s, P.SeeFree(operation)).operations[operation].free
  {
    assert P.MaySeeFree(s, s.operations[operation]);
  }

  // --------------------------------------------------------------- invariant

  ghost predicate Pending(todo: seq<Identity>, run: Id) {
    exists i :: 0 <= i < |todo| && todo[i].run == run
  }

  /** Every prepared run is closed or still to be fenced. */
  ghost predicate Covered(j: Journal, todo: seq<Identity>) {
    forall n :: n in j.entries && n.stage == Prepared ==> P.Terminal(j, n.run) || Pending(todo, n.run)
  }

  ghost predicate WorkerInv(s: State) {
    match s.worker
    case Idle => true
    case Returned(ok) => ok ==> Covered(s.process.disk.journal, [])
    case Looping(todo, waiting) =>
      && Covered(s.process.disk.journal, todo)
      && (waiting.Some? ==>
            && todo != [] && waiting.value in s.process.operations
            && s.process.operations[waiting.value].identity == todo[0])
  }

  ghost predicate Inv(s: State) {
    P.Inv(s.process) && P.AbandonedGone(s.process) && OldOperations(s.process) && WorkerInv(s)
  }

  ghost predicate OldOperations(s: P.State) {
    forall o :: o in s.operations ==> o < s.nextOperation
  }

  lemma OperationsStayOld(s: P.State, step: P.Step)
    requires s.disk.journal.Valid() && OldOperations(s)
    ensures OldOperations(P.Apply(s, step))
    ensures forall o :: o in s.operations && !(step.Confirm? && step.operation == o) && !Dies(step) ==>
              o in P.Apply(s, step).operations && P.Apply(s, step).operations[o].identity == s.operations[o].identity
  {
    hide PrepareSection, StartLeaseSection, FinishLeaseSection, AbandonLeaseSection, FenceSection, ConfirmSection;
  }

  /** Coverage survives every step that prepares nothing. */
  lemma CoveredStays(s: P.State, step: P.Step, todo: seq<Identity>)
    requires P.Inv(s) && !step.Prepare? && !Dies(step) && Covered(s.disk.journal, todo)
    ensures Covered(P.Apply(s, step).disk.journal, todo)
  {
    P.StepSummary(s, step);
    P.StepNothingNew(s, step);
    hide P.Apply;
  }

  lemma CoveredTail(j: Journal, todo: seq<Identity>)
    requires Covered(j, todo) && todo != [] && P.Terminal(j, todo[0].run)
    ensures Covered(j, todo[1..])
  {
    forall n | n in j.entries && n.stage == Prepared && !P.Terminal(j, n.run) ensures Pending(todo[1..], n.run) {
      var i :| 0 <= i < |todo| && todo[i].run == n.run;
      assert todo[1..][i - 1] == todo[i];
    }
  }

  lemma ListCovers(d: Disk, owner: Owner, order: seq<Identity>)
    requires Listed(d, owner) && forall i :: i in order <==> Open(d, owner, i)
    ensures Covered(d.journal, order)
  {
    forall n | n in d.journal.entries && n.stage == Prepared && !P.Terminal(d.journal, n.run)
      ensures Pending(order, n.run)
    {
      var view := Get(d.journal, owner, n.run);
      assert view.Ok?;
      assert Open(d, owner, view.value.identity);
      assert view.value.identity in order;
    }
  }

  /** No step of anybody else prepares, and adapters keep their discipline. */
  ghost predicate Quiet(s: State, step: Step) {
    step.Other? ==> !step.step.Prepare? && P.Disciplined(s.process, step.step)
  }

  lemma ProcessKeeps(s: P.State, step: P.Step)
    requires P.Inv(s) && P.AbandonedGone(s) && OldOperations(s) && P.Disciplined(s, step)
    ensures P.Inv(P.Apply(s, step)) && P.AbandonedGone(P.Apply(s, step)) && OldOperations(P.Apply(s, step))
  {
    P.StepKeeps(s, step);
    P.StepKeepsAbandoned(s, step);
    OperationsStayOld(s, step);
  }

  lemma OtherKeeps(s: State, p: P.Step)
    requires Inv(s) && Quiet(s, Other(p)) && Enabled(s, Other(p))
    ensures Inv(Apply(s, Other(p)))
  {
    ProcessKeeps(s.process, p);
    OperationsStayOld(s.process, p);
    if !Dies(p) && s.worker.Looping? {
      CoveredStays(s.process, p, s.worker.todo);
    } else if !Dies(p) && s.worker == Returned(true) {
      CoveredStays(s.process, p, []);
    }
    hide P.Apply, P.Inv, Covered;
  }

  lemma FenceNextKeeps(s: State)
    requires Inv(s)
    ensures Inv(ApplyFenceNext(s))
  {
    if s.worker.Looping? && s.worker.waiting.None? && s.worker.todo != [] {
      var (p, todo) := (s.process, s.worker.todo);
      match FenceSection(p.disk, p.owner, todo[0])
      case Over(r) =>
        if r.Ok? {
          assert P.Terminal(p.disk.journal, todo[0].run);
          CoveredTail(p.disk.journal, todo);
        }
      case Wait(_) =>
        ProcessKeeps(p, P.BeginFence(todo[0]));
        CoveredStays(p, P.BeginFence(todo[0]), todo);
    }
  }

  lemma ConfirmKeeps(s: State, now: Time, closing: CloseFault)
    requires Inv(s)
    ensures Inv(ApplyConfirm(s, now, closing))
  {
    var t := ApplyConfirm(s, now, closing);
    if t != s {
      var (p, n, todo) := (s.process, s.worker.waiting.value, s.worker.todo);
      var o := p.operations[n];
      ProcessKeeps(p, P.Confirm(n, now, closing));
      CoveredStays(p, P.Confirm(n, now, closing), todo);
      P.ConfirmAdds(p.disk, p.owner, o, now, closing);
      if t.worker.Looping? {
        assert P.Terminal(t.process.disk.journal, todo[0].run);
        CoveredTail(t.process.disk.journal, todo);
      }
    }
  }

  lemma WaitKeeps(s: State)
    requires Inv(s) && s.worker.Looping? && s.worker.waiting.Some?
    ensures Inv(s.(process := P.Apply(s.process, P.SeeFree(s.worker.waiting.value))))
  {
    var step := P.SeeFree(s.worker.waiting.value);
    ProcessKeeps(s.process, step);
    OperationsStayOld(s.process, step);
    CoveredStays(s.process, step, s.worker.todo);
  }

  lemma StepKeeps(s: State, step: Step)
    requires Inv(s) && Quiet(s, step)
    ensures Inv(Apply(s, step))
  {
    hide ApplyFenceNext, ApplyConfirm, P.Apply, P.Inv;
    if Enabled(s, step) {
      match step
      case Other(p) => OtherKeeps(s, p);
      case List(order) =>
        if Listed(s.process.disk, s.process.owner) { ListCovers(s.process.disk, s.process.owner, order); }
      case FenceNext => FenceNextKeeps(s);
      case Wait => if s.worker.Looping? && s.worker.waiting.Some? { WaitKeeps(s); }
      case Confirm(now, closing) => ConfirmKeeps(s, now, closing);
      case GiveUp =>
    }
  }

  ghost predicate QuietRun(s: State, steps: seq<Step>)
    requires s.process.disk.journal.Valid()
    decreases |steps|
  {
    steps == [] || (QuietRun(s, steps[..|steps| - 1]) && Quiet(Run(s, steps[..|steps| - 1]), steps[|steps| - 1]))
  }

  lemma {:induction false} RunKeeps(s: State, steps: seq<Step>)
    requires Inv(s) && QuietRun(s, steps)
    ensures Inv(Run(s, steps))
    decreases |steps|
  {
    if steps != [] {
      RunKeeps(s, steps[..|steps| - 1]);
      StepKeeps(Run(s, steps[..|steps| - 1]), steps[|steps| - 1]);
    }
  }

  lemma {:induction false} BeforeKeeps(owner: Owner, before: seq<P.Step>)
    requires P.DisciplinedRun(P.Init(owner), before)
    ensures Inv(State(P.Run(P.Init(owner), before), Idle))
    decreases |before|
  {
    P.DisciplinedKeeps(P.Init(owner), before);
    OldFrom(P.Init(owner), before);
  }

  lemma {:induction false} OldFrom(s: P.State, steps: seq<P.Step>)
    requires s.disk.journal.Valid() && OldOperations(s)
    ensures OldOperations(P.Run(s, steps))
    decreases |steps|
  {
    if steps != [] {
      OldFrom(s, steps[..|steps| - 1]);
      OperationsStayOld(P.Run(s, steps[..|steps| - 1]), steps[|steps| - 1]);
    }
  }

  // --------------------------------------------------------------- main result

  /** If adapters abandon only when their child is gone, then after any history,
      with every other step going on around it except preparing, `FenceAll`
      returning nil leaves no process alive. */
  lemma FenceAllLeavesNobody(owner: Owner, before: seq<P.Step>, during: seq<Step>, run: Id)
    requires P.DisciplinedRun(P.Init(owner), before)
    requires QuietRun(State(P.Run(P.Init(owner), before), Idle), during)
    requires Run(State(P.Run(P.Init(owner), before), Idle), during).worker == Returned(true)
    ensures P.Live(Run(State(P.Run(P.Init(owner), before), Idle), during).process, run) == {}
  {
    var start := State(P.Run(P.Init(owner), before), Idle);
    BeforeKeeps(owner, before);
    RunKeeps(start, during);
    var s := Run(start, during).process;
    assert P.RunInv(s, run);
    assert Name(run, Prepared) in s.disk.journal.entries ==> P.Terminal(s.disk.journal, run);
  }
}
