/**
 The cleanup authority joins an owner grant, the stopped-run fence and the
 finished process.  Its action runs while the fence store stays locked.

 The composed state runs both stores together.  While an action is running no
 step that needs the fence's mutex can happen; the process store is not locked.
 A process is prepared only for an invocation the fence granted, as the runner
 does.
 */
module CleanupProtocol {
  import opened Wrappers
  import opened RuntimeFence
  import PS = ProcessStore
  import F = FenceProtocol
  import P = ProcessProtocol

  /** One cleanup action: its scope, the view it was given and how many fence
      events preceded it. */
  datatype Cleaning = Cleaning(scope: CleanupScope, view: View, eventsBefore: nat)

  datatype State = State(fence: F.State, process: P.State, running: Option<Cleaning>, cleaned: seq<Cleaning>)

  datatype Step =
    | FenceStep(fenceStep: F.Step)
    | ProcessStep(processStep: P.Step)
    | BeginCleanup(scope: CleanupScope, granted: bool)
    | EndCleanup
    | ProcessCrash(fenceLeftover: nat, processLeftover: nat)
    | MachineCrash(fenceKept: set<Name>, processKept: set<PS.Name>, locks: set<Id>, leftovers: (nat, nat))

  function Init(owner: Owner): (s: State)
    ensures s.fence.journal.Valid() && s.process.disk.journal.Valid()
  {
    State(F.Init(owner), P.Init(owner), None, [])
  }

  ghost predicate Valid(s: State) {
    s.fence.journal.Valid() && s.process.disk.journal.Valid()
  }

  /** The identity under which the process of a started run is journaled. */
  function ProcessIdentity(view: View): (identity: PS.Identity)
    requires view.start.Some?
  {
    PS.Identity(view.spec.run, view.admission, view.start.value)
  }

  /** `WithCleanupAuthority` up to the action. */
  function CleanupView(s: State, scope: CleanupScope): (r: Result<View, Error>) {
    var view := StoppedRun(s.fence.journal, s.fence.owner, scope);
    if view.Err? then view
    else if !PS.FinishedProcess(s.process.disk, s.process.owner, ProcessIdentity(view.value)) then Err(Changed)
    else view
  }

  function IdentityOf(e: F.Event): (identity: PS.Identity)
    requires e.Invoked?
  {
    PS.Identity(e.spec.run, e.admission, e.start)
  }

  /** The runner prepares a process only for a granted invocation. */
  predicate Granted(history: seq<F.Event>, identity: PS.Identity) {
    exists i :: 0 <= i < |history| && history[i].Invoked? && IdentityOf(history[i]) == identity
  }

  /** Whether a fence step can happen now: crashes are steps of the whole, and
      only the authority callback runs without the mutex. */
  predicate FenceMayStep(s: State, step: F.Step) {
    !step.ProcessCrash? && !step.MachineCrash? && (s.running.Some? ==> step.Authorize?)
  }

  predicate ProcessMayStep(s: State, step: P.Step) {
    !step.Restart? && !step.MachineCrash? && (step.Prepare? ==> Granted(s.fence.history, step.identity))
  }

  function Apply(s: State, step: Step): (t: State)
    requires Valid(s)
    ensures Valid(t)
  {
    match step
    case FenceStep(f) => if FenceMayStep(s, f) then s.(fence := F.Apply(s.fence, f)) else s
    case ProcessStep(p) => if ProcessMayStep(s, p) then s.(process := P.Apply(s.process, p)) else s
    case BeginCleanup(scope, granted) =>
      if !granted || s.running.Some? || !s.fence.open then s
      else
        var view := CleanupView(s, scope);
        if view.Err? then s
        else
          var c := Cleaning(scope, view.value, |s.fence.history|);
          s.(running := Some(c), cleaned := s.cleaned + [c])
    case EndCleanup => s.(running := None)
    case ProcessCrash(fl, pl) =>
      s.(fence := F.Apply(s.fence, F.ProcessCrash(fl)), process := P.Apply(s.process, P.Restart(pl)), running := None)
    case MachineCrash(fk, pk, locks, leftovers) =>
      if s.fence.journal.durable <= fk <= s.fence.journal.entries.Keys
         && s.process.disk.journal.durable <= pk <= s.process.disk.journal.entries.Keys
      then s.(fence := F.Apply(s.fence, F.MachineCrash(fk, leftovers.0)),
              process := P.Apply(s.process, P.MachineCrash(pk, locks, leftovers.1)), running := None)
      else s
  }

  function Run(s: State, steps: seq<Step>): (t: State)
    requires Valid(s)
    ensures Valid(t)
    decreases |steps|
  {
    if steps == [] then s else Apply(Run(s, steps[..|steps| - 1]), steps[|steps| - 1])
  }

  // --------------------------------------------------------------- invariant

  /** A journaled process belongs to a granted invocation. */
  ghost predicate Linked(j: PS.Journal, history: seq<F.Event>) {
    forall n :: n in j.entries && n.stage == PS.Prepared && j.entries[n].PreparedRecord? ==>
      Granted(history, j.entries[n].identity)
  }

  /** The cleaned run's claim and start are durable. */
  ghost predicate CleanedDurable(s: State, c: Cleaning)
    requires s.fence.journal.Valid()
  {
    var (claim, start) := (Name(c.scope.run, Claimed), Name(c.scope.run, Starting));
    && claim in s.fence.journal.durable && start in s.fence.journal.durable
    && s.fence.journal.entries[claim].ClaimRecord? && s.fence.journal.entries[claim].spec == c.view.spec
    && c.view.spec.workspace == c.scope.workspace && c.view.spec.generation == c.scope.generation
  }

  ghost predicate SameWorkspace(e: F.Event, c: Cleaning) {
    e.Invoked? && e.spec.workspace == c.scope.workspace && e.spec.generation == c.scope.generation
  }

  ghost predicate NoLaterStart(history: seq<F.Event>, c: Cleaning) {
    forall i :: c.eventsBefore <= i < |history| ==> !SameWorkspace(history[i], c)
  }

  /** What the action may rely on for as long as it runs. */
  ghost predicate ActionHolds(s: State, c: Cleaning) {
    && c.view.start.Some?
    && StoppedRun(s.fence.journal, s.fence.owner, c.scope) == Ok(c.view)
    && PS.FinishedProcess(s.process.disk, s.process.owner, ProcessIdentity(c.view))
  }

  ghost predicate Inv(s: State) {
    && F.Inv(s.fence) && P.Inv(s.process) && s.process.owner == s.fence.owner
    && Linked(s.process.disk.journal, s.fence.history)
    && (forall i :: 0 <= i < |s.cleaned| ==>
            CleanedDurable(s, s.cleaned[i]) && NoLaterStart(s.fence.history, s.cleaned[i]))
    && (s.running.Some? ==> ActionHolds(s, s.running.value))
  }

  lemma GrantedGrows(history: seq<F.Event>, history': seq<F.Event>, identity: PS.Identity)
    requires Granted(history, identity) && history <= history'
    ensures Granted(history', identity)
  {
    var i :| 0 <= i < |history| && history[i].Invoked? && IdentityOf(history[i]) == identity;
    assert history'[i] == history[i];
  }

  lemma LinkedGrows(j: PS.Journal, history: seq<F.Event>, history': seq<F.Event>)
    requires Linked(j, history) && history <= history'
    ensures Linked(j, history')
  {
    forall n | n in j.entries && n.stage == PS.Prepared && j.entries[n].PreparedRecord?
      ensures Granted(history', j.entries[n].identity)
    {
      GrantedGrows(history, history', j.entries[n].identity);
    }
  }

  /** A new invocation is never for a workspace whose run has a durable start. */
  lemma CommitAvoidsCleaned(s: State, step: F.Step, c: Cleaning)
    requires F.Inv(s.fence) && CleanedDurable(s, c) && step.Commit?
    requires |F.Apply(s.fence, step).history| > |s.fence.history|
    ensures !SameWorkspace(F.Apply(s.fence, step).history[|s.fence.history|], c)
  {
    var call := s.fence.calls[step.call];
    F.InvokingCommit(s.fence.journal, s.fence.owner, call.observed, call.expected, call.authorizedAt.value,
        step.commitFault);
    var (j, run) := (s.fence.journal, call.observed.spec.run);
    assert F.IsClaimed(j, run) && F.IsClaimed(j, c.scope.run);
    F.GetReadsClaim(j, s.fence.owner, run);
    assert run != c.scope.run;
    assert !Clashes(F.ClaimSpec(j, s.fence.owner, run), F.ClaimSpec(j, s.fence.owner, c.scope.run));
  }

  lemma FenceHistoryGrows(s: State, step: F.Step, c: Cleaning)
    requires F.Inv(s.fence) && CleanedDurable(s, c) && NoLaterStart(s.fence.history, c)
    ensures NoLaterStart(F.Apply(s.fence, step).history, c)
  {
    var (h, h') := (s.fence.history, F.Apply(s.fence, step).history);
    if step.Commit? && |h'| > |h| {
      CommitAvoidsCleaned(s, step, c);
    }
    forall i | c.eventsBefore <= i < |h'|
      ensures !SameWorkspace(h'[i], c)
    {
      assert i < |h| ==> h'[i] == h[i];
    }
  }

  /** Fence steps keep what cleaned workspaces rely on. */
  lemma FenceKeepsCleaned(s: State, step: F.Step)
    requires Inv(s)
    ensures var t := s.(fence := F.Apply(s.fence, step));
            forall i :: 0 <= i < |t.cleaned| ==>
              CleanedDurable(t, t.cleaned[i]) && NoLaterStart(t.fence.history, t.cleaned[i])
  {
    var t := s.(fence := F.Apply(s.fence, step));
    F.DurableStays(s.fence, step);
    forall i | 0 <= i < |t.cleaned|
      ensures CleanedDurable(t, t.cleaned[i]) && NoLaterStart(t.fence.history, t.cleaned[i])
    {
      assert CleanedDurable(s, s.cleaned[i]);
      FenceHistoryGrows(s, step, s.cleaned[i]);
    }
  }

  /** A process step keeps the link between journaled and granted processes. */
  lemma ProcessKeepsLinked(s: P.State, step: P.Step, history: seq<F.Event>)
    requires P.Inv(s) && Linked(s.disk.journal, history) && !step.Restart? && !step.MachineCrash?
    requires step.Prepare? ==> Granted(history, step.identity)
    ensures Linked(P.Apply(s, step).disk.journal, history)
  {
    if step.Prepare? {
      hide PS.PrepareSection;
      P.PrepareAdds(s.disk, s.owner, step.identity, step.now, step.fault, step.lock, step.undo);
    } else {
      hide P.Apply;
      P.StepSummary(s, step);
    }
  }

  lemma FenceStepKeeps(s: State, f: F.Step)
    requires Inv(s) && FenceMayStep(s, f)
    ensures Inv(s.(fence := F.Apply(s.fence, f)))
  {
    F.StepKeeps(s.fence, f);
    FenceKeepsCleaned(s, f);
    LinkedGrows(s.process.disk.journal, s.fence.history, F.Apply(s.fence, f).history);
    hide F.Inv, P.Inv, Linked;
  }

  lemma ProcessStepKeeps(s: State, p: P.Step)
    requires Inv(s) && ProcessMayStep(s, p)
    ensures Inv(s.(process := P.Apply(s.process, p)))
  {
    var t := s.(process := P.Apply(s.process, p));
    P.StepKeeps(s.process, p);
    ProcessKeepsLinked(s.process, p, s.fence.history);
    if s.running.Some? {
      P.FinishedStays(s.process, p, ProcessIdentity(s.running.value.view));
    }
    forall i | 0 <= i < |t.cleaned|
      ensures CleanedDurable(t, t.cleaned[i])
    {
      assert CleanedDurable(s, s.cleaned[i]);
    }
  }

  /** A finished process proves that the start it names was granted, so the
      claim and the start of the run to clean are durable. */
  lemma CleanupFindsDurable(s: State, scope: CleanupScope)
    requires Inv(s) && CleanupView(s, scope).Ok?
    ensures CleanedDurable(s, Cleaning(scope, CleanupView(s, scope).value, |s.fence.history|))
  {
    var view := CleanupView(s, scope).value;
    var identity := ProcessIdentity(view);
    var n := PS.Name(identity.run, PS.Prepared);
    assert n in s.process.disk.journal.entries && s.process.disk.journal.entries[n].PreparedRecord?
        && s.process.disk.journal.entries[n].identity == identity;
    assert Granted(s.fence.history, identity);
    var i :| 0 <= i < |s.fence.history| && s.fence.history[i].Invoked? && IdentityOf(s.fence.history[i]) == identity;
    assert F.RecordsDurable(s.fence.journal, s.fence.history[i]);
    F.GetReadsClaim(s.fence.journal, s.fence.owner, scope.run);
  }

  lemma BeginCleanupKeeps(s: State, scope: CleanupScope, granted: bool)
    requires Inv(s)
    ensures Inv(Apply(s, BeginCleanup(scope, granted)))
  {
    var t := Apply(s, BeginCleanup(scope, granted));
    if t != s {
      CleanupFindsDurable(s, scope);
      forall i | 0 <= i < |t.cleaned|
        ensures CleanedDurable(t, t.cleaned[i]) && NoLaterStart(t.fence.history, t.cleaned[i])
      {
        assert i < |s.cleaned| ==> CleanedDurable(s, s.cleaned[i]);
      }
    }
  }

  lemma CrashKeeps(s: State, f: F.Step, p: P.Step)
    requires Inv(s) && (f.ProcessCrash? || f.MachineCrash?) && (p.Restart? || p.MachineCrash?)
    ensures Inv(s.(fence := F.Apply(s.fence, f), process := P.Apply(s.process, p), running := None))
  {
    var (t, u) := (s.(fence := F.Apply(s.fence, f)),
        s.(fence := F.Apply(s.fence, f), process := P.Apply(s.process, p), running := None));
    F.StepKeeps(s.fence, f);
    P.StepKeeps(s.process, p);
    FenceKeepsCleaned(s, f);
    hide F.Inv, P.Inv;
    forall i | 0 <= i < |u.cleaned|
      ensures CleanedDurable(u, u.cleaned[i])
    {
      assert CleanedDurable(t, t.cleaned[i]);
    }
  }

  lemma StepKeeps(s: State, step: Step)
    requires Inv(s)
    ensures Inv(Apply(s, step))
  {
    match step
    case FenceStep(f) => if FenceMayStep(s, f) { FenceStepKeeps(s, f); }
    case ProcessStep(p) => if ProcessMayStep(s, p) { ProcessStepKeeps(s, p); }
    case BeginCleanup(scope, granted) => BeginCleanupKeeps(s, scope, granted);
    case EndCleanup =>
      forall i | 0 <= i < |s.cleaned|
        ensures CleanedDurable(s.(running := None), s.cleaned[i])
      {
        assert CleanedDurable(s, s.cleaned[i]);
      }
    case ProcessCrash(fl, pl) => CrashKeeps(s, F.ProcessCrash(fl), P.Restart(pl));
    case MachineCrash(fk, pk, locks, leftovers) =>
      CrashKeeps(s, F.MachineCrash(fk, leftovers.0), P.MachineCrash(pk, locks, leftovers.1));
  }

  lemma {:induction false} RunKeeps(owner: Owner, steps: seq<Step>)
    ensures Inv(Run(Init(owner), steps))
    decreases |steps|
  {
    if steps != [] {
      RunKeeps(owner, steps[..|steps| - 1]);
      StepKeeps(Run(Init(owner), steps[..|steps| - 1]), steps[|steps| - 1]);
    }
  }

  // ----------------------------------------------------------- main results

  /** For as long as a cleanup action runs, its run is stopped, its process is
      finished under the same admission and start digests with nobody alive,
      and no other claim names the same workspace generation. */
  lemma CleanupActionIsAlone(owner: Owner, steps: seq<Step>)
    requires Run(Init(owner), steps).running.Some?
    ensures var s := Run(Init(owner), steps);
            var c := s.running.value;
            && c.view.start.Some? && c.view.state == Stopped && ScopeMatches(c.scope, c.view.spec)
            && Get(s.fence.journal, s.fence.owner, c.scope.run) == Ok(c.view)
            && PS.FinishedProcess(s.process.disk, s.process.owner, ProcessIdentity(c.view))
            && P.Live(s.process, c.scope.run) == {}
            && F.Typed(s.fence.journal, s.fence.owner)
            && forall run :: F.IsClaimed(s.fence.journal, run) && run != c.scope.run ==>
                 var spec := F.ClaimSpec(s.fence.journal, s.fence.owner, run);
                 !(spec.workspace == c.scope.workspace && spec.generation == c.scope.generation)
  {
    RunKeeps(owner, steps);
    var s := Run(Init(owner), steps);
    var c := s.running.value;
    assert P.RunInv(s.process, c.scope.run);
    F.GetReadsClaim(s.fence.journal, s.fence.owner, c.scope.run);
    forall run | F.IsClaimed(s.fence.journal, run) && run != c.scope.run
      ensures var spec := F.ClaimSpec(s.fence.journal, s.fence.owner, run);
              !(spec.workspace == c.scope.workspace && spec.generation == c.scope.generation)
    {
      assert F.IsClaimed(s.fence.journal, c.scope.run);
      assert !Clashes(F.ClaimSpec(s.fence.journal, s.fence.owner, run),
                 F.ClaimSpec(s.fence.journal, s.fence.owner, c.scope.run));
    }
  }

  /** Once a workspace generation entered cleanup, no start permission for it
      is granted during the action or ever after, across any crashes. */
  lemma NoStartAfterCleanup(owner: Owner, steps: seq<Step>, k: nat, i: nat)
    requires k < |Run(Init(owner), steps).cleaned|
    requires Run(Init(owner), steps).cleaned[k].eventsBefore <= i < |Run(Init(owner), steps).fence.history|
    ensures var (s, e) := (Run(Init(owner), steps), Run(Init(owner), steps).fence.history[i]);
            e.Invoked? ==>
              e.spec.workspace != s.cleaned[k].scope.workspace || e.spec.generation != s.cleaned[k].scope.generation
  {
    RunKeeps(owner, steps);
    var s := Run(Init(owner), steps);
    assert NoLaterStart(s.fence.history, s.cleaned[k]);
    assert !SameWorkspace(s.fence.history[i], s.cleaned[k]);
  }
}
