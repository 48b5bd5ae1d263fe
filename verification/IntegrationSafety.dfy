/**
 What every run of the integration protocol keeps: one effect per admission,
 truthful receipts, and a final receipt.
 */
module IntegrationSafety {
  import opened Wrappers
  import opened DurableDirectory
  import opened IntegrationProtocol

  // ------------------------------------------------- invariant of every run

  predicate Typed(j: Journal) {
    && (IntentKind in j.entries ==> j.entries[IntentKind].IntentRecord?)
    && (ReceiptKind in j.entries ==> j.entries[ReceiptKind].ReceiptRecord?)
  }

  /** Past the intent, the journal holds exactly this admission. */
  predicate PhaseFits(s: State) {
    match s.phase
    case Idle => true
    case Planning(_) => IntentKind !in s.journal.entries
    case Retaining(r) => IntentKind in s.journal.entries ==> Intent(s) == Some(r.admission)
    case Recovering(a, _) => Intent(s) == Some(a)
    case Swapping(a) => Intent(s) == Some(a)
    case Checking(a) => Intent(s) == Some(a)
    case Updating(a) => Intent(s) == Some(a) && StrictAncestor(a.expected, a.candidate) && !DidMove(s, a)
    case Inspecting(a, applied, reported) =>
      Intent(s) == Some(a) && (applied <==> DidMove(s, a)) && (reported.None? ==> applied)
  }

  ghost predicate EffectFits(target: Commit, e: Effect) {
    && StrictAncestor(e.admission.expected, e.admission.candidate)
    && Depth(e.admission.candidate) <= Depth(target)
  }

  predicate OncePerAdmission(effects: seq<Effect>) {
    forall i, k :: 0 <= i < k < |effects| ==> effects[i].admission != effects[k].admission
  }

  ghost predicate Inv(s: State) {
    && s.journal.Valid()
    && Typed(s.journal)
    && (ReceiptKind in s.journal.entries ==> s.phase.Idle?)
    && PhaseFits(s)
    && (forall i :: 0 <= i < |s.effects| ==> EffectFits(s.target, s.effects[i]))
    && OncePerAdmission(s.effects)
  }

  /** An effect of `a` leaves the target past `a.expected` for good. */
  lemma MovedIsPast(s: State, a: Admission)
    requires Inv(s) && DidMove(s, a)
    ensures s.target != a.expected
  {
    var i :| 0 <= i < |s.effects| && s.effects[i].admission == a;
    assert EffectFits(s.target, s.effects[i]);
    AncestorIsShallower(a.expected, a.candidate);
  }

  lemma UpdateKeeps(s: State, applied: bool, reported: Option<GitError>)
    requires Inv(s) && s.phase.Updating?
    ensures s.journal.Valid() && Inv(ApplyUpdate(s, applied, reported))
  {
    var a := s.phase.admission;
    var t := ApplyUpdate(s, applied, reported);
    AncestorIsShallower(a.expected, a.candidate);
    if t.effects != s.effects {
      assert t.effects[|s.effects|].admission == a;
    }
  }

  lemma WriterKeeps(s: State, c: Commit)
    requires Inv(s)
    ensures Inv(Apply(s, OtherWriter(c)))
  {
    if StrictAncestor(s.target, c) {
      AncestorIsShallower(s.target, c);
      assert forall a :: DidMove(s, a) == DidMove(Apply(s, OtherWriter(c)), a);
    }
  }

  lemma CheckKeeps(s: State, step: Step)
    requires Inv(s) && (step.Begin? || step.Inspect? || step.CheckGrant? || step.CheckGit? || step.Look?)
    ensures Inv(Apply(s, step))
  {
    if s.phase.Checking? && Apply(s, step).phase.Updating? && DidMove(s, s.phase.admission) {
      MovedIsPast(s, s.phase.admission);
    }
  }

  lemma JournalKeeps(s: State, step: Step)
    requires Inv(s) && (step.PutIntent? || step.PutReceipt? || step.ProcessCrash? || step.MachineCrash?)
    ensures Inv(Apply(s, step))
  {
  }

  lemma StepKeeps(s: State, step: Step)
    requires Inv(s)
    ensures Inv(Apply(s, step))
  {
    hide Inv;
    match step
    case Update(applied, reported) => if s.phase.Updating? { UpdateKeeps(s, applied, reported); }
    case OtherWriter(c) => WriterKeeps(s, c);
    case PutIntent(_) => JournalKeeps(s, step);
    case PutReceipt(_) => JournalKeeps(s, step);
    case ProcessCrash => JournalKeeps(s, step);
    case MachineCrash(_) => JournalKeeps(s, step);
    case _ => CheckKeeps(s, step);
  }

  lemma {:induction false} RunKeeps(s: State, steps: seq<Step>)
    requires Inv(s)
    ensures Inv(Run(s, steps))
    decreases |steps|
  {
    if steps != [] {
      RunKeeps(s, steps[..|steps| - 1]);
      StepKeeps(Run(s, steps[..|steps| - 1]), steps[|steps| - 1]);
    }
  }

  /** The effect happens at most once for an admission. */
  lemma EffectAtMostOnce(target: Commit, steps: seq<Step>)
    ensures OncePerAdmission(Run(Init(target), steps).effects)
  {
    RunKeeps(Init(target), steps);
  }

  /** Whenever it happens, the journal visibly holds an intent equal to its
      admission and no receipt. */
  lemma EffectHasIntent(s: State, step: Step)
    requires Inv(s) && Apply(s, step).effects != s.effects
    ensures var a := s.phase.admission;
            && Intent(s) == Some(a)
            && Apply(s, step).effects == s.effects + [Effect(a, IntentKind in s.journal.durable)]
            && s.target == a.expected && Apply(s, step).target == a.candidate
            && ReceiptKind !in s.journal.entries
  {
  }

  // ------------------------------------------------------- succeeded is true

  ghost predicate HoldsCandidate(s: State, a: Admission) {
    Intent(s) == Some(a) && s.target == a.candidate
  }

  /** At some point of the run the intent of `a` was journaled and the target
      was the candidate. */
  ghost predicate Held(target: Commit, steps: seq<Step>, a: Admission) {
    exists n :: 0 <= n <= |steps| && HoldsCandidate(Run(Init(target), steps[..n]), a)
  }

  ghost predicate SuccessIsTrue(target: Commit, steps: seq<Step>, r: Receipt) {
    r.outcome == Succeeded ==> Held(target, steps, r.admission)
  }

  ghost predicate SuccessesAreTrue(target: Commit, steps: seq<Step>, s: State) {
    && (s.phase.Retaining? ==> SuccessIsTrue(target, steps, s.phase.receipt))
    && (ReceiptKind in s.journal.entries && s.journal.entries[ReceiptKind].ReceiptRecord? ==>
          SuccessIsTrue(target, steps, s.journal.entries[ReceiptKind].receipt))
    && (forall r :: r in s.retained ==> SuccessIsTrue(target, steps, r))
  }

  lemma HeldGrows(target: Commit, steps: seq<Step>, step: Step, a: Admission)
    requires Held(target, steps, a)
    ensures Held(target, steps + [step], a)
  {
    var n :| 0 <= n <= |steps| && HoldsCandidate(Run(Init(target), steps[..n]), a);
    assert (steps + [step])[..n] == steps[..n];
  }

  lemma HeldNow(target: Commit, steps: seq<Step>, a: Admission)
    requires HoldsCandidate(Run(Init(target), steps), a)
    ensures Held(target, steps, a)
  {
    assert steps[..|steps|] == steps;
  }

  lemma SuccessConcluded(s: State, step: Step)
    requires Inv(s)
    ensures var t := Apply(s, step);
            t.phase.Retaining? && t.phase != s.phase && t.phase.receipt.outcome == Succeeded ==>
            HoldsCandidate(s, t.phase.receipt.admission)
  {
  }

  /** Receipts only move: from the phase to the journal, from there to the server. */
  lemma ReceiptsMove(s: State, step: Step)
    requires Inv(s)
    ensures var t := Apply(s, step);
            && (ReceiptKind in t.journal.entries && t.journal.entries[ReceiptKind].ReceiptRecord? ==>
                  || (ReceiptKind in s.journal.entries
                      && t.journal.entries[ReceiptKind] == s.journal.entries[ReceiptKind])
                  || (s.phase.Retaining? && t.journal.entries[ReceiptKind].receipt == s.phase.receipt))
            && (forall r :: r in t.retained ==>
                  || r in s.retained
                  || (ReceiptKind in s.journal.entries && s.journal.entries[ReceiptKind] == ReceiptRecord(r))
                  || (s.phase.Retaining? && r == s.phase.receipt))
  {
  }

  lemma SuccessStep(target: Commit, steps: seq<Step>, step: Step, s: State)
    requires Inv(s) && s == Run(Init(target), steps) && SuccessesAreTrue(target, steps, s)
    ensures SuccessesAreTrue(target, steps + [step], Apply(s, step))
  {
    hide Apply, Run, Held;
    forall r: Receipt | SuccessIsTrue(target, steps, r) ensures SuccessIsTrue(target, steps + [step], r) {
      if r.outcome == Succeeded { HeldGrows(target, steps, step, r.admission); }
    }
    var t := Apply(s, step);
    SuccessConcluded(s, step);
    ReceiptsMove(s, step);
    if t.phase.Retaining? && t.phase != s.phase && t.phase.receipt.outcome == Succeeded {
      HeldNow(target, steps, t.phase.receipt.admission);
      HeldGrows(target, steps, step, t.phase.receipt.admission);
    }
  }

  lemma {:induction false} SuccessRun(target: Commit, steps: seq<Step>)
    ensures Inv(Run(Init(target), steps))
    ensures SuccessesAreTrue(target, steps, Run(Init(target), steps))
    decreases |steps|
  {
    RunKeeps(Init(target), steps);
    if steps != [] {
      var before := steps[..|steps| - 1];
      SuccessRun(target, before);
      SuccessStep(target, before, steps[|steps| - 1], Run(Init(target), before));
      assert before + [steps[|steps| - 1]] == steps;
    }
  }

  /** A succeeded receipt handed to the server means that the target did hold
      the candidate while the intent was journaled. */
  lemma SucceededMeansHeld(target: Commit, steps: seq<Step>, r: Receipt)
    requires r in Run(Init(target), steps).retained && r.outcome == Succeeded
    ensures Held(target, steps, r.admission)
  {
    SuccessRun(target, steps);
  }

  // ------------------------------------------------------- the receipt is final

  /** Once a receipt is durable, the journal keeps it, Git never runs again and
      only that receipt is retained, whatever follows. */
  lemma {:induction false} ReceiptIsFinal(s: State, steps: seq<Step>)
    requires Inv(s) && ReceiptKind in s.journal.durable
    ensures var t := Run(s, steps);
            && Inv(t) && t.phase.Idle? && ReceiptKind in t.journal.durable
            && t.journal.entries[ReceiptKind] == s.journal.entries[ReceiptKind]
            && t.effects == s.effects
            && |s.retained| <= |t.retained| && t.retained[..|s.retained|] == s.retained
            && forall i :: |s.retained| <= i < |t.retained| ==> t.retained[i] == s.journal.entries[ReceiptKind].receipt
    decreases |steps|
  {
    if steps != [] {
      var before := steps[..|steps| - 1];
      ReceiptIsFinal(s, before);
      StepKeeps(Run(s, before), steps[|steps| - 1]);
    }
  }

  // --------------------------------------------- every effect has a durable intent

  /** The target is at the expected commit or can still get there, and the
      candidate is a fast-forward from it. */
  predicate MayMove(target: Commit, a: Admission) {
    StrictAncestor(a.expected, a.candidate) && (target == a.expected || StrictAncestor(target, a.expected))
  }

  /** Who is past the expected commit stays past it. */
  lemma PastForGood(target: Commit, later: Commit, a: Admission)
    requires StrictAncestor(target, later) && MayMove(later, a)
    ensures MayMove(target, a)
  {
    if later != a.expected {
      AncestorsChain(target, later, a.expected);
    }
  }

  lemma TargetMoves(s: State, step: Step)
    requires Inv(s)
    ensures forall a :: MayMove(Apply(s, step).target, a) ==> MayMove(s.target, a)
  {
    var t := Apply(s, step);
    if t.target != s.target {
      assert StrictAncestor(s.target, t.target);
      forall a | MayMove(t.target, a) ensures MayMove(s.target, a) {
        PastForGood(s.target, t.target, a);
      }
    }
  }

  /** An intent that can still have its effect stays unsynced after its link. */
  predicate LosesIntent(s: State, step: Step) {
    step.PutIntent? && step.fault == FailsAfterLink && s.phase.Planning? && MayMove(s.target, s.phase.admission)
  }

  predicate IntentsKept(s: State, steps: seq<Step>)
    requires s.journal.Valid()
  {
    forall k :: 0 <= k < |steps| ==> !LosesIntent(Run(s, steps[..k]), steps[k])
  }

  ghost predicate IntentSafe(s: State) {
    && Inv(s)
    && (IntentKind in s.journal.entries ==>
          IntentKind in s.journal.durable || !MayMove(s.target, s.journal.entries[IntentKind].admission))
    && (s.effects != [] ==> IntentKind in s.journal.durable)
    && (forall i :: 0 <= i < |s.effects| ==> s.effects[i].intentDurable && Intent(s) == Some(s.effects[i].admission))
  }

  lemma IntentStep(s: State, step: Step)
    requires IntentSafe(s) && !LosesIntent(s, step)
    ensures IntentSafe(Apply(s, step))
  {
    StepKeeps(s, step);
    TargetMoves(s, step);
    hide MayMove, StrictAncestor;
    if step.Update? && s.phase.Updating? {
      UpdateSafe(s, step.applied, step.reported);
    }
  }

  lemma UpdateSafe(s: State, applied: bool, reported: Option<GitError>)
    requires IntentSafe(s) && s.phase.Updating? && Inv(ApplyUpdate(s, applied, reported))
    ensures IntentSafe(ApplyUpdate(s, applied, reported))
  {
    var t := ApplyUpdate(s, applied, reported);
    if t.effects != s.effects {
      assert MayMove(s.target, s.phase.admission);
      hide MayMove;
      assert IntentKind in s.journal.durable;
    }
  }

  lemma {:induction false} IntentRun(target: Commit, steps: seq<Step>)
    requires IntentsKept(Init(target), steps)
    ensures IntentSafe(Run(Init(target), steps))
    decreases |steps|
  {
    if steps != [] {
      var before := steps[..|steps| - 1];
      assert forall k :: 0 <= k < |before| ==> before[..k] == steps[..k];
      IntentRun(target, before);
      IntentStep(Run(Init(target), before), steps[|steps| - 1]);
    }
  }

  lemma OneAdmissionOneEffect(effects: seq<Effect>)
    requires OncePerAdmission(effects)
    requires forall i, k :: 0 <= i < |effects| && 0 <= k < |effects| ==> effects[i].admission == effects[k].admission
    ensures |effects| <= 1
  {
    if effects != [] {
      assert effects[0].admission == effects[|effects| - 1].admission;
    }
  }

  /** If no intent is left unsynced while it can still have its effect, the
      effect follows a durable intent and the operation moves the target at most
      once, under whatever admissions it is retried. */
  lemma EffectsHaveDurableIntents(target: Commit, steps: seq<Step>)
    requires IntentsKept(Init(target), steps)
    ensures var s := Run(Init(target), steps);
            |s.effects| <= 1 && forall e :: e in s.effects ==> e.intentDurable
  {
    IntentRun(target, steps);
    var s := Run(Init(target), steps);
    hide Run;
    OneAdmissionOneEffect(s.effects);
  }

  // ------------------------------------------------------- one receipt handed over

  /** No receipt stays unsynced after its link. */
  predicate ReceiptsSynced(steps: seq<Step>) {
    forall k :: 0 <= k < |steps| && steps[k].PutReceipt? ==> steps[k].fault != FailsAfterLink
  }

  ghost predicate ReceiptSafe(s: State) {
    && Inv(s)
    && (ReceiptKind in s.journal.entries ==> ReceiptKind in s.journal.durable)
    && (s.retained != [] ==> ReceiptKind in s.journal.entries)
    && (forall i :: 0 <= i < |s.retained| ==> ReceiptRecord(s.retained[i]) == s.journal.entries[ReceiptKind])
  }

  lemma ReceiptStep(s: State, step: Step)
    requires ReceiptSafe(s) && (step.PutReceipt? ==> step.fault != FailsAfterLink)
    ensures ReceiptSafe(Apply(s, step))
  {
    StepKeeps(s, step);
  }

  lemma {:induction false} ReceiptRun(target: Commit, steps: seq<Step>)
    requires ReceiptsSynced(steps)
    ensures ReceiptSafe(Run(Init(target), steps))
    decreases |steps|
  {
    if steps != [] {
      var before := steps[..|steps| - 1];
      ReceiptRun(target, before);
      ReceiptStep(Run(Init(target), before), steps[|steps| - 1]);
    }
  }

  /** If no sync of a receipt fails, all receipts handed over are one. */
  lemma OneReceipt(target: Commit, steps: seq<Step>)
    requires ReceiptsSynced(steps)
    ensures var s := Run(Init(target), steps);
            forall i, k :: 0 <= i < k < |s.retained| ==> s.retained[i] == s.retained[k]
  {
    ReceiptRun(target, steps);
  }

  // ----------------------------------------------- failed and canceled are true

  /** A denial stays unsynced after its link while the effect can still come. */
  predicate LosesDenial(s: State, step: Step) {
    && step.PutReceipt? && step.fault == FailsAfterLink && s.phase.Retaining? && Denies(s.phase.receipt)
    && MayMove(s.target, s.phase.receipt.admission)
  }

  /** The look at an applied update whose report was an error finds the target
      where another writer took it. */
  predicate SeesOvertaken(s: State, step: Step) {
    && step.Look? && step.readable && s.phase.Inspecting? && s.phase.applied && s.phase.reported.Some?
    && s.target != s.phase.admission.candidate
  }

  /** The three accidents that make a denial false. */
  predicate Accident(s: State, step: Step) {
    LosesIntent(s, step) || LosesDenial(s, step) || SeesOvertaken(s, step)
  }

  predicate WithoutAccident(s: State, steps: seq<Step>)
    requires s.journal.Valid()
    decreases |steps|
  {
    steps == [] ||
    (WithoutAccident(s, steps[..|steps| - 1]) && !Accident(Run(s, steps[..|steps| - 1]), steps[|steps| - 1]))
  }

  predicate ReceiptTrue(s: State, r: Receipt) {
    Denies(r) ==> !DidMove(s, r.admission)
  }

  /** A denial is true, and it is the durable receipt or can no longer become
      false. */
  predicate DenialFits(s: State, r: Receipt) {
    Denies(r) ==>
      && !DidMove(s, r.admission)
      && (|| !MayMove(s.target, r.admission)
          || (&& ReceiptKind in s.journal.durable && ReceiptKind in s.journal.entries
              && s.journal.entries[ReceiptKind] == ReceiptRecord(r)))
  }

  /** The invariant of runs without accident. */
  ghost predicate Truth(s: State) {
    && IntentSafe(s)
    && ((s.phase.Swapping? || s.phase.Checking?) ==> !DidMove(s, s.phase.admission))
    && (s.phase.Retaining? ==> ReceiptTrue(s, s.phase.receipt))
    && (ReceiptKind in s.journal.entries ==> DenialFits(s, s.journal.entries[ReceiptKind].receipt))
    && (forall i :: 0 <= i < |s.retained| ==> DenialFits(s, s.retained[i]))
  }

  lemma TruthStep(s: State, step: Step)
    requires Truth(s) && !Accident(s, step)
    ensures Truth(Apply(s, step))
  {
    IntentStep(s, step);
    match step
    case Update(applied, reported) => if s.phase.Updating? { TruthUpdate(s, applied, reported); }
    case PutIntent(_) => TruthJournal(s, step);
    case PutReceipt(_) => TruthJournal(s, step);
    case MachineCrash(_) => TruthJournal(s, step);
    case OtherWriter(_) => TruthOutside(s, step);
    case ProcessCrash => TruthOutside(s, step);
    case Begin(_, _, _, _) => TruthBegin(s, step);
    case Look(_, _) => TruthLook(s, step);
    case _ => TruthCheck(s, step);
  }

  lemma TruthJournal(s: State, step: Step)
    requires Truth(s) && !Accident(s, step) && IntentSafe(Apply(s, step))
    requires step.PutIntent? || step.PutReceipt? || step.MachineCrash?
    ensures Truth(Apply(s, step))
  {
    hide MayMove;
    assert forall a :: DidMove(s, a) == DidMove(Apply(s, step), a);
  }

  lemma TruthOutside(s: State, step: Step)
    requires Truth(s) && !Accident(s, step) && (step.OtherWriter? || step.ProcessCrash?) && IntentSafe(Apply(s, step))
    ensures Truth(Apply(s, step))
  {
    TargetMoves(s, step);
    hide MayMove, StrictAncestor;
    assert forall a :: DidMove(s, a) == DidMove(Apply(s, step), a);
  }

  lemma TruthBegin(s: State, step: Step)
    requires Truth(s) && step.Begin? && IntentSafe(Apply(s, step))
    ensures Truth(Apply(s, step))
  {
    hide MayMove;
    assert forall a :: DidMove(s, a) == DidMove(Apply(s, step), a);
  }

  lemma TruthCheck(s: State, step: Step)
    requires Truth(s) && (step.Inspect? || step.CheckGrant? || step.CheckGit?) && IntentSafe(Apply(s, step))
    ensures Truth(Apply(s, step))
  {
    hide MayMove;
    var t := Apply(s, step);
    assert forall a :: DidMove(s, a) == DidMove(t, a);
    if s.phase.Recovering? && t.phase.Swapping? && DidMove(s, s.phase.admission) {
      MovedIsPast(s, s.phase.admission);
    }
  }

  lemma TruthLook(s: State, step: Step)
    requires Truth(s) && step.Look? && !Accident(s, step) && IntentSafe(Apply(s, step))
    ensures Truth(Apply(s, step))
  {
    hide MayMove;
    assert forall a :: DidMove(s, a) == DidMove(Apply(s, step), a);
    if s.phase.Inspecting? && DidMove(s, s.phase.admission) {
      MovedIsPast(s, s.phase.admission);
    }
  }

  lemma TruthUpdate(s: State, applied: bool, reported: Option<GitError>)
    requires Truth(s) && s.phase.Updating? && IntentSafe(ApplyUpdate(s, applied, reported))
    ensures Truth(ApplyUpdate(s, applied, reported))
  {
    assert ReceiptKind !in s.journal.entries;
    var (t, a) := (ApplyUpdate(s, applied, reported), s.phase.admission);
    assert t.effects != s.effects ==> MayMove(s.target, a);
    assert Apply(s, Update(applied, reported)) == t;
    TargetMoves(s, Update(applied, reported));
    hide MayMove, StrictAncestor, ApplyUpdate;
    assert forall b :: DidMove(t, b) ==> DidMove(s, b) || (b == a && MayMove(s.target, a));
  }

  lemma {:induction false} TruthRun(target: Commit, steps: seq<Step>)
    requires WithoutAccident(Init(target), steps)
    ensures Truth(Run(Init(target), steps))
    decreases |steps|
  {
    if steps != [] {
      var before := steps[..|steps| - 1];
      TruthRun(target, before);
      TruthStep(Run(Init(target), before), steps[|steps| - 1]);
    }
  }

  /** Without accident, a failed or canceled receipt that was handed over is
      true: the operation did not move the target, nor will it. */
  lemma DenialsAreTrue(target: Commit, steps: seq<Step>)
    requires WithoutAccident(Init(target), steps)
    ensures var s := Run(Init(target), steps);
            forall r :: r in s.retained ==> ReceiptTrue(s, r)
  {
    TruthRun(target, steps);
  }

  // ------------------------------------- each accident does make a denial false

  /** The look after `update-ref` reports a denial of an update that was applied
      exactly when another writer went past the candidate meanwhile. */
  lemma LookDeniesWrongly(s: State, readable: bool, now: nat)
    requires Inv(s) && s.phase.Inspecting? && s.phase.applied
    ensures var t := ApplyLook(s, readable, now);
            Denies(t.phase.receipt) <==> s.phase.reported.Some? && readable && s.target != s.phase.admission.candidate
  {
    MovedIsPast(s, s.phase.admission);
  }

  predicate DeniedAndMoved(s: State, a: Admission) {
    && DidMove(s, a)
    && exists i :: 0 <= i < |s.retained| && Denies(s.retained[i]) && s.retained[i].admission == a
  }

  /** Some run leads from `s` to `t`. */
  ghost predicate Reaches(s: State, t: State)
    requires s.journal.Valid()
  {
    exists steps :: Run(s, steps) == t
  }

  lemma ReachesSelf(s: State)
    requires s.journal.Valid()
    ensures Reaches(s, s)
  {
    assert Run(s, []) == s;
  }

  lemma ReachesOn(s: State, t: State, step: Step)
    requires s.journal.Valid() && t.journal.Valid() && Reaches(s, t)
    ensures Reaches(s, Apply(t, step))
  {
    var steps :| Run(s, steps) == t;
    assert (steps + [step])[..|steps|] == steps;
    assert Run(s, steps + [step]) == Apply(t, step);
  }

  /** Overtaking: from any applied update whose report was an error. */
  lemma OvertakenDenial(s: State, c: Commit)
    requires Inv(s) && s.phase.Inspecting? && s.phase.applied && s.phase.reported.Some?
    requires StrictAncestor(s.target, c) && StrictAncestor(s.phase.admission.candidate, c)
    ensures exists t :: Reaches(s, t) && DeniedAndMoved(t, s.phase.admission)
  {
    hide Run;
    var a := s.phase.admission;
    ReachesSelf(s);
    var s1 := Apply(s, OtherWriter(c));
    ReachesOn(s, s, OtherWriter(c));
    StepKeeps(s, OtherWriter(c));
    AncestorIsShallower(a.candidate, c);
    assert forall b :: DidMove(s, b) == DidMove(s1, b);
    LookDeniesWrongly(s1, true, 1);
    var s2 := Apply(s1, Look(true, 1));
    ReachesOn(s, s1, Look(true, 1));
    var s3 := Apply(s2, PutReceipt(NoFault));
    ReachesOn(s, s2, PutReceipt(NoFault));
    assert s3.retained[|s2.retained|] == s2.phase.receipt;
    assert s3.effects == s.effects;
    assert DeniedAndMoved(s3, a);
  }

  /** An execution is ready to retry `a`, and the effect can still come. */
  ghost predicate Retriable(s: State, a: Admission) {
    && s.journal.Valid()
    && s.phase.Idle? && ReceiptKind !in s.journal.entries && Intent(s) == Some(a) && MayMove(s.target, a)
  }

  /** Another writer brings the target to the expected commit. */
  lemma Approach(s: State, t: State, a: Admission)
    requires s.journal.Valid() && t.journal.Valid() && Reaches(s, t) && MayMove(t.target, a)
    ensures Reaches(s, t.(target := a.expected))
  {
    hide Run, Reaches;
    if t.target != a.expected {
      assert Apply(t, OtherWriter(a.expected)) == t.(target := a.expected);
      ReachesOn(s, t, OtherWriter(a.expected));
    }
  }

  function Retried(s: State, a: Admission): State {
    s.(target := a.candidate, phase := Inspecting(a, true, None),
       effects := s.effects + [Effect(a, IntentKind in s.journal.durable)])
  }

  lemma Retry(s: State, t: State, a: Admission)
    requires s.journal.Valid() && Reaches(s, t) && Retriable(t, a)
    ensures Reaches(s, Retried(t, a))
  {
    hide Run, Reaches;
    Approach(s, t, a);
    var t0 := t.(target := a.expected);
    var t1 := t0.(phase := Recovering(a, true));
    assert Apply(t0, Begin(a, true, true, 1)) == t1;
    ReachesOn(s, t0, Begin(a, true, true, 1));
    var t2 := t0.(phase := Swapping(a));
    assert Apply(t1, Inspect(true, 1)) == t2 by {
      if a.candidate == a.expected { AncestorIsShallower(a.expected, a.candidate); }
    }
    ReachesOn(s, t1, Inspect(true, 1));
    Swap(s, t2, a);
  }

  /** From a written intent the effect follows. */
  lemma Swap(s: State, t: State, a: Admission)
    requires s.journal.Valid() && t.journal.Valid() && Reaches(s, t)
    requires t.phase == Swapping(a) && t.target == a.expected && StrictAncestor(a.expected, a.candidate)
    ensures Reaches(s, Retried(t, a))
  {
    hide Run, Reaches;
    var t3 := t.(phase := Checking(a));
    ReachesOn(s, t, CheckGrant(true, 1));
    var t4 := t.(phase := Updating(a));
    assert Apply(t3, CheckGit(None, true, None, 1)) == t4;
    ReachesOn(s, t3, CheckGit(None, true, None, 1));
    ReachesOn(s, t4, Update(true, None));
  }

  /** Any intent left unsynced while its effect can still come can lead to an
      effect without a durable intent and, once a crash drops it, to a false denial. */
  lemma UnsyncedIntentMisleads(s: State, a: Admission)
    requires Inv(s) && Retriable(s, a) && IntentKind !in s.journal.durable
    ensures exists t :: Reaches(s, t) && DeniedAndMoved(t, a) && Effect(a, false) in t.effects
  {
    hide Run, Reaches;
    ReachesSelf(s);
    Retry(s, s, a);
    var t := Retried(s, a);
    assert t.effects[|s.effects|] == Effect(a, false);
    var t1 := Apply(t, MachineCrash(s.journal.durable));
    ReachesOn(s, t, MachineCrash(s.journal.durable));
    var t2 := Apply(t1, Begin(a, true, false, 1));
    ReachesOn(s, t1, Begin(a, true, false, 1));
    assert t2.phase == Retaining(Receipt(a, Failed, LocalAuthorityUnavailable, 1));
    var t3 := Apply(t2, PutReceipt(NoFault));
    ReachesOn(s, t2, PutReceipt(NoFault));
    assert t3.retained[|t2.retained|] == t2.phase.receipt;
    assert t3.effects == t.effects;
    assert DeniedAndMoved(t3, a);
  }

  /** Any denial left unsynced while the effect can still come can be handed
      over, lost in a crash, and then be made false by a retry. */
  lemma UnsyncedReceiptMisleads(s: State, r: Receipt)
    requires Inv(s) && s.phase.Idle? && (IntentKind in s.journal.durable ==> Intent(s) == Some(r.admission))
    requires ReceiptKind in s.journal.entries && s.journal.entries[ReceiptKind] == ReceiptRecord(r)
    requires ReceiptKind !in s.journal.durable && Denies(r) && MayMove(s.target, r.admission)
    ensures exists t :: Reaches(s, t) && DeniedAndMoved(t, r.admission)
  {
    hide Run, Reaches;
    var a := r.admission;
    ReachesSelf(s);
    var t1 := Apply(s, Begin(a, true, true, 1));
    ReachesOn(s, s, Begin(a, true, true, 1));
    var t2 := Apply(t1, MachineCrash(s.journal.durable));
    ReachesOn(s, t1, MachineCrash(s.journal.durable));
    if IntentKind in s.journal.durable {
      Retry(s, t2, a);
      MovedAfterDenial(s, Retried(t2, a), r);
    } else {
      Approach(s, t2, a);
      var t3 := t2.(target := a.expected);
      var t4 := Apply(t3, Begin(a, true, true, 1));
      ReachesOn(s, t3, Begin(a, true, true, 1));
      var t5 := Apply(t4, PutIntent(NoFault));
      ReachesOn(s, t4, PutIntent(NoFault));
      Swap(s, t5, a);
      MovedAfterDenial(s, Retried(t5, a), r);
    }
  }

  lemma MovedAfterDenial(s: State, t: State, r: Receipt)
    requires Denies(r) && t.retained == s.retained + [r]
    requires |t.effects| == |s.effects| + 1 && t.effects[|s.effects|].admission == r.admission
    ensures DeniedAndMoved(t, r.admission)
  {
    assert t.retained[|s.retained|] == r;
  }

  /** Each accident makes a false denial possible, from whatever state it
      happens in. */
  lemma AccidentMisleads(s: State, step: Step)
    requires Inv(s) && Accident(s, step)
    ensures exists t, a :: Reaches(Apply(s, step), t) && DeniedAndMoved(t, a)
  {
    var t := Apply(s, step);
    StepKeeps(s, step);
    if LosesIntent(s, step) {
      assert Retriable(t, s.phase.admission);
      UnsyncedIntentMisleads(t, s.phase.admission);
    } else if LosesDenial(s, step) {
      UnsyncedReceiptMisleads(t, s.phase.receipt);
    } else {
      LookDeniesWrongly(s, true, step.now);
      ReachesSelf(t);
      ReachesOn(t, t, PutReceipt(NoFault));
      var u := Apply(t, PutReceipt(NoFault));
      assert u.effects == s.effects && u.retained[|t.retained|] == t.phase.receipt;
      assert DeniedAndMoved(u, s.phase.admission);
    }
  }

  /** Both starting points are reachable: one failed sync is enough. */
  lemma UnsyncedIntentIsReachable(a: Admission)
    requires StrictAncestor(a.expected, a.candidate)
    ensures exists s :: Reaches(Init(a.expected), s) && Inv(s) && Retriable(s, a) && IntentKind !in s.journal.durable
  {
    hide Run, Reaches;
    var s := Init(a.expected);
    ReachesSelf(s);
    var s1 := Apply(s, Begin(a, true, true, 1));
    ReachesOn(s, s, Begin(a, true, true, 1));
    StepKeeps(s, Begin(a, true, true, 1));
    var s2 := Apply(s1, PutIntent(FailsAfterLink));
    ReachesOn(s, s1, PutIntent(FailsAfterLink));
    StepKeeps(s1, PutIntent(FailsAfterLink));
    assert Retriable(s2, a);
  }

  lemma UnsyncedReceiptIsReachable(a: Admission)
    ensures exists s ::
              && Reaches(Init(a.expected), s) && Inv(s) && s.phase.Idle?
              && IntentKind in s.journal.durable && Intent(s) == Some(a) && s.target == a.expected
              && ReceiptKind in s.journal.entries && ReceiptKind !in s.journal.durable
              && s.journal.entries[ReceiptKind] == ReceiptRecord(Receipt(a, Failed, LocalAuthorityUnavailable, 1))
  {
    hide Run, Reaches;
    var s := Init(a.expected);
    ReachesSelf(s);
    var s1 := Apply(s, Begin(a, true, true, 1));
    ReachesOn(s, s, Begin(a, true, true, 1));
    StepKeeps(s, Begin(a, true, true, 1));
    var s2 := Apply(s1, PutIntent(NoFault));
    ReachesOn(s, s1, PutIntent(NoFault));
    StepKeeps(s1, PutIntent(NoFault));
    var s3 := Apply(s2, CheckGrant(false, 1));
    ReachesOn(s, s2, CheckGrant(false, 1));
    StepKeeps(s2, CheckGrant(false, 1));
    var s4 := Apply(s3, PutReceipt(FailsAfterLink));
    ReachesOn(s, s3, PutReceipt(FailsAfterLink));
    StepKeeps(s3, PutReceipt(FailsAfterLink));
    assert s4.phase.Idle? && Intent(s4) == Some(a);
  }

  /** An applied update with a reported error is reachable for every admission
      that is a fast-forward. */
  lemma OvertakableIsReachable(a: Admission)
    requires StrictAncestor(a.expected, a.candidate)
    ensures exists s ::
              && Reaches(Init(a.expected), s) && Inv(s) && s.target == a.candidate
              && s.phase == Inspecting(a, true, Some(OtherError))
  {
    hide Run, Reaches;
    var s := Init(a.expected);
    ReachesSelf(s);
    var s1 := Apply(s, Begin(a, true, true, 1));
    ReachesOn(s, s, Begin(a, true, true, 1));
    StepKeeps(s, Begin(a, true, true, 1));
    var s2 := Apply(s1, PutIntent(NoFault));
    ReachesOn(s, s1, PutIntent(NoFault));
    StepKeeps(s1, PutIntent(NoFault));
    ReachesUpdate(s, s2, a);
  }

  lemma ReachesUpdate(s: State, t: State, a: Admission)
    requires s.journal.Valid() && Reaches(s, t) && Inv(t)
    requires t.phase == Swapping(a) && t.target == a.expected && StrictAncestor(a.expected, a.candidate)
    ensures exists u ::
              && Reaches(s, u) && Inv(u) && u.target == a.candidate
              && u.phase == Inspecting(a, true, Some(OtherError))
  {
    hide Run, Reaches;
    var t1 := Apply(t, CheckGrant(true, 1));
    ReachesOn(s, t, CheckGrant(true, 1));
    StepKeeps(t, CheckGrant(true, 1));
    var t2 := Apply(t1, CheckGit(None, true, None, 1));
    ReachesOn(s, t1, CheckGit(None, true, None, 1));
    StepKeeps(t1, CheckGit(None, true, None, 1));
    assert t2.phase == Updating(a);
    var t3 := Apply(t2, Update(true, Some(OtherError)));
    ReachesOn(s, t2, Update(true, Some(OtherError)));
    StepKeeps(t2, Update(true, Some(OtherError)));
    assert t3.phase == Inspecting(a, true, Some(OtherError));
  }

  /** Any receipt left unsynced can be handed over, lost in a crash and followed
      by a different one. */
  lemma UnsyncedReceiptIsFollowed(s: State, r: Receipt, a: Admission)
    requires Inv(s) && s.phase.Idle? && (IntentKind in s.journal.durable ==> Intent(s) == Some(a))
    requires ReceiptKind in s.journal.entries && s.journal.entries[ReceiptKind] == ReceiptRecord(r)
    requires ReceiptKind !in s.journal.durable
    ensures exists t :: Reaches(s, t) && exists i, k :: 0 <= i < k < |t.retained| && t.retained[i] != t.retained[k]
  {
    hide Run, Reaches;
    var later := r.recordedAt + 1;
    ReachesSelf(s);
    var t1 := Apply(s, Begin(a, false, false, later));
    ReachesOn(s, s, Begin(a, false, false, later));
    assert t1.retained[|s.retained|] == r;
    var t2 := Apply(t1, MachineCrash(s.journal.durable));
    ReachesOn(s, t1, MachineCrash(s.journal.durable));
    var t3 := Apply(t2, Begin(a, false, false, later));
    ReachesOn(s, t2, Begin(a, false, false, later));
    var t4 := Apply(t3, Inspect(true, later));
    ReachesOn(s, t3, Inspect(true, later));
    assert t4.phase.Retaining? && t4.phase.receipt.recordedAt == later && t4.retained == t1.retained;
    var t5 := Apply(t4, PutReceipt(NoFault));
    ReachesOn(s, t4, PutReceipt(NoFault));
    assert t5.retained == t1.retained + [t4.phase.receipt];
    assert t5.retained[|s.retained|] != t5.retained[|s.retained| + 1];
  }
}
