/**
 The integration coordinator: intent, compare-and-swap, receipt.

 One operation is executed any number of times, one execution at a time (the
 data directory has one owner), with other writers moving the target and
 crashes at every step.  The contract taken for Git: a commit is its ancestry;
 other writers only fast-forward the target; `update-ref` moves the target from
 the expected commit to the candidate atomically or not at all before the
 execution goes on or dies, may report an error either way and reports success
 only if it moved it; a moved target survives crashes.
 */
module IntegrationProtocol {
  import opened Wrappers
  import opened DurableDirectory

  // ---------------------------------------------------------------- commits

  /** A commit is determined by its content and its parents, so the graph is
      acyclic. */
  datatype Commit = Commit(content: nat, parents: seq<Commit>)

  predicate StrictAncestor(a: Commit, c: Commit) {
    exists i :: 0 <= i < |c.parents| && (c.parents[i] == a || StrictAncestor(a, c.parents[i]))
  }

  ghost function Depth(c: Commit): nat
    decreases c, |c.parents| + 1
  {
    1 + DepthOfFirst(c, |c.parents|)
  }

  /** The greatest depth among the first `n` parents. */
  ghost function DepthOfFirst(c: Commit, n: nat): (d: nat)
    requires n <= |c.parents|
    ensures forall i :: 0 <= i < n ==> Depth(c.parents[i]) <= d
    decreases c, n
  {
    if n == 0 then 0
    else
      var (last, rest) := (Depth(c.parents[n - 1]), DepthOfFirst(c, n - 1));
      if last > rest then last else rest
  }

  lemma {:induction false} AncestorIsShallower(a: Commit, c: Commit)
    requires StrictAncestor(a, c)
    ensures Depth(a) < Depth(c)
    decreases c
  {
    var i :| 0 <= i < |c.parents| && (c.parents[i] == a || StrictAncestor(a, c.parents[i]));
    if c.parents[i] != a {
      AncestorIsShallower(a, c.parents[i]);
    }
  }

  lemma {:induction false} AncestorsChain(a: Commit, b: Commit, c: Commit)
    requires StrictAncestor(a, b) && StrictAncestor(b, c)
    ensures StrictAncestor(a, c)
    decreases c
  {
    var i :| 0 <= i < |c.parents| && (c.parents[i] == b || StrictAncestor(b, c.parents[i]));
    if c.parents[i] != b {
      AncestorsChain(a, b, c.parents[i]);
    }
  }

  // ----------------------------------------------------------------- records

  datatype Admission = Admission(expected: Commit, candidate: Commit, approval: nat)

  datatype Outcome = Succeeded | Failed | Canceled | Unknown

  datatype Code =
    | NoCode | LocalAuthorityUnavailable | RecoveryUnavailable | TargetOutcomeUnknown
    | IntegrationCanceled | TargetMoved | TargetCheckedOut | NonFastForward | LocalEffectFailed

  datatype Receipt = Receipt(admission: Admission, outcome: Outcome, code: Code, recordedAt: nat)

  datatype Kind = IntentKind | ReceiptKind

  datatype Record = IntentRecord(admission: Admission) | ReceiptRecord(receipt: Receipt)

  type Journal = Directory<Kind, Record>

  /** `ensure`: an equal record that already exists only has to be synced. */
  function Ensure(j: Journal, kind: Kind, record: Record, fault: Fault): (r: (Journal, bool))
    requires j.Valid()
    ensures r.0.Valid()
    ensures r.1 ==> kind in r.0.durable && r.0.entries[kind] == record
    ensures forall k :: k in j.entries ==> k in r.0.entries && r.0.entries[k] == j.entries[k]
    ensures forall k :: k in r.0.entries && k !in j.entries ==> k == kind && r.0.entries[k] == record
    ensures j.durable <= r.0.durable
  {
    if kind !in j.entries then
      var (j', w) := WriteExclusive(j, kind, record, fault);
      (j', w == Written)
    else if j.entries[kind] != record || fault != NoFault then (j, false)
    else (j.(durable := j.entries.Keys), true)
  }

  /** The errors the Git primitive reports. */
  datatype GitError = ContextEnded | Moved | CheckedOut | NotFastForward | OutcomeLost | OtherError

  /** `integrationFailure`. */
  function Classify(e: GitError): (r: (Outcome, Code)) {
    match e
    case ContextEnded => (Canceled, IntegrationCanceled)
    case Moved => (Failed, TargetMoved)
    case CheckedOut => (Failed, TargetCheckedOut)
    case NotFastForward => (Failed, NonFastForward)
    case OutcomeLost => (Unknown, TargetOutcomeUnknown)
    case OtherError => (Failed, LocalEffectFailed)
  }

  // ------------------------------------------------------------------- state

  /** Where the current execution stands. */
  datatype Phase =
    | Idle
    | Planning(admission: Admission)                      // before PutIntent
    | Recovering(admission: Admission, sourceFound: bool) // before the inspection
    | Swapping(admission: Admission)                      // before the grant check of the CAS
    | Checking(admission: Admission)                      // inside Git, before update-ref
    | Updating(admission: Admission)                      // about to run update-ref
    | Inspecting(admission: Admission, applied: bool, reported: Option<GitError>) // after update-ref
    | Retaining(receipt: Receipt)                         // before PutReceipt

  /** The target moved by this operation. */
  datatype Effect = Effect(admission: Admission, intentDurable: bool)

  datatype State = State(
    target: Commit, journal: Journal, phase: Phase,
    effects: seq<Effect>, retained: seq<Receipt>)

  datatype Step =
    | Begin(admission: Admission, sourceFound: bool, grantOk: bool, now: nat)
    | PutIntent(fault: Fault)
    | Inspect(readable: bool, now: nat)
    | CheckGrant(grantOk: bool, now: nat)
    | CheckGit(early: Option<GitError>, readable: bool, late: Option<GitError>, now: nat)
    | Update(applied: bool, reported: Option<GitError>)
    | Look(readable: bool, now: nat)
    | PutReceipt(fault: Fault)
    | OtherWriter(commit: Commit)
    | ProcessCrash
    | MachineCrash(kept: set<Kind>)

  function Init(target: Commit): (s: State)
    ensures s.journal.Valid()
  {
    State(target, Directory(map[], {}, 0), Idle, [], [])
  }

  function Intent(s: State): (r: Option<Admission>) {
    if IntentKind in s.journal.entries && s.journal.entries[IntentKind].IntentRecord?
    then Some(s.journal.entries[IntentKind].admission) else None
  }

  function Conclude(s: State, a: Admission, outcome: Outcome, code: Code, now: nat): (t: State)
    ensures t == s.(phase := Retaining(Receipt(a, outcome, code, now)))
  {
    s.(phase := Retaining(Receipt(a, outcome, code, now)))
  }

  function Fail(s: State, a: Admission, e: GitError, now: nat): (t: State)
    ensures t == s.(phase := Retaining(Receipt(a, Classify(e).0, Classify(e).1, now)))
  {
    Conclude(s, a, Classify(e).0, Classify(e).1, now)
  }

  /** `Execute` up to its first effect. */
  function ApplyBegin(s: State, a: Admission, sourceFound: bool, grantOk: bool, now: nat): (t: State)
    requires s.phase.Idle?
  {
    if ReceiptKind in s.journal.entries then
      (if s.journal.entries[ReceiptKind].ReceiptRecord?
       then s.(retained := s.retained + [s.journal.entries[ReceiptKind].receipt]) else s)
    else if IntentKind in s.journal.entries then
      (if s.journal.entries[IntentKind] != IntentRecord(a) || now == 0 then s
       else s.(phase := Recovering(a, sourceFound)))
    else if now == 0 then s
    else if !sourceFound || !grantOk then Conclude(s, a, Failed, LocalAuthorityUnavailable, now)
    else s.(phase := Planning(a))
  }

  /** `recoverOrExecute`. */
  function ApplyInspect(s: State, readable: bool, now: nat): (t: State)
    requires s.phase.Recovering?
  {
    var a := s.phase.admission;
    if !s.phase.sourceFound || !readable then Conclude(s, a, Unknown, RecoveryUnavailable, now)
    else if s.target == a.candidate then Conclude(s, a, Succeeded, NoCode, now)
    else if s.target != a.expected then Conclude(s, a, Unknown, TargetOutcomeUnknown, now)
    else s.(phase := Swapping(a))
  }

  /** Everything the Git primitive checks before it updates the ref: `early`
      problems are met before the target is read, `late` ones after. */
  function ApplyCheckGit(s: State, early: Option<GitError>, readable: bool, late: Option<GitError>,
      now: nat): (t: State)
    requires s.phase.Checking?
  {
    var a := s.phase.admission;
    if early.Some? then Fail(s, a, early.value, now)
    else if !readable || s.target != a.expected then Fail(s, a, Moved, now)
    else if late.Some? then Fail(s, a, late.value, now)
    else if !StrictAncestor(a.expected, a.candidate) then Fail(s, a, NotFastForward, now)
    else s.(phase := Updating(a))
  }

  /** `update-ref target candidate expected`. */
  function ApplyUpdate(s: State, applied: bool, reported: Option<GitError>): (t: State)
    requires s.phase.Updating? && s.journal.Valid()
  {
    var a := s.phase.admission;
    if applied && s.target == a.expected
    then s.(target := a.candidate, phase := Inspecting(a, true, reported),
            effects := s.effects + [Effect(a, IntentKind in s.journal.durable)])
    else s.(phase := Inspecting(a, false, if reported.Some? then reported else Some(OtherError)))
  }

  /** The look at the target after `update-ref`. */
  function ApplyLook(s: State, readable: bool, now: nat): (t: State)
    requires s.phase.Inspecting?
  {
    var a := s.phase.admission;
    if s.phase.reported.None? then
      (if readable && s.target == a.candidate then Conclude(s, a, Succeeded, NoCode, now)
        else Fail(s, a, OutcomeLost, now))
    else if !readable then Fail(s, a, OutcomeLost, now)
    else if s.target == a.candidate then Conclude(s, a, Succeeded, NoCode, now)
    else if s.target == a.expected then Fail(s, a, s.phase.reported.value, now)
    else Fail(s, a, Moved, now)
  }

  function Apply(s: State, step: Step): (t: State)
    requires s.journal.Valid()
    ensures t.journal.Valid()
  {
    match step
    case Begin(a, sourceFound, grantOk, now) => if s.phase.Idle? then ApplyBegin(s, a, sourceFound, grantOk, now) else s
    case PutIntent(fault) =>
      if !s.phase.Planning? then s
      else
        var (j, ok) := Ensure(s.journal, IntentKind, IntentRecord(s.phase.admission), fault);
        s.(journal := j, phase := if ok then Swapping(s.phase.admission) else Idle)
    case Inspect(readable, now) => if s.phase.Recovering? then ApplyInspect(s, readable, now) else s
    case CheckGrant(grantOk, now) =>
      if !s.phase.Swapping? then s
      else if !grantOk then Conclude(s, s.phase.admission, Failed, LocalAuthorityUnavailable, now)
      else s.(phase := Checking(s.phase.admission))
    case CheckGit(early, readable, late, now) =>
      if s.phase.Checking? then ApplyCheckGit(s, early, readable, late, now) else s
    case Update(applied, reported) => if s.phase.Updating? then ApplyUpdate(s, applied, reported) else s
    case Look(readable, now) => if s.phase.Inspecting? then ApplyLook(s, readable, now) else s
    case PutReceipt(fault) =>
      if !s.phase.Retaining? then s
      else
        var (j, ok) := Ensure(s.journal, ReceiptKind, ReceiptRecord(s.phase.receipt), fault);
        if ok then s.(journal := j, phase := Idle, retained := s.retained + [s.phase.receipt])
        else s.(journal := j, phase := Idle)
    case OtherWriter(c) => if StrictAncestor(s.target, c) then s.(target := c) else s
    case ProcessCrash => s.(phase := Idle)
    case MachineCrash(kept) =>
      if s.journal.durable <= kept <= s.journal.entries.Keys
      then s.(phase := Idle, journal := AfterCrash(s.journal, kept, 0)) else s
  }

  function Run(s: State, steps: seq<Step>): (t: State)
    requires s.journal.Valid()
    ensures t.journal.Valid()
    decreases |steps|
  {
    if steps == [] then s else Apply(Run(s, steps[..|steps| - 1]), steps[|steps| - 1])
  }

  /** This operation moved the target under admission `a`. */
  predicate DidMove(s: State, a: Admission) {
    exists i :: 0 <= i < |s.effects| && s.effects[i].admission == a
  }

  /** Failed and canceled promise that the operation did not move the target. */
  predicate Denies(r: Receipt) {
    r.outcome == Failed || r.outcome == Canceled
  }
}
