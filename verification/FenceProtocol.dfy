/**
 Every run of the fence: interleaved calls, store restarts and crashes.

 `Apply` is total, so a run is any sequence of steps.  A critical section is one
 step because the store's mutex covers it; a crash inside a section is the step
 with a failing `fault` followed by a crash step, which forgets the caller.
 */
module FenceProtocol {
  import opened Wrappers
  import opened DurableDirectory
  import opened RuntimeFence

  /** A `Start` call between its two critical sections. */
  datatype Call = Call(store: nat, observed: View, expected: Digest, authorizedAt: Option<Time>)

  datatype Event =
    | Authorized(call: nat, spec: Spec, at: Time)
    | Invoked(call: nat, spec: Spec, admission: Digest, start: Digest)

  datatype State = State(
    owner: Owner, journal: Journal, store: nat, open: bool,
    calls: map<nat, Call>, nextCall: nat, history: seq<Event>)

  datatype Step =
    | OpenStore
    | CloseStore
    | ClaimRun(spec: Spec, now: Time, claimFault: Fault)
    | Observe(run: Id, expected: Digest)
    | Authorize(call: nat, allowed: bool, at: Time)
    | Commit(call: nat, commitFault: Fault)
    | StopRun(run: Id, expected: Digest, start: Digest, outcome: Outcome, now: Time, stopFault: Fault)
    | RecoverRun(run: Id, now: Time, recoverFault: Fault)
    | ProcessCrash(leftover: nat)
    | MachineCrash(kept: set<Name>, leftover: nat)

  function Init(owner: Owner): (s: State)
    ensures s.journal.Valid()
  {
    State(owner, Directory(map[], {}, 0), 0, false, map[], 0, [])
  }

  function Apply(s: State, step: Step): (t: State)
    requires s.journal.Valid()
    ensures t.journal.Valid() && t.owner == s.owner
    ensures s.history <= t.history
  {
    match step
    case OpenStore => if s.open then s else s.(open := true, store := s.store + 1)
    case CloseStore => s.(open := false)
    case ClaimRun(spec, now, fault) =>
      if s.open then s.(journal := ClaimSection(s.journal, s.owner, spec, now, fault).0) else s
    case Observe(run, expected) => ApplyObserve(s, run, expected)
    case Authorize(call, allowed, at) => ApplyAuthorize(s, call, allowed, at)
    case Commit(call, fault) => ApplyCommit(s, call, fault)
    case StopRun(run, expected, start, outcome, now, fault) =>
      if s.open then s.(journal := StopSection(s.journal, s.owner, run, expected, start, outcome, now, fault).0) else s
    case RecoverRun(run, now, fault) =>
      if s.open then s.(journal := RecoverRunSection(s.journal, s.owner, run, now, fault)) else s
    case ProcessCrash(leftover) =>
      s.(open := false, calls := map[], journal := s.journal.(pending := s.journal.pending + leftover))
    case MachineCrash(kept, leftover) =>
      if s.journal.durable <= kept <= s.journal.entries.Keys
      then s.(open := false, calls := map[], journal := AfterCrash(s.journal, kept, leftover))
      else s
  }

  /** `Start` up to the authority callback; only a claimed run asks it. */
  function ApplyObserve(s: State, run: Id, expected: Digest): (t: State)
  {
    var view := StartObserveSection(s.journal, s.owner, run, expected);
    if s.open && view.Ok? && view.value.state == Claimed
    then s.(calls := s.calls[s.nextCall := Call(s.store, view.value, expected, None)], nextCall := s.nextCall + 1)
    else s
  }

  /** The unlocked authority callback and the clock reading after it. */
  function ApplyAuthorize(s: State, call: nat, allowed: bool, at: Time): (t: State)
  {
    if call !in s.calls || s.calls[call].authorizedAt.Some? then s
    else if !allowed then s.(calls := s.calls - {call})
    else s.(calls := s.calls[call := s.calls[call].(authorizedAt := Some(at))],
            history := s.history + [Authorized(call, s.calls[call].observed.spec, at)])
  }

  /** `Start` from its second lock to its return. */
  function ApplyCommit(s: State, call: nat, fault: Fault): (t: State)
    requires s.journal.Valid()
  {
    if call !in s.calls || s.calls[call].authorizedAt.None? then s
    else
      var c := s.calls[call];
      var returned := s.(calls := s.calls - {call});
      if !s.open || c.store != s.store then returned
      else
        var (j, r) := StartCommitSection(s.journal, s.owner, c.observed, c.expected, c.authorizedAt.value, fault);
        if r.Ok? && r.value.invoke && r.value.view.start.Some?
        then returned.(journal := j, history := s.history
          + [Invoked(call, r.value.view.spec, r.value.view.admission, r.value.view.start.value)])
        else returned.(journal := j)
  }

  function RecoverRunSection(j: Journal, owner: Owner, run: Id, now: Time, fault: Fault): (j': Journal)
    requires j.Valid()
    ensures j'.Valid()
  {
    var view := Get(j, owner, run);
    if now != ZERO_TIME && view.Ok? && view.value.state == Starting
    then RecoverSection(j, owner, view.value, now, fault).0
    else j
  }

  /** The state after a sequence of steps. */
  function Run(s: State, steps: seq<Step>): (t: State)
    requires s.journal.Valid()
    ensures t.journal.Valid() && t.owner == s.owner
    decreases |steps|
  {
    if steps == [] then s else Apply(Run(s, steps[..|steps| - 1]), steps[|steps| - 1])
  }

  // ------------------------------------------------------- journal invariant

  /** Each name holds a record of its stage. */
  ghost predicate TypedRecord(n: Name, record: Record, owner: Owner) {
    match n.stage
    case Claimed => ClaimReadable(record, owner, n.run)
    case Starting =>
      record.StartRecord? && record.version == 2 && record.run == n.run && record.authorityCheckedAt.Some?
    case Stopped =>
      record.StopRecord? && record.version == 3 && record.run == n.run && ValidOutcome(record.outcome)
      && record.stoppedAt.Some?
  }

  ghost predicate Typed(j: Journal, owner: Owner) {
    forall n :: n in j.entries ==> TypedRecord(n, j.entries[n], owner)
  }

  /** Digests chain wherever both ends are present. */
  ghost predicate RunChained(j: Journal, owner: Owner, run: Id)
    requires Typed(j, owner)
  {
    var (claim, start, stop) := (Name(run, Claimed), Name(run, Starting), Name(run, Stopped));
    && (claim in j.entries && start in j.entries ==> j.entries[start].admission == Digest(j.entries[claim]))
    && (claim in j.entries && stop in j.entries ==> j.entries[stop].admission == Digest(j.entries[claim]))
    && (start in j.entries && stop in j.entries ==>
          && j.entries[stop].start == Digest(j.entries[start])
          && j.entries[start].authorityCheckedAt.value <= j.entries[stop].stoppedAt.value)
  }

  ghost predicate Chained(j: Journal, owner: Owner)
    requires Typed(j, owner)
  {
    forall run :: RunChained(j, owner, run)
  }

  ghost predicate IsClaimed(j: Journal, run: Id) {
    Name(run, Claimed) in j.entries
  }

  ghost function ClaimSpec(j: Journal, owner: Owner, run: Id): Spec
    requires Typed(j, owner) && IsClaimed(j, run)
  {
    j.entries[Name(run, Claimed)].spec
  }

  /** No two claims share a workspace generation, identity or operation. */
  ghost predicate Exclusive(j: Journal, owner: Owner)
    requires Typed(j, owner)
  {
    forall a, b :: IsClaimed(j, a) && IsClaimed(j, b) && a != b ==>
      !Clashes(ClaimSpec(j, owner, a), ClaimSpec(j, owner, b))
  }

  ghost predicate JournalInv(j: Journal, owner: Owner) {
    && j.Valid() && Typed(j, owner) && Chained(j, owner) && Exclusive(j, owner)
    && |Claims(j)| <= MAX_RUNTIME_ADMISSIONS
  }

  /** `Get` of a claimed run gives its claim's spec. */
  lemma GetReadsClaim(j: Journal, owner: Owner, run: Id)
    requires Typed(j, owner)
    requires Get(j, owner, run).Ok?
    ensures IsClaimed(j, run) && Get(j, owner, run).value.spec == ClaimSpec(j, owner, run)
  {
  }

  lemma ClaimKeeps(j: Journal, owner: Owner, spec: Spec, now: Time, fault: Fault)
    requires JournalInv(j, owner)
    ensures JournalInv(ClaimSection(j, owner, spec, now, fault).0, owner)
  {
    var j' := ClaimSection(j, owner, spec, now, fault).0;
    if j'.entries != j.entries {
      ClaimChecked(j, owner, spec, now);
      hide ClaimAnswer, Chained, Exclusive, Get, List;
      AddClaim(j, j', owner, ClaimRecord(1, owner, spec, Some(now)));
    } else {
      hide ClaimAnswer, Get, List;
      SameEntries(j, j', owner);
    }
  }

  lemma SameEntries(j: Journal, j': Journal, owner: Owner)
    requires JournalInv(j, owner) && j'.Valid() && j'.entries == j.entries
    ensures JournalInv(j', owner)
  {
    assert Claims(j') == Claims(j);
    forall run ensures RunChained(j', owner, run) {
      assert RunChained(j, owner, run);
    }
    forall a, b | IsClaimed(j', a) && IsClaimed(j', b) && a != b
      ensures !Clashes(ClaimSpec(j', owner, a), ClaimSpec(j', owner, b))
    {
      assert IsClaimed(j, a) && IsClaimed(j, b);
    }
  }

  ghost predicate AddsClaim(j: Journal, j': Journal, owner: Owner, claim: Record) {
    && JournalInv(j, owner) && j'.Valid()
    && claim.ClaimRecord? && ClaimReadable(claim, owner, claim.spec.run)
    && Name(claim.spec.run, Claimed) !in j.entries
    && j'.entries == j.entries[Name(claim.spec.run, Claimed) := claim]
  }

  lemma AddClaim(j: Journal, j': Journal, owner: Owner, claim: Record)
    requires AddsClaim(j, j', owner, claim)
    requires PrefixClosed(j.entries.Keys) && |Claims(j)| < MAX_RUNTIME_ADMISSIONS
    requires forall a :: IsClaimed(j, a) ==> !Clashes(ClaimSpec(j, owner, a), claim.spec)
    ensures JournalInv(j', owner)
  {
    AddClaimChained(j, j', owner, claim);
    AddClaimExclusive(j, j', owner, claim);
    AddClaimCount(j, j', claim.spec.run);
  }

  lemma AddClaimCount(j: Journal, j': Journal, run: Id)
    requires j'.entries.Keys == j.entries.Keys + {Name(run, Claimed)}
    ensures |Claims(j')| <= |Claims(j)| + 1
  {
    assert Claims(j') == Claims(j) + {Name(run, Claimed)};
  }

  lemma AddClaimChained(j: Journal, j': Journal, owner: Owner, claim: Record)
    requires AddsClaim(j, j', owner, claim) && PrefixClosed(j.entries.Keys)
    ensures Typed(j', owner) && Chained(j', owner)
  {
    assert Name(claim.spec.run, Starting) !in j.entries && Name(claim.spec.run, Stopped) !in j.entries;
    forall run
      ensures RunChained(j', owner, run)
    {
      assert RunChained(j, owner, run);
    }
  }

  lemma AddClaimExclusive(j: Journal, j': Journal, owner: Owner, claim: Record)
    requires AddsClaim(j, j', owner, claim) && Typed(j', owner)
    requires forall a :: IsClaimed(j, a) ==> !Clashes(ClaimSpec(j, owner, a), claim.spec)
    ensures Exclusive(j', owner)
  {
    forall a, b | IsClaimed(j', a) && IsClaimed(j', b) && a != b
      ensures !Clashes(ClaimSpec(j', owner, a), ClaimSpec(j', owner, b))
    {
      assert a != claim.spec.run ==> IsClaimed(j, a);
      assert b != claim.spec.run ==> IsClaimed(j, b);
    }
  }

  /** What a claim that is about to write has checked. */
  lemma ClaimChecked(j: Journal, owner: Owner, spec: Spec, now: Time)
    requires Typed(j, owner)
    requires ClaimAnswer(j, owner, spec, now).None?
    ensures PrefixClosed(j.entries.Keys) && |Claims(j)| < MAX_RUNTIME_ADMISSIONS
    ensures forall a :: IsClaimed(j, a) ==> !Clashes(ClaimSpec(j, owner, a), spec)
  {
    forall a | IsClaimed(j, a)
      ensures !Clashes(ClaimSpec(j, owner, a), spec)
    {
      ListReadsClaim(j, owner, a);
    }
    assert |List(j, owner).value.Keys| == |List(j, owner).value|;
  }

  lemma ListReadsClaim(j: Journal, owner: Owner, run: Id)
    requires Typed(j, owner) && List(j, owner).Ok? && IsClaimed(j, run)
    ensures Name(run, Claimed) in List(j, owner).value
    ensures List(j, owner).value[Name(run, Claimed)].spec == ClaimSpec(j, owner, run)
    ensures Get(j, owner, run) == Ok(List(j, owner).value[Name(run, Claimed)])
  {
    var readings := Readings(j, owner);
    assert Name(run, Claimed) in readings && readings[Name(run, Claimed)].Ok?;
    GetReadsClaim(j, owner, run);
  }

  /** Fewer claims clash less. */
  lemma FewerClaims(j: Journal, j': Journal, owner: Owner)
    requires Typed(j, owner) && Exclusive(j, owner) && Typed(j', owner)
    requires forall n :: n in Claims(j') ==> n in j.entries && j'.entries[n] == j.entries[n]
    ensures Exclusive(j', owner)
    ensures |Claims(j')| <= |Claims(j)|
  {
    SubsetSize(Claims(j'), Claims(j));
    forall a, b | IsClaimed(j', a) && IsClaimed(j', b) && a != b
      ensures !Clashes(ClaimSpec(j', owner, a), ClaimSpec(j', owner, b))
    {
      assert Name(a, Claimed) in Claims(j') && Name(b, Claimed) in Claims(j');
      assert IsClaimed(j, a) && IsClaimed(j, b);
    }
  }

  lemma SubsetSize<T>(a: set<T>, b: set<T>)
    requires a <= b
    ensures |a| <= |b|
  {
    assert b == a + (b - a);
  }

  lemma AddStart(j: Journal, j': Journal, owner: Owner, run: Id, start: Record)
    requires JournalInv(j, owner) && j'.Valid()
    requires Name(run, Claimed) in j.entries && Name(run, Starting) !in j.entries && Name(run, Stopped) !in j.entries
    requires TypedRecord(Name(run, Starting), start, owner) && start.admission == Digest(j.entries[Name(run, Claimed)])
    requires j'.entries == j.entries[Name(run, Starting) := start]
    ensures JournalInv(j', owner)
  {
    forall other
      ensures RunChained(j', owner, other)
    {
      assert RunChained(j, owner, other);
    }
    FewerClaims(j, j', owner);
  }

  lemma AddStop(j: Journal, j': Journal, owner: Owner, run: Id, stop: Record)
    requires JournalInv(j, owner) && j'.Valid()
    requires Name(run, Claimed) in j.entries && Name(run, Starting) in j.entries && Name(run, Stopped) !in j.entries
    requires TypedRecord(Name(run, Stopped), stop, owner)
    requires stop.admission == Digest(j.entries[Name(run, Claimed)])
    requires stop.start == Digest(j.entries[Name(run, Starting)])
    requires j.entries[Name(run, Starting)].authorityCheckedAt.value <= stop.stoppedAt.value
    requires j'.entries == j.entries[Name(run, Stopped) := stop]
    ensures JournalInv(j', owner)
  {
    forall other
      ensures RunChained(j', owner, other)
    {
      assert RunChained(j, owner, other);
    }
    FewerClaims(j, j', owner);
  }

  lemma CommitKeeps(j: Journal, owner: Owner, observed: View, expected: Digest, at: Time, fault: Fault)
    requires JournalInv(j, owner)
    ensures JournalInv(StartCommitSection(j, owner, observed, expected, at, fault).0, owner)
  {
    var j' := StartCommitSection(j, owner, observed, expected, at, fault).0;
    if j'.entries != j.entries {
      AddStart(j, j', owner, observed.spec.run, StartRecord(2, observed.spec.run, expected, Some(at)));
    }
  }

  lemma StopKeeps(j: Journal, owner: Owner, run: Id, expected: Digest, start: Digest, outcome: Outcome, now: Time,
      fault: Fault)
    requires JournalInv(j, owner)
    ensures JournalInv(StopSection(j, owner, run, expected, start, outcome, now, fault).0, owner)
  {
    var j' := StopSection(j, owner, run, expected, start, outcome, now, fault).0;
    if j'.entries != j.entries {
      AddStop(j, j', owner, run, StopRecord(3, run, expected, start, outcome, Some(now)));
    }
  }

  lemma RecoverKeeps(j: Journal, owner: Owner, run: Id, now: Time, fault: Fault)
    requires JournalInv(j, owner)
    ensures JournalInv(RecoverRunSection(j, owner, run, now, fault), owner)
  {
    var j' := RecoverRunSection(j, owner, run, now, fault);
    if j'.entries != j.entries {
      var view := Get(j, owner, run).value;
      GetReadsClaim(j, owner, run);
      AddStop(j, j', owner, run, StopRecord(3, run, view.admission, view.start.value, OutcomeUnknown, Some(now)));
    }
  }

  lemma CrashKeeps(j: Journal, owner: Owner, kept: set<Name>, leftover: nat)
    requires JournalInv(j, owner) && CrashMayKeep(j, kept)
    ensures JournalInv(AfterCrash(j, kept, leftover), owner)
  {
    var j' := AfterCrash(j, kept, leftover);
    forall run
      ensures RunChained(j', owner, run)
    {
      assert RunChained(j, owner, run);
    }
    FewerClaims(j, j', owner);
  }

  // --------------------------------------------------------- state invariant

  /** The records behind an invocation are durable and are the ones named. */
  ghost predicate RecordsDurable(j: Journal, e: Event)
    requires j.Valid() && e.Invoked?
  {
    var (claim, start) := (Name(e.spec.run, Claimed), Name(e.spec.run, Starting));
    && claim in j.durable && start in j.durable
    && e.admission == Digest(j.entries[claim]) && e.start == Digest(j.entries[start])
    && e.admission.record.ClaimRecord? && e.admission.record.spec == e.spec
  }

  ghost predicate InvokedDurable(j: Journal, history: seq<Event>)
    requires j.Valid()
  {
    forall i :: 0 <= i < |history| && history[i].Invoked? ==> RecordsDurable(j, history[i])
  }

  /** The authority callback of the same call agreed earlier, inside the window. */
  ghost predicate Backed(history: seq<Event>, i: nat)
    requires i < |history| && history[i].Invoked?
  {
    exists k :: 0 <= k < i && history[k].Authorized? && history[k].call == history[i].call
             && history[k].spec == history[i].spec && Current(history[k].spec, history[k].at)
  }

  ghost predicate OncePerRun(history: seq<Event>) {
    forall i, k :: 0 <= i < k < |history| && history[i].Invoked? && history[k].Invoked? ==>
      history[i].spec.run != history[k].spec.run
  }

  ghost predicate CallsInv(s: State) {
    forall c :: c in s.calls && s.calls[c].authorizedAt.Some? ==>
      Authorized(c, s.calls[c].observed.spec, s.calls[c].authorizedAt.value) in s.history
  }

  ghost predicate Inv(s: State) {
    && JournalInv(s.journal, s.owner)
    && InvokedDurable(s.journal, s.history)
    && CallsInv(s)
    && OncePerRun(s.history)
    && forall i :: 0 <= i < |s.history| && s.history[i].Invoked? ==> Backed(s.history, i)
  }

  /** Whatever a step does to the journal, durable records stay as they are. */
  lemma DurableStays(s: State, step: Step)
    requires s.journal.Valid()
    ensures forall n :: n in s.journal.durable ==>
              n in Apply(s, step).journal.durable && Apply(s, step).journal.entries[n] == s.journal.entries[n]
  {
  }

  /** Records are only added. */
  ghost predicate Grows(j: Journal, j': Journal) {
    forall n :: n in j.entries ==> n in j'.entries && j'.entries[n] == j.entries[n]
  }

  /** While the machine stays up, records are only added. */
  lemma StepGrows(s: State, step: Step)
    requires s.journal.Valid() && !step.MachineCrash?
    ensures Grows(s.journal, Apply(s, step).journal)
  {
  }

  lemma {:induction false} RunGrows(s: State, steps: seq<Step>)
    requires s.journal.Valid() && forall k :: 0 <= k < |steps| ==> !steps[k].MachineCrash?
    ensures Grows(s.journal, Run(s, steps).journal)
    decreases |steps|
  {
    if steps != [] {
      RunGrows(s, steps[..|steps| - 1]);
      StepGrows(Run(s, steps[..|steps| - 1]), steps[|steps| - 1]);
    }
  }

  lemma {:induction false} RunKeepsJournal(s: State, steps: seq<Step>)
    requires JournalInv(s.journal, s.owner)
    ensures JournalInv(Run(s, steps).journal, s.owner)
    decreases |steps|
  {
    if steps != [] {
      RunKeepsJournal(s, steps[..|steps| - 1]);
      StepKeepsJournal(Run(s, steps[..|steps| - 1]), steps[|steps| - 1]);
    }
  }

  lemma StepKeepsJournal(s: State, step: Step)
    requires JournalInv(s.journal, s.owner)
    ensures JournalInv(Apply(s, step).journal, s.owner)
  {
    var j := s.journal;
    match step
    case ClaimRun(spec, now, fault) => ClaimKeeps(j, s.owner, spec, now, fault);
    case Commit(call, fault) =>
      if call in s.calls && s.calls[call].authorizedAt.Some? {
        var c := s.calls[call];
        CommitKeeps(j, s.owner, c.observed, c.expected, c.authorizedAt.value, fault);
      }
    case StopRun(run, expected, start, outcome, now, fault) =>
      StopKeeps(j, s.owner, run, expected, start, outcome, now, fault);
    case RecoverRun(run, now, fault) => RecoverKeeps(j, s.owner, run, now, fault);
    case MachineCrash(kept, leftover) =>
      if j.durable <= kept <= j.entries.Keys {
        CrashKeeps(j, s.owner, kept, leftover);
      }
    case ProcessCrash(leftover) => PendingIrrelevant(j, s.owner, leftover);
    case _ =>
  }

  lemma PendingIrrelevant(j: Journal, owner: Owner, leftover: nat)
    requires JournalInv(j, owner)
    ensures JournalInv(j.(pending := j.pending + leftover), owner)
  {
    var j' := j.(pending := j.pending + leftover);
    forall run
      ensures RunChained(j', owner, run)
    {
      assert RunChained(j, owner, run);
    }
    FewerClaims(j, j', owner);
  }

  /** A commit that returns invoke=true found the run claimed, read the clock
      inside its window and left both records durable. */
  lemma InvokingCommit(j: Journal, owner: Owner, observed: View, expected: Digest, at: Time, fault: Fault)
    requires JournalInv(j, owner)
    requires var r := StartCommitSection(j, owner, observed, expected, at, fault).1; r.Ok? && r.value.invoke
    ensures var (j', r) := StartCommitSection(j, owner, observed, expected, at, fault);
            var run := observed.spec.run;
            && Name(run, Starting) !in j.entries
            && Current(observed.spec, at)
            && r.value.view.spec == observed.spec && r.value.view.state == Starting && r.value.view.start.Some?
            && RecordsDurable(j', Invoked(0, observed.spec, r.value.view.admission, r.value.view.start.value))
  {
  }

  lemma StepKeeps(s: State, step: Step)
    requires Inv(s)
    ensures Inv(Apply(s, step))
  {
    StepKeepsJournal(s, step);
    StepKeepsCalls(s, step);
    StepKeepsHistory(s, step);
  }

  lemma StepKeepsCalls(s: State, step: Step)
    requires s.journal.Valid() && CallsInv(s)
    ensures CallsInv(Apply(s, step))
  {
  }

  lemma StepKeepsHistory(s: State, step: Step)
    requires Inv(s)
    ensures var t := Apply(s, step);
            && InvokedDurable(t.journal, t.history) && OncePerRun(t.history)
            && forall i :: 0 <= i < |t.history| && t.history[i].Invoked? ==> Backed(t.history, i)
  {
    var t := Apply(s, step);
    DurableStays(s, step);
    hide StartCommitSection, StopSection, RecoverRunSection, ClaimSection, StartObserveSection, JournalInv;
    HistoryExtends(s, t);
    if step.Commit? && |t.history| > |s.history| {
      CommitLogs(s, step.call, step.commitFault);
    }
  }

  /** The event a successful commit logs is new, backed and durable. */
  lemma CommitLogs(s: State, call: nat, fault: Fault)
    requires Inv(s)
    requires |Apply(s, Commit(call, fault)).history| > |s.history|
    ensures var t := Apply(s, Commit(call, fault));
            var last := |s.history|;
            && |t.history| == last + 1 && t.history[last].Invoked?
            && RecordsDurable(t.journal, t.history[last]) && Backed(t.history, last)
            && forall i :: 0 <= i < last && s.history[i].Invoked? ==> s.history[i].spec.run != t.history[last].spec.run
  {
    var t := Apply(s, Commit(call, fault));
    var c := s.calls[call];
    InvokingCommit(s.journal, s.owner, c.observed, c.expected, c.authorizedAt.value, fault);
    var e := t.history[|s.history|];
    assert Authorized(call, e.spec, c.authorizedAt.value) in s.history;
    forall i | 0 <= i < |s.history| && s.history[i].Invoked?
      ensures s.history[i].spec.run != e.spec.run
    {
      assert RecordsDurable(s.journal, s.history[i]);
    }
  }

  /** Old events keep their evidence when the history grows by at most one. */
  lemma HistoryExtends(s: State, t: State)
    requires Inv(s) && t.journal.Valid()
    requires s.history <= t.history && |t.history| <= |s.history| + 1
    requires forall n :: n in s.journal.durable ==>
               n in t.journal.durable && t.journal.entries[n] == s.journal.entries[n]
    ensures forall i :: 0 <= i < |s.history| && t.history[i].Invoked? ==>
              Backed(t.history, i) && RecordsDurable(t.journal, t.history[i])
  {
    forall i | 0 <= i < |s.history| && t.history[i].Invoked?
      ensures Backed(t.history, i) && RecordsDurable(t.journal, t.history[i])
    {
      assert s.history[i] == t.history[i];
      assert Backed(s.history, i) && RecordsDurable(s.journal, s.history[i]);
      var k :| 0 <= k < i && s.history[k].Authorized? && s.history[k].call == s.history[i].call
        && s.history[k].spec == s.history[i].spec && Current(s.history[k].spec, s.history[k].at);
      assert t.history[k] == s.history[k];
    }
  }

  lemma {:induction false} RunKeeps(owner: Owner, steps: seq<Step>)
    ensures Inv(Run(Init(owner), steps))
    decreases |steps|
  {
    if steps != [] {
      RunKeeps(owner, steps[..|steps| - 1]);
      StepKeeps(Run(Init(owner), steps[..|steps| - 1]), steps[|steps| - 1]);
    }
  }

  // ----------------------------------------------------------- main results

  /** In every run with any crashes, a run id is invoked at most once, and only
      by a call whose own authority callback agreed inside the window. */
  lemma AtMostOnePossibleStart(owner: Owner, steps: seq<Step>, i: nat)
    requires i < |Run(Init(owner), steps).history| && Run(Init(owner), steps).history[i].Invoked?
    ensures var history := Run(Init(owner), steps).history;
            && (forall k :: 0 <= k < |history| && k != i && history[k].Invoked? ==>
                    history[k].spec.run != history[i].spec.run)
            && exists k :: 0 <= k < i && history[k].Authorized? && history[k].call == history[i].call
                        && history[k].spec == history[i].spec && Current(history[k].spec, history[k].at)
  {
    RunKeeps(owner, steps);
    assert Backed(Run(Init(owner), steps).history, i);
  }

  // ------------------------------------------- directories the store accepts

  /** A run was authorized no earlier than it was claimed. */
  ghost predicate RunOrdered(j: Journal, owner: Owner, run: Id)
    requires Typed(j, owner)
  {
    var (claim, start) := (Name(run, Claimed), Name(run, Starting));
    claim in j.entries && start in j.entries ==>
      j.entries[claim].claimedAt.value <= j.entries[start].authorityCheckedAt.value
  }

  ghost predicate Ordered(j: Journal, owner: Owner)
    requires Typed(j, owner)
  {
    forall run :: RunOrdered(j, owner, run)
  }

  /** A journal the store wrote is accepted by its own `list` exactly when no
      stage lost an earlier stage, no start predates its claim and the
      directory is not overfull. */
  lemma AcceptedExactly(j: Journal, owner: Owner)
    requires JournalInv(j, owner)
    ensures List(j, owner).Ok? <==> FitsInventory(j) && PrefixClosed(j.entries.Keys) && Ordered(j, owner)
  {
    var readings := Readings(j, owner);
    if FitsInventory(j) && PrefixClosed(j.entries.Keys) {
      forall n | n in readings
        ensures readings[n].Ok? <==> RunOrdered(j, owner, n.run)
      {
        assert RunChained(j, owner, n.run);
      }
      forall run
        ensures Name(run, Claimed) in readings || RunOrdered(j, owner, run)
      {
      }
      assert |readings.Keys| == |readings|;
    }
  }

  function OfStage(names: set<Name>, stage: Stage): (r: set<Name>) {
    set n | n in names && n.stage == stage
  }

  lemma {:induction false} StageInjects(starts: set<Name>, claims: set<Name>)
    requires forall n :: n in starts ==> Name(n.run, Claimed) in claims
    requires forall m, n :: m in starts && n in starts ==> m.stage == n.stage
    ensures |starts| <= |claims|
    decreases starts
  {
    if starts != {} {
      var n :| n in starts;
      forall m | m in starts - {n}
        ensures Name(m.run, Claimed) in claims - {Name(n.run, Claimed)}
      {
        assert m != n && m.stage == n.stage;
      }
      StageInjects(starts - {n}, claims - {Name(n.run, Claimed)});
    }
  }

  /** Three stages per claim at most. */
  lemma EntriesBounded(names: set<Name>)
    requires PrefixClosed(names)
    ensures |names| <= 3 * |OfStage(names, Claimed)|
  {
    var (claims, starts, stops) := (OfStage(names, Claimed), OfStage(names, Starting), OfStage(names, Stopped));
    StageInjects(starts, claims);
    StageInjects(stops, claims);
    UnionSize(claims, starts);
    UnionSize(claims + starts, stops);
    assert names == claims + starts + stops by {
      forall n | n in names
        ensures n in claims + starts + stops
      {
        assert n.stage == Claimed || n.stage == Starting || n.stage == Stopped;
      }
    }
  }

  lemma UnionSize<T>(a: set<T>, b: set<T>)
    ensures |a + b| <= |a| + |b|
  {
    assert a + b == a + (b - a);
    SubsetSize(b - a, b);
  }

  lemma InventoryFits(j: Journal, owner: Owner)
    requires JournalInv(j, owner) && PrefixClosed(j.entries.Keys) && j.pending <= MAX_LEFTOVERS
    ensures FitsInventory(j)
  {
    EntriesBounded(j.entries.Keys);
    assert OfStage(j.entries.Keys, Claimed) == Claims(j);
    assert |j.entries.Keys| == |j.entries|;
  }

  // ------------------------------------------------------------ lost stages

  /** The stages before this one are on the disk for good. */
  predicate EarlierDurable(j: Journal, n: Name) {
    && (n.stage != Claimed ==> Name(n.run, Claimed) in j.durable)
    && (n.stage == Stopped ==> Name(n.run, Starting) in j.durable)
  }

  ghost predicate Anchored(j: Journal) {
    forall n :: n in j.entries ==> EarlierDurable(j, n)
  }

  ghost predicate Inseparable(j: Journal) {
    forall kept :: CrashMayKeep(j, kept) ==> PrefixClosed(kept)
  }

  /** No crash can separate a stage from an earlier one exactly when the earlier
      stages of everything visible are durable before it. */
  lemma NoCrashSeparatesIff(j: Journal)
    requires j.Valid()
    ensures Inseparable(j) <==> Anchored(j)
  {
    if Inseparable(j) {
      forall n | n in j.entries ensures EarlierDurable(j, n) {
        assert CrashMayKeep(j, j.durable + {n});
        assert n in j.durable + {n};
      }
    }
  }

  /** The later stage a step is about to write, its checks being passed. */
  function Target(s: State, step: Step): (r: Option<Name>) {
    match step
    case Commit(call, _) =>
      if call in s.calls && s.calls[call].authorizedAt.Some? && s.open && s.calls[call].store == s.store
         && CommitWrites(s.journal, s.owner, s.calls[call])
      then Some(Name(s.calls[call].observed.spec.run, Starting)) else None
    case StopRun(run, expected, start, outcome, now, _) =>
      if s.open && ValidOutcome(outcome) && StopWrites(s.journal, s.owner, run, now)
         && Get(s.journal, s.owner, run).value.admission == expected
         && Get(s.journal, s.owner, run).value.start == Some(start)
      then Some(Name(run, Stopped)) else None
    case RecoverRun(run, now, _) =>
      if s.open && StopWrites(s.journal, s.owner, run, now) then Some(Name(run, Stopped)) else None
    case _ => None
  }

  predicate CommitWrites(j: Journal, owner: Owner, c: Call) {
    var current := Get(j, owner, c.observed.spec.run);
    && current.Ok? && current.value.admission == c.expected && current.value.spec == c.observed.spec
    && current.value.state == Claimed && c.authorizedAt.Some? && Current(current.value.spec, c.authorizedAt.value)
  }

  predicate StopWrites(j: Journal, owner: Owner, run: Id, now: Time) {
    var view := Get(j, owner, run);
    && now != ZERO_TIME && view.Ok? && view.value.state == Starting
    && view.value.authorityCheckedAt.Some? && view.value.authorityCheckedAt.value <= now
  }

  /** A step whose own sync fails after it linked a stage over an earlier stage
      that was left unsynced. */
  predicate Severs(s: State, step: Step) {
    && Target(s, step).Some? && !EarlierDurable(s.journal, Target(s, step).value)
    && (match step
        case Commit(_, fault) => fault == FailsAfterLink
        case StopRun(_, _, _, _, _, fault) => fault == FailsAfterLink
        case RecoverRun(_, _, fault) => fault == FailsAfterLink
        case _ => false)
  }

  lemma WriteAnchors(j: Journal, n: Name, record: Record, fault: Fault)
    requires j.Valid() && Anchored(j) && n !in j.entries
    requires n.stage != Claimed ==> Name(n.run, Claimed) in j.entries
    requires n.stage == Stopped ==> Name(n.run, Starting) in j.entries
    ensures Anchored(WriteExclusive(j, n, record, fault).0) <==> fault != FailsAfterLink || EarlierDurable(j, n)
  {
    var j' := WriteExclusive(j, n, record, fault).0;
    forall m | m in j.entries ensures EarlierDurable(j', m) {
      assert EarlierDurable(j, m);
    }
    assert Anchored(j') <==> n !in j'.entries || EarlierDurable(j', n);
  }

  lemma CommitAnchors(s: State, call: nat, fault: Fault)
    requires s.journal.Valid() && Anchored(s.journal)
    ensures Anchored(Apply(s, Commit(call, fault)).journal) <==> !Severs(s, Commit(call, fault))
  {
    if Target(s, Commit(call, fault)).Some? {
      var c := s.calls[call];
      var run := c.observed.spec.run;
      WriteAnchors(s.journal, Name(run, Starting), StartRecord(2, run, c.expected, c.authorizedAt), fault);
    }
    hide Anchored, EarlierDurable;
  }

  lemma StopAnchors(s: State, step: Step)
    requires s.journal.Valid() && Anchored(s.journal) && (step.StopRun? || step.RecoverRun?)
    ensures Anchored(Apply(s, step).journal) <==> !Severs(s, step)
  {
    if Target(s, step).Some? {
      var view := Get(s.journal, s.owner, step.run).value;
      if step.StopRun? {
        WriteAnchors(s.journal, Name(step.run, Stopped),
          StopRecord(3, step.run, step.expected, step.start, step.outcome, Some(step.now)), step.stopFault);
      } else {
        WriteAnchors(s.journal, Name(step.run, Stopped),
          StopRecord(3, step.run, view.admission, view.start.value, OutcomeUnknown, Some(step.now)), step.recoverFault);
      }
    }
    hide Anchored, EarlierDurable;
  }

  lemma ClaimAnchors(j: Journal, owner: Owner, spec: Spec, now: Time, fault: Fault)
    requires j.Valid() && Anchored(j)
    ensures Anchored(ClaimSection(j, owner, spec, now, fault).0)
  {
    if ClaimAnswer(j, owner, spec, now).None? {
      WriteAnchors(j, Name(spec.run, Claimed), ClaimRecord(1, owner, spec, Some(now)), fault);
    }
    hide Anchored, ClaimAnswer;
  }

  /** A step keeps every earlier stage durable exactly when it does not sever. */
  lemma StepAnchors(s: State, step: Step)
    requires s.journal.Valid() && Anchored(s.journal)
    ensures Anchored(Apply(s, step).journal) <==> !Severs(s, step)
  {
    match step
    case Commit(call, fault) => CommitAnchors(s, call, fault);
    case StopRun(_, _, _, _, _, _) => StopAnchors(s, step);
    case RecoverRun(_, _, _) => StopAnchors(s, step);
    case ClaimRun(spec, now, fault) => ClaimAnchors(s.journal, s.owner, spec, now, fault);
    case _ => QuietAnchors(s, step);
  }

  lemma QuietAnchors(s: State, step: Step)
    requires s.journal.Valid() && Anchored(s.journal)
    requires !step.Commit? && !step.StopRun? && !step.RecoverRun? && !step.ClaimRun?
    ensures Anchored(Apply(s, step).journal)
  {
    var j' := Apply(s, step).journal;
    forall n | n in j'.entries ensures EarlierDurable(j', n) {
      assert EarlierDurable(s.journal, n);
    }
  }

  predicate SeversAt(s: State, steps: seq<Step>, k: nat)
    requires s.journal.Valid() && k < |steps|
  {
    Severs(Run(s, steps[..k]), steps[k])
  }

  ghost predicate SafeAt(s: State, steps: seq<Step>, k: nat)
    requires s.journal.Valid() && k <= |steps|
  {
    Inseparable(Run(s, steps[..k]).journal)
  }

  /** No step of the run severs. */
  predicate NothingSevered(s: State, steps: seq<Step>)
    requires s.journal.Valid()
  {
    forall k :: 0 <= k < |steps| ==> !SeversAt(s, steps, k)
  }

  /** From a state in which no crash could drop a stage under a later one,
      one step gets into a state in which a crash could exactly by severing. */
  lemma SeversIff(s: State, step: Step)
    requires s.journal.Valid() && Inseparable(s.journal)
    ensures Severs(s, step) <==> !Inseparable(Apply(s, step).journal)
  {
    NoCrashSeparatesIff(s.journal);
    StepAnchors(s, step);
    NoCrashSeparatesIff(Apply(s, step).journal);
    hide Inseparable, Anchored, Severs, Apply;
  }

  lemma FrontSeversNothing(s: State, steps: seq<Step>)
    requires s.journal.Valid() && steps != [] && NothingSevered(s, steps)
    ensures NothingSevered(s, steps[..|steps| - 1])
  {
    var front := steps[..|steps| - 1];
    hide Severs, Run;
    forall k | 0 <= k < |front| ensures !SeversAt(s, front, k) {
      assert front[..k] == steps[..k] && !SeversAt(s, steps, k);
    }
  }

  lemma SafeFirst(owner: Owner, steps: seq<Step>)
    ensures SafeAt(Init(owner), steps, 0)
  {
    assert steps[..0] == [] && Run(Init(owner), []) == Init(owner);
    assert Anchored(Init(owner).journal);
    NoCrashSeparatesIff(Init(owner).journal);
    hide Anchored, Inseparable, Run;
  }

  lemma SafeNext(owner: Owner, steps: seq<Step>, k: nat)
    requires k < |steps| && SafeAt(Init(owner), steps, k)
    ensures SafeAt(Init(owner), steps, k + 1) <==> !SeversAt(Init(owner), steps, k)
  {
    SeversIff(Run(Init(owner), steps[..k]), steps[k]);
    assert steps[..k + 1][..k] == steps[..k];
    hide Severs, Inseparable, Apply;
  }

  lemma {:induction false} SafeUpTo(owner: Owner, steps: seq<Step>, n: nat)
    requires n <= |steps|
    ensures (forall k :: 0 <= k < n ==> !SeversAt(Init(owner), steps, k)) <==>
              forall k :: 0 <= k <= n ==> SafeAt(Init(owner), steps, k)
  {
    hide SafeAt, SeversAt;
    if n == 0 {
      SafeFirst(owner, steps);
    } else {
      SafeUpTo(owner, steps, n - 1);
      if SafeAt(Init(owner), steps, n - 1) {
        SafeNext(owner, steps, n - 1);
      }
    }
  }

  /** A run severs nothing exactly when at no moment of it a crash could
      drop a stage under a later one. */
  lemma InseparableIff(owner: Owner, steps: seq<Step>)
    ensures NothingSevered(Init(owner), steps) <==>
              forall k :: 0 <= k <= |steps| ==> SafeAt(Init(owner), steps, k)
  {
    SafeUpTo(owner, steps, |steps|);
  }

  /** A crash leaves an acceptable directory exactly when what it keeps is
      closed under earlier stages. */
  lemma CrashAccepted(j: Journal, owner: Owner, kept: set<Name>, leftover: nat)
    requires JournalInv(j, owner) && List(j, owner).Ok? && CrashMayKeep(j, kept)
    requires j.pending + leftover <= MAX_LEFTOVERS
    ensures List(AfterCrash(j, kept, leftover), owner).Ok? <==> PrefixClosed(kept)
  {
    var j' := AfterCrash(j, kept, leftover);
    CrashKeeps(j, owner, kept, leftover);
    AcceptedExactly(j, owner);
    AcceptedExactly(j', owner);
    forall run
      ensures RunOrdered(j', owner, run)
    {
      assert RunOrdered(j, owner, run);
    }
    if PrefixClosed(kept) {
      InventoryFits(j', owner);
    }
  }

  /** Every crash of an accepted directory leaves an accepted one exactly when
      the earlier stages of everything visible are durable before it. */
  lemma CrashesAccepted(j: Journal, owner: Owner, leftover: nat)
    requires JournalInv(j, owner) && List(j, owner).Ok? && j.pending + leftover <= MAX_LEFTOVERS
    ensures (forall kept :: CrashMayKeep(j, kept) ==> List(AfterCrash(j, kept, leftover), owner).Ok?) <==> Anchored(j)
  {
    NoCrashSeparatesIff(j);
    hide Anchored, PrefixClosed, List, JournalInv;
    forall kept | CrashMayKeep(j, kept)
      ensures List(AfterCrash(j, kept, leftover), owner).Ok? <==> PrefixClosed(kept)
    {
      CrashAccepted(j, owner, kept, leftover);
    }
  }

  /** `j'` is `j` with a start record for a claimed run. */
  ghost predicate AddsStart(j: Journal, j': Journal, run: Id, start: Record) {
    && Name(run, Claimed) in j.entries && Name(run, Starting) !in j.entries && Name(run, Stopped) !in j.entries
    && j'.entries == j.entries[Name(run, Starting) := start]
  }

  lemma StartOrdered(j: Journal, j': Journal, owner: Owner, run: Id, start: Record)
    requires Typed(j, owner) && Typed(j', owner) && Ordered(j, owner) && AddsStart(j, j', run, start)
    ensures Ordered(j', owner) <==> RunOrdered(j', owner, run)
  {
    forall other | other != run
      ensures RunOrdered(j', owner, other)
    {
      assert RunOrdered(j, owner, other);
    }
  }

  lemma StartPrefixClosed(j: Journal, j': Journal, run: Id, start: Record)
    requires PrefixClosed(j.entries.Keys) && AddsStart(j, j', run, start)
    ensures PrefixClosed(j'.entries.Keys)
  {
  }

  lemma AddStartAccepted(j: Journal, j': Journal, owner: Owner, run: Id, start: Record)
    requires JournalInv(j, owner) && JournalInv(j', owner) && List(j, owner).Ok?
    requires j'.pending <= MAX_LEFTOVERS && AddsStart(j, j', run, start)
    ensures List(j', owner).Ok? <==> RunOrdered(j', owner, run)
  {
    AcceptedExactly(j, owner);
    AcceptedExactly(j', owner);
    StartPrefixClosed(j, j', run, start);
    InventoryFits(j', owner);
    StartOrdered(j, j', owner, run, start);
  }

  /** A start record leaves an acceptable directory exactly when the clock did
      not run backwards between the claim and the authority check. */
  lemma CommitAccepted(j: Journal, owner: Owner, observed: View, expected: Digest, at: Time, fault: Fault)
    requires JournalInv(j, owner) && List(j, owner).Ok? && j.pending <= MAX_LEFTOVERS
    requires StartCommitSection(j, owner, observed, expected, at, fault).0.entries != j.entries
    ensures Get(j, owner, observed.spec.run).Ok?
    ensures List(StartCommitSection(j, owner, observed, expected, at, fault).0, owner).Ok?
       <==> Get(j, owner, observed.spec.run).value.claimedAt <= at
  {
    var j' := StartCommitSection(j, owner, observed, expected, at, fault).0;
    var run := observed.spec.run;
    CommitKeeps(j, owner, observed, expected, at, fault);
    CommitAddsStart(j, owner, observed, expected, at, fault);
    AddStartAccepted(j, j', owner, run, StartRecord(2, run, expected, Some(at)));
  }

  lemma CommitAddsStart(j: Journal, owner: Owner, observed: View, expected: Digest, at: Time, fault: Fault)
    requires j.Valid() && StartCommitSection(j, owner, observed, expected, at, fault).0.entries != j.entries
    ensures var run := observed.spec.run;
            var j' := StartCommitSection(j, owner, observed, expected, at, fault).0;
            && AddsStart(j, j', run, StartRecord(2, run, expected, Some(at)))
            && j'.pending == j.pending
            && Get(j, owner, run).Ok? && expected == Digest(j.entries[Name(run, Claimed)])
            && expected.record.ClaimRecord? && expected.record.claimedAt == Some(Get(j, owner, run).value.claimedAt)
  {
  }

  /** The latest clock reading a claim has recorded. */
  function LatestClaim(steps: seq<Step>): (latest: Time)
    ensures forall i :: 0 <= i < |steps| && steps[i].ClaimRun? ==> steps[i].now <= latest
  {
    if steps == [] then 0
    else
      var (front, last) := (LatestClaim(steps[..|steps| - 1]), steps[|steps| - 1]);
      if last.ClaimRun? && last.now > front then last.now else front
  }

  /** Clocks never run backwards: no authority check reads an earlier time than
      a claim before it. */
  predicate NondecreasingClock(steps: seq<Step>) {
    forall k :: 0 <= k < |steps| && steps[k].Authorize? ==> LatestClaim(steps[..k]) <= steps[k].at
  }

  /** What monotone clocks add to the journal invariant. */
  ghost predicate ClockJournal(j: Journal, owner: Owner, latest: Time)
    requires Typed(j, owner)
  {
    && PrefixClosed(j.entries.Keys) && Ordered(j, owner)
    && forall n :: n in j.entries && n.stage == Claimed ==> j.entries[n].claimedAt.value <= latest
  }

  /** The claim a call observed is not later than `latest`, nor than the time
      at which the call was authorized. */
  ghost predicate ClaimedBy(c: Call, latest: Time) {
    && c.expected.record.ClaimRecord? && c.expected.record.claimedAt.Some?
    && c.expected.record.claimedAt.value <= latest
    && (c.authorizedAt.Some? ==> c.expected.record.claimedAt.value <= c.authorizedAt.value)
  }

  ghost predicate ClockCalls(s: State, latest: Time) {
    forall c :: c in s.calls ==> ClaimedBy(s.calls[c], latest)
  }

  /** A directory change that touches no start record keeps the order of time. */
  lemma ClockFrame(j: Journal, j': Journal, owner: Owner, latest: Time)
    requires Typed(j, owner) && Typed(j', owner) && ClockJournal(j, owner, latest)
    requires forall n :: n in j'.entries && n.stage == Starting ==> n in j.entries && j'.entries[n] == j.entries[n]
    requires forall n :: n in j'.entries && n.stage == Claimed && n in j.entries ==> j'.entries[n] == j.entries[n]
    ensures Ordered(j', owner)
  {
    forall run
      ensures RunOrdered(j', owner, run)
    {
      assert RunOrdered(j, owner, run);
      assert Name(run, Starting) in j.entries ==> Name(run, Claimed) in j.entries;
    }
  }

  lemma ClockClaim(j: Journal, owner: Owner, spec: Spec, now: Time, fault: Fault, latest: Time, latest': Time)
    requires JournalInv(j, owner) && ClockJournal(j, owner, latest) && latest <= latest' && now <= latest'
    ensures var j' := ClaimSection(j, owner, spec, now, fault).0;
            Typed(j', owner) && ClockJournal(j', owner, latest')
  {
    var j' := ClaimSection(j, owner, spec, now, fault).0;
    ClaimKeeps(j, owner, spec, now, fault);
    ClockFrame(j, j', owner, latest);
  }

  lemma ClockCommit(j: Journal, owner: Owner, c: Call, fault: Fault, latest: Time)
    requires JournalInv(j, owner) && ClockJournal(j, owner, latest) && c.authorizedAt.Some? && ClaimedBy(c, latest)
    ensures var j' := StartCommitSection(j, owner, c.observed, c.expected, c.authorizedAt.value, fault).0;
            Typed(j', owner) && ClockJournal(j', owner, latest)
  {
    var (at, run) := (c.authorizedAt.value, c.observed.spec.run);
    var j' := StartCommitSection(j, owner, c.observed, c.expected, at, fault).0;
    CommitKeeps(j, owner, c.observed, c.expected, at, fault);
    if j'.entries == j.entries {
      ClockFrame(j, j', owner, latest);
    } else {
      var start := StartRecord(2, run, c.expected, Some(at));
      CommitAddsStart(j, owner, c.observed, c.expected, at, fault);
      StartPrefixClosed(j, j', run, start);
      StartOrdered(j, j', owner, run, start);
    }
  }

  /** A directory change that only adds the stop of a started run. */
  lemma ClockStop(j: Journal, j': Journal, owner: Owner, run: Id, latest: Time)
    requires Typed(j, owner) && Typed(j', owner) && ClockJournal(j, owner, latest)
    requires Name(run, Claimed) in j.entries && Name(run, Starting) in j.entries
    requires forall n :: n in j.entries ==> n in j'.entries && j'.entries[n] == j.entries[n]
    requires forall n :: n in j'.entries ==> n in j.entries || n == Name(run, Stopped)
    ensures ClockJournal(j', owner, latest)
  {
    ClockFrame(j, j', owner, latest);
  }

  lemma ClockStopSection(j: Journal, owner: Owner, run: Id, expected: Digest, start: Digest,
                         outcome: Outcome, now: Time, fault: Fault, latest: Time)
    requires JournalInv(j, owner) && ClockJournal(j, owner, latest)
    ensures var j' := StopSection(j, owner, run, expected, start, outcome, now, fault).0;
            Typed(j', owner) && ClockJournal(j', owner, latest)
  {
    var j' := StopSection(j, owner, run, expected, start, outcome, now, fault).0;
    StopKeeps(j, owner, run, expected, start, outcome, now, fault);
    if j'.entries != j.entries {
      ClockStop(j, j', owner, run, latest);
    } else {
      ClockFrame(j, j', owner, latest);
    }
  }

  lemma ClockRecover(j: Journal, owner: Owner, run: Id, now: Time, fault: Fault, latest: Time)
    requires JournalInv(j, owner) && ClockJournal(j, owner, latest)
    ensures var j' := RecoverRunSection(j, owner, run, now, fault); Typed(j', owner) && ClockJournal(j', owner, latest)
  {
    var j' := RecoverRunSection(j, owner, run, now, fault);
    RecoverKeeps(j, owner, run, now, fault);
    if j'.entries != j.entries {
      GetReadsClaim(j, owner, run);
      ClockStop(j, j', owner, run, latest);
    } else {
      ClockFrame(j, j', owner, latest);
    }
  }

  lemma ClockCrash(j: Journal, owner: Owner, kept: set<Name>, leftover: nat, latest: Time)
    requires JournalInv(j, owner) && ClockJournal(j, owner, latest) && CrashMayKeep(j, kept) && PrefixClosed(kept)
    ensures var j' := AfterCrash(j, kept, leftover); Typed(j', owner) && ClockJournal(j', owner, latest)
  {
    CrashKeeps(j, owner, kept, leftover);
    ClockFrame(j, AfterCrash(j, kept, leftover), owner, latest);
  }

  lemma ClockStepJournal(s: State, step: Step, latest: Time)
    requires JournalInv(s.journal, s.owner) && ClockJournal(s.journal, s.owner, latest)
    requires ClockCalls(s, latest) && !step.ClaimRun?
    requires step.MachineCrash? && CrashMayKeep(s.journal, step.kept) ==> PrefixClosed(step.kept)
    ensures var t := Apply(s, step); Typed(t.journal, s.owner) && ClockJournal(t.journal, s.owner, latest)
  {
    hide StartCommitSection, StopSection, RecoverRunSection, ClaimSection, StartObserveSection;
    hide Chained, Exclusive;
    var j := s.journal;
    match step
    case Commit(call, fault) =>
      if call in s.calls && s.calls[call].authorizedAt.Some? {
        ClockCommit(j, s.owner, s.calls[call], fault, latest);
      }
    case StopRun(run, expected, start, outcome, now, fault) =>
      ClockStopSection(j, s.owner, run, expected, start, outcome, now, fault, latest);
    case RecoverRun(run, now, fault) => ClockRecover(j, s.owner, run, now, fault, latest);
    case MachineCrash(kept, leftover) =>
      if j.durable <= kept <= j.entries.Keys {
        ClockCrash(j, s.owner, kept, leftover, latest);
      }
    case ProcessCrash(leftover) => ClockFrame(j, j.(pending := j.pending + leftover), s.owner, latest);
    case _ =>
  }

  lemma ClockStepCalls(s: State, step: Step, latest: Time, latest': Time)
    requires JournalInv(s.journal, s.owner) && ClockJournal(s.journal, s.owner, latest) && latest <= latest'
    requires ClockCalls(s, latest)
    requires step.Authorize? ==> latest <= step.at
    ensures ClockCalls(Apply(s, step), latest')
  {
  }

  lemma {:induction false} ClockRunKeeps(owner: Owner, steps: seq<Step>)
    requires NondecreasingClock(steps) && NothingSevered(Init(owner), steps)
    ensures var s := Run(Init(owner), steps);
            Inv(s) && ClockJournal(s.journal, owner, LatestClaim(steps)) && ClockCalls(s, LatestClaim(steps))
    decreases |steps|
  {
    RunKeeps(owner, steps);
    if steps != [] {
      var (front, last) := (steps[..|steps| - 1], steps[|steps| - 1]);
      assert forall k :: 0 <= k < |front| ==> front[..k] == steps[..k];
      FrontSeversNothing(Init(owner), steps);
      ClockRunKeeps(owner, front);
      var s := Run(Init(owner), front);
      if last.ClaimRun? {
        ClockClaim(s.journal, owner, last.spec, last.now, last.claimFault, LatestClaim(front), LatestClaim(steps));
      } else {
        InseparableIff(owner, front);
        assert SafeAt(Init(owner), front, |front|) && front[..|front|] == front;
        ClockStepJournal(s, last, LatestClaim(front));
      }
      ClockStepCalls(s, last, LatestClaim(front), LatestClaim(steps));
    }
  }

  /** With clocks that never run backwards, no severing write and at most sixteen
      leftover temporary files, every directory the store can produce is
      accepted by its own `list` and `get`, whatever crashes keep: at most 256
      claims that exclude each other, closed stages, chained digests and ordered
      times. */
  lemma StoreAcceptsItsOwnDirectories(owner: Owner, steps: seq<Step>)
    requires NondecreasingClock(steps) && NothingSevered(Init(owner), steps)
    requires Run(Init(owner), steps).journal.pending <= MAX_LEFTOVERS
    ensures var j := Run(Init(owner), steps).journal;
            && List(j, owner).Ok?
            && Typed(j, owner) && Chained(j, owner) && Ordered(j, owner) && Exclusive(j, owner)
            && PrefixClosed(j.entries.Keys) && |Claims(j)| <= MAX_RUNTIME_ADMISSIONS && FitsInventory(j)
            && forall run :: IsClaimed(j, run) ==> Get(j, owner, run).Ok?
  {
    ClockRunKeeps(owner, steps);
    var j := Run(Init(owner), steps).journal;
    InventoryFits(j, owner);
    AcceptedExactly(j, owner);
    forall run | IsClaimed(j, run)
      ensures Get(j, owner, run).Ok?
    {
      ListReadsClaim(j, owner, run);
    }
  }

  /** Without any assumption on clocks, faults or crashes, no two claims of a
      reachable journal share a workspace generation, identity or operation. */
  lemma WorkspacesStayExclusive(owner: Owner, steps: seq<Step>)
    ensures var j := Run(Init(owner), steps).journal;
            Typed(j, owner) && Exclusive(j, owner) && |Claims(j)| <= MAX_RUNTIME_ADMISSIONS
  {
    RunKeeps(owner, steps);
  }

  // ------------------------------------------------------------- replays

  /** A claim that succeeded admits exactly its spec, and repeating it at any
      time returns the same view and writes nothing. */
  lemma ClaimReplay(j: Journal, owner: Owner, spec: Spec, now: Time, fault: Fault, later: Time, fault': Fault)
    requires j.Valid() && later != ZERO_TIME
    requires ClaimSection(j, owner, spec, now, fault).1.Ok?
    ensures var (j', r) := ClaimSection(j, owner, spec, now, fault);
            && r.value.spec == spec && r.value.admission == Digest(j'.entries[Name(spec.run, Claimed)])
            && ClaimSection(j', owner, spec, later, fault') == (j', r)
  {
  }

  /** Another spec for a claimed run is a conflict. */
  lemma ClaimConflict(j: Journal, owner: Owner, spec: Spec, now: Time, fault: Fault, other: Spec, later: Time,
      fault': Fault)
    requires j.Valid() && later != ZERO_TIME && ValidSpec(other) && other.device == owner.device
    requires ClaimSection(j, owner, spec, now, fault).1.Ok? && other.run == spec.run && other != spec
    ensures var j' := ClaimSection(j, owner, spec, now, fault).0;
            ClaimSection(j', owner, other, later, fault') == (j', Err(Conflict))
  {
  }

  /** A stop that succeeded recorded exactly this outcome for exactly this
      start; the same outcome is a harmless replay, another one a conflict. */
  lemma StopReplay(j: Journal, owner: Owner, run: Id, expected: Digest, start: Digest, outcome: Outcome, now: Time,
      fault: Fault, outcome': Outcome, later: Time, fault': Fault)
    requires j.Valid() && later != ZERO_TIME && ValidOutcome(outcome')
    requires StopSection(j, owner, run, expected, start, outcome, now, fault).1.Ok?
    ensures var (j', r) := StopSection(j, owner, run, expected, start, outcome, now, fault);
            && r.value.state == Stopped && r.value.outcome == Some(outcome)
            && r.value.admission == expected && r.value.start == Some(start)
            && StopSection(j', owner, run, expected, start, outcome', later, fault')
               == (j', if outcome' == outcome then r else Err(Conflict))
  {
  }

  // ------------------------------------- where the unconditional claim fails

  const SAMPLE_OWNER := Owner(Id(1, true), Id(2, true), Id(3, true), Id(4, true))

  const SAMPLE_SPEC := Spec(
    Id(5, true), Id(6, true), Id(7, true), Id(3, true), Id(8, true), 1, Id(9, true), Id(10, true), Id(11, true),
    Id(12, true), Id(13, true), Id(14, true), Id(15, true), Id(16, true), Id(17, true), 1, 100, 100, 100)

  const SAMPLE_CLAIM := ClaimRecord(1, SAMPLE_OWNER, SAMPLE_SPEC, Some(10))

  /** The sample run, claimed at time 10. */
  function SampleClaimed(fault: Fault): (s: State)
    ensures s.journal.Valid()
  {
    Apply(Apply(Init(SAMPLE_OWNER), OpenStore), ClaimRun(SAMPLE_SPEC, 10, fault))
  }

  /** The sample run, authorized at time `at`. */
  function SampleAuthorized(at: Time, fault: Fault): (s: State)
    ensures s.journal.Valid()
  {
    var asked := Apply(SampleClaimed(fault), Observe(SAMPLE_SPEC.run, Digest(SAMPLE_CLAIM)));
    Apply(asked, Authorize(0, true, at))
  }

  function SampleStarted(at: Time, fault: Fault): (s: State)
    ensures s.journal.Valid()
  {
    Apply(SampleAuthorized(at, fault), Commit(0, fault))
  }

  lemma SampleClaimRecords(fault: Fault)
    requires fault != FailsBeforeLink
    ensures var s := SampleClaimed(fault);
            && s.open && s.calls == map[] && s.nextCall == 0 && s.store == 1 && s.owner == SAMPLE_OWNER
            && s.journal.entries == map[Name(SAMPLE_SPEC.run, Claimed) := SAMPLE_CLAIM]
            && (fault == FailsAfterLink ==> s.journal.durable == {})
  {
    var ready := Apply(Init(SAMPLE_OWNER), OpenStore);
    assert List(ready.journal, SAMPLE_OWNER).Ok?;
    assert ClaimAnswer(ready.journal, SAMPLE_OWNER, SAMPLE_SPEC, 10).None?;
  }

  lemma SampleCall(at: Time, fault: Fault)
    requires fault != FailsBeforeLink
    ensures var (claimed, s) := (SampleClaimed(fault), SampleAuthorized(at, fault));
            && s.open && s.store == 1 && s.owner == SAMPLE_OWNER && s.journal == claimed.journal
            && 0 in s.calls && s.calls[0].store == 1 && s.calls[0].observed.spec == SAMPLE_SPEC
            && s.calls[0].expected == Digest(SAMPLE_CLAIM) && s.calls[0].authorizedAt == Some(at)
  {
    SampleClaimRecords(fault);
  }

  lemma SampleStartRecords(at: Time, fault: Fault)
    requires 1 <= at < 100 && fault != FailsBeforeLink
    ensures var s := SampleStarted(at, fault);
            && s.journal.entries == map[Name(SAMPLE_SPEC.run, Claimed) := SAMPLE_CLAIM,
                 Name(SAMPLE_SPEC.run, Starting) := StartRecord(2, SAMPLE_SPEC.run, Digest(SAMPLE_CLAIM), Some(at))]
            && (fault == FailsAfterLink ==> s.journal.durable == {})
  {
    SampleClaimRecords(fault);
    SampleCall(at, fault);
  }

  /** A clock that runs backwards between claim and start makes the store refuse
      its own directory. */
  lemma BackwardClockRefused()
    ensures List(SampleStarted(5, NoFault).journal, SAMPLE_OWNER).Err?
  {
    SampleStartRecords(5, NoFault);
    var readings := Readings(SampleStarted(5, NoFault).journal, SAMPLE_OWNER);
    assert Name(SAMPLE_SPEC.run, Claimed) in readings && readings[Name(SAMPLE_SPEC.run, Claimed)].Err?;
  }

  /** Two failed syncs and a crash that keeps the start but not the claim make
      the store refuse its own directory. */
  lemma CrashOrphanRefused()
    ensures var s := SampleStarted(20, FailsAfterLink);
            var kept := {Name(SAMPLE_SPEC.run, Starting)};
            && CrashMayKeep(s.journal, kept)
            && List(AfterCrash(s.journal, kept, 0), SAMPLE_OWNER).Err?
  {
    SampleStartRecords(20, FailsAfterLink);
    var j := SampleStarted(20, FailsAfterLink).journal;
    OrphanRefused(j, SAMPLE_OWNER, {Name(SAMPLE_SPEC.run, Starting)}, SAMPLE_SPEC.run);
  }

  lemma OrphanRefused(j: Journal, owner: Owner, kept: set<Name>, run: Id)
    requires j.Valid() && CrashMayKeep(j, kept) && Name(run, Starting) in kept && Name(run, Claimed) !in kept
    ensures List(AfterCrash(j, kept, 0), owner).Err?
  {
    assert !PrefixClosed(kept);
  }

  // -------------------------------------------------- recovery in one section

  /** `RecoverUnknown` over an inventory is a run of recovery steps that leaves
      every other record alone. */
  lemma {:induction false} RecoverAllIsSteps(s: State, todo: seq<View>, now: Time, faults: nat -> Fault)
    returns (steps: seq<Step>)
    requires s.open && s.journal.Valid() && now != ZERO_TIME && Inventoried(s.journal, s.owner, todo)
    ensures forall i :: 0 <= i < |steps| ==> steps[i].RecoverRun?
    ensures Run(s, steps) == s.(journal := RecoverAll(s.journal, s.owner, todo, now, faults).0)
    decreases |todo|
  {
    steps := [];
    if todo != [] {
      var last := |todo| - 1;
      var before := RecoverAllIsSteps(s, todo[..last], now, faults);
      var (j, closed) := RecoverAll(s.journal, s.owner, todo[..last], now, faults);
      var view := todo[last];
      RecoverAllTouches(s.journal, s.owner, todo[..last], now, faults, view.spec.run);
      if closed.Err? || view.state != Starting {
        steps := before;
      } else {
        var step := RecoverRun(view.spec.run, now, faults(last));
        steps := before + [step];
        assert steps[..|steps| - 1] == before;
        RecoverStepIs(s.(journal := j), view, now, faults(last));
      }
    }
  }

  lemma RecoverStepIs(s: State, view: View, now: Time, fault: Fault)
    requires s.open && s.journal.Valid() && now != ZERO_TIME && view.state == Starting
    requires Get(s.journal, s.owner, view.spec.run) == Ok(view)
    ensures Apply(s, RecoverRun(view.spec.run, now, fault))
            == s.(journal := RecoverSection(s.journal, s.owner, view, now, fault).0)
  {
  }
}
