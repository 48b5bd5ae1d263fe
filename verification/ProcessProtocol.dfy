/**
 Every run of the process journal: leases, forks and exits of lock holders,
 fencing operations, restarts and crashes in any order.

 A lock is held by whoever has its open file: the bridge's lease and the
 processes that inherited it.  A new holder only ever comes from an existing
 one.  `live` keeps the holders of each run, also after its lock file is gone.
 */
module ProcessProtocol {
  import opened Wrappers
  import opened DurableDirectory
  import opened ProcessStore

  /** The bridge's own handle on a lock; every other holder is a process. */
  const LEASE: nat := 0

  /** A fencing operation between its critical sections.  `free` once it has
      seen the lock free. */
  datatype Operation = Operation(identity: Identity, lease: Option<Lease>, observed: Option<Observation>, free: bool)

  datatype State = State(
    owner: Owner, disk: Disk,
    live: map<Id, set<nat>>, leases: map<Id, Lease>,
    operations: map<nat, Operation>, nextOperation: nat)

  datatype Step =
    | Prepare(identity: Identity, now: Time, fault: Fault, lock: LockFault, undo: Fault)
    | Fork(run: Id, parent: nat, child: nat)
    | Exit(run: Id, holder: nat)
    | Started(run: Id, observation: Observation, now: Time, fault: Fault)
    | BeginFinish(run: Id, observation: Observation, now: Time, closing: CloseFault)
    | AbandonRun(run: Id, now: Time, closing: CloseFault)
    | BeginFence(identity: Identity)
    | SeeFree(operation: nat)
    | Confirm(operation: nat, now: Time, closing: CloseFault)
    | Restart(leftover: nat)
    | MachineCrash(kept: set<Name>, locks: set<Id>, leftover: nat)

  function Init(owner: Owner): (s: State)
    ensures s.disk.journal.Valid()
  {
    State(owner, Disk(Directory(map[], {}, 0), {}), map[], map[], map[], 0)
  }

  function Live(s: State, run: Id): (holders: set<nat>) {
    if run in s.live then s.live[run] else {}
  }

  function SetLive(s: State, run: Id, holders: set<nat>): (t: State)
    ensures Live(t, run) == holders
    ensures forall other :: other != run ==> Live(t, other) == Live(s, other)
    ensures t == s.(live := t.live)
  {
    s.(live := s.live[run := holders])
  }

  /** The lease closes its own handle. */
  function CloseHandle(s: State, run: Id): (t: State)
    ensures Live(t, run) == Live(s, run) - {LEASE}
    ensures forall other :: other != run ==> Live(t, other) == Live(s, other)
    ensures t == s.(live := t.live)
  {
    SetLive(s, run, Live(s, run) - {LEASE})
  }

  /** The wait for the lock can succeed: the lock is free, or nothing is to be
      killed and there is no lock file, which proves nothing by itself. */
  predicate MaySeeFree(s: State, o: Operation) {
    Live(s, o.identity.run) == {} || (o.observed.None? && o.identity.run !in s.disk.locks)
  }

  function Apply(s: State, step: Step): (t: State)
    requires s.disk.journal.Valid()
    ensures t.disk.journal.Valid() && t.owner == s.owner
  {
    match step
    case Prepare(identity, now, fault, lock, undo) =>
      var (d, r) := PrepareSection(s.disk, s.owner, identity, now, fault, lock, undo);
      if r.Ok? then SetLive(s.(disk := d, leases := s.leases[identity.run := r.value]), identity.run, {LEASE})
      else s.(disk := d)
    case Fork(run, parent, child) =>
      if parent in Live(s, run) && child != LEASE then SetLive(s, run, Live(s, run) + {child}) else s
    case Exit(run, holder) => if holder != LEASE then SetLive(s, run, Live(s, run) - {holder}) else s
    case Started(run, o, now, fault) =>
      if run in s.leases
      then CloseHandle(s.(disk := StartLeaseSection(s.disk, s.owner, s.leases[run], o, now, fault).0), run) else s
    case BeginFinish(run, o, now, closing) => if run in s.leases then ApplyBeginFinish(s, run, o, now, closing) else s
    case AbandonRun(run, now, closing) => if run in s.leases then ApplyAbandon(s, run, now, closing) else s
    case BeginFence(identity) => ApplyBeginFence(s, identity)
    case SeeFree(operation) =>
      if operation in s.operations && MaySeeFree(s, s.operations[operation])
      then s.(operations := s.operations[operation := s.operations[operation].(free := true)]) else s
    case Confirm(operation, now, closing) =>
      if operation in s.operations && s.operations[operation].free then ApplyConfirm(s, operation, now, closing) else s
    case Restart(leftover) =>
      s.(live := map run | run in s.live :: s.live[run] - {LEASE}, leases := map[], operations := map[],
         disk := s.disk.(journal := s.disk.journal.(pending := s.disk.journal.pending + leftover)))
    case MachineCrash(kept, locks, leftover) =>
      if s.disk.journal.durable <= kept <= s.disk.journal.entries.Keys
      then s.(live := map[], leases := map[], operations := map[],
              disk := Disk(AfterCrash(s.disk.journal, kept, leftover), locks))
      else s
  }

  /** `Finished` closes the handle, then either ends or waits for the lock. */
  function ApplyBeginFinish(s: State, run: Id, o: Observation, now: Time, closing: CloseFault): (t: State)
    requires s.disk.journal.Valid() && run in s.leases
    ensures t.disk.journal.Valid() && t.owner == s.owner
  {
    var lease := s.leases[run];
    var (d, plan) := FinishLeaseSection(s.disk, s.owner, lease, o, now, closing);
    var closed := CloseHandle(s.(disk := d), run);
    match plan
    case Over(r) => if r.Ok? then closed.(leases := closed.leases - {run}) else closed
    case Wait(observed) =>
      var operation := Operation(lease.identity, Some(lease), observed, false);
      closed.(operations := closed.operations[s.nextOperation := operation],
              nextOperation := s.nextOperation + 1)
  }

  function ApplyAbandon(s: State, run: Id, now: Time, closing: CloseFault): (t: State)
    requires s.disk.journal.Valid() && run in s.leases
    ensures t.disk.journal.Valid() && t.owner == s.owner
  {
    var (d, r) := AbandonLeaseSection(s.disk, s.owner, s.leases[run], now, closing);
    var closed := CloseHandle(s.(disk := d), run);
    if r.Ok? then closed.(leases := closed.leases - {run}) else closed
  }

  function ApplyBeginFence(s: State, identity: Identity): (t: State)
    ensures t.disk == s.disk && t.owner == s.owner
  {
    match FenceSection(s.disk, s.owner, identity)
    case Over(_) => s
    case Wait(observed) =>
      s.(operations := s.operations[s.nextOperation := Operation(identity, None, observed, false)],
         nextOperation := s.nextOperation + 1)
  }

  /** The end of `FenceAndWait` or `Finished`. */
  function ApplyConfirm(s: State, operation: nat, now: Time, closing: CloseFault): (t: State)
    requires s.disk.journal.Valid() && operation in s.operations
    ensures t.disk.journal.Valid() && t.owner == s.owner
  {
    var o := s.operations[operation];
    var (d, r) := ConfirmSection(s.disk, s.owner, o.identity, o.lease, o.observed, now, closing);
    var done := s.(disk := d, operations := s.operations - {operation});
    if r.Ok? && o.lease.Some? then done.(leases := done.leases - {o.identity.run}) else done
  }

  function Run(s: State, steps: seq<Step>): (t: State)
    requires s.disk.journal.Valid()
    ensures t.disk.journal.Valid() && t.owner == s.owner
    decreases |steps|
  {
    if steps == [] then s else Apply(Run(s, steps[..|steps| - 1]), steps[|steps| - 1])
  }

  // --------------------------------------------------------------- invariant

  /** No run has both terminal records, nor an abandoned and an active one. */
  ghost predicate TerminalsExclude(j: Journal, run: Id) {
    Name(run, Abandoned) in j.entries ==> Name(run, Finished) !in j.entries && Name(run, Active) !in j.entries
  }

  /** Who holds a lock was prepared durably and is not finished. */
  ghost predicate RunInv(s: State, run: Id)
    requires s.disk.journal.Valid()
  {
    && TerminalsExclude(s.disk.journal, run)
    && (Live(s, run) != {} ==>
          && Name(run, Prepared) in s.disk.journal.durable && Name(run, Finished) !in s.disk.journal.entries
          && (Terminal(s.disk.journal, run) || run in s.disk.locks))
  }

  ghost predicate OperationInv(s: State, o: Operation) {
    && Name(o.identity.run, Prepared) in s.disk.journal.entries
    && (o.free ==> Live(s, o.identity.run) == {} || Terminal(s.disk.journal, o.identity.run))
  }

  ghost predicate Terminal(j: Journal, run: Id) {
    Name(run, Finished) in j.entries || Name(run, Abandoned) in j.entries
  }

  ghost predicate Inv(s: State) {
    && s.disk.journal.Valid()
    && (forall run :: RunInv(s, run))
    && (forall o :: o in s.operations ==> OperationInv(s, s.operations[o]))
    && (forall run :: run in s.leases ==>
            s.leases[run].identity.run == run && Name(run, Prepared) in s.disk.journal.entries)
  }

  /** Records are only added. */
  ghost predicate Grows(j: Journal, j': Journal) {
    && j.Valid() && j'.Valid() && j.durable <= j'.durable
    && forall n :: n in j.entries ==> n in j'.entries && j'.entries[n] == j.entries[n]
  }

  /** Records are only added, and only for `run` at `stage`. */
  ghost predicate AddsOnly(j: Journal, j': Journal, run: Id, stage: Stage) {
    Grows(j, j') && forall n :: n in j'.entries && n !in j.entries ==> n == Name(run, stage)
  }

  lemma PrepareAdds(d: Disk, owner: Owner, identity: Identity, now: Time, fault: Fault, lock: LockFault, undo: Fault)
    requires d.journal.Valid()
    ensures var (d', r) := PrepareSection(d, owner, identity, now, fault, lock, undo);
            var (j, j', run) := (d.journal, d'.journal, identity.run);
            && Grows(j, j')
            && (forall n :: n in j'.entries && n !in j.entries ==>
                    n == Name(run, Prepared) || n == Name(run, Abandoned))
            && (j'.entries != j.entries ==> forall n :: n in j.entries ==> n.run != run)
            && (r.Ok? ==>
                    Name(run, Prepared) in j'.durable && j'.entries != j.entries && Name(run, Abandoned) !in j'.entries)
            && (r.Ok? ==> r.value.identity == identity)
            && (forall i :: i in d'.locks && i !in d.locks ==> i == run && j'.entries != j.entries)
            && d.locks <= d'.locks && (r.Ok? ==> run in d'.locks)
            && (Name(run, Prepared) in j'.entries && Name(run, Prepared) !in j.entries ==>
                  && j'.entries[Name(run, Prepared)].PreparedRecord?
                  && j'.entries[Name(run, Prepared)].identity == identity)
  {
    var record := PreparedRecord(1, owner, identity, identity, Some(now));
    var d1 := Write(d, identity.run, Prepared, record, fault).0;
    WriteAdds(d, identity.run, Prepared, record, fault);
    WriteAdds(d1, identity.run, Abandoned, AbandonedRecord(identity.run, Digest(record), now), undo);
    if Listed(d, owner) && Name(identity.run, Prepared) !in d.journal.entries {
      Unrooted(d, identity.run);
    }
    PrepareProceeds(d, owner, identity, now, fault, lock, undo);
    hide PrepareSection, Get, Listed, Write;
  }

  /** Either nothing is written, or a fresh run is prepared and, when its lock
      cannot be had, abandoned. */
  lemma PrepareProceeds(d: Disk, owner: Owner, identity: Identity, now: Time, fault: Fault, lock: LockFault,
      undo: Fault)
    requires d.journal.Valid()
    ensures var (d', r) := PrepareSection(d, owner, identity, now, fault, lock, undo);
            var record := PreparedRecord(1, owner, identity, identity, Some(now));
            var (d1, written) := Write(d, identity.run, Prepared, record, fault);
            var abandoned := AbandonedRecord(identity.run, Digest(record), now);
            || (d' == d && r.Err?)
            || (&& Listed(d, owner) && Name(identity.run, Prepared) !in d.journal.entries
                && (|| (d' == d1 && r.Err?)
                    || (written && r.Err? && d' == Write(d1, identity.run, Abandoned, abandoned, undo).0)
                    || (written && d' == d1.(locks := d1.locks + {identity.run})
                        && r == Ok(Lease(identity, Digest(record))))))
  {
    hide Listed, Write, Get;
  }

  lemma WriteAdds(d: Disk, run: Id, stage: Stage, record: Record, fault: Fault)
    requires d.journal.Valid()
    ensures var (d', ok) := Write(d, run, stage, record, fault);
            && AddsOnly(d.journal, d'.journal, run, stage)
            && (Name(run, stage) in d'.journal.entries && Name(run, stage) !in d.journal.entries ==>
                  d'.journal.entries[Name(run, stage)] == record)
            && (ok ==> Name(run, stage) in d'.journal.durable && Name(run, stage) !in d.journal.entries)
            && (Name(run, stage) in d'.journal.entries || d'.journal.entries == d.journal.entries)
  {
  }

  lemma Unrooted(d: Disk, run: Id)
    requires Rooted(d) && Name(run, Prepared) !in d.journal.entries
    ensures forall n :: n in d.journal.entries ==> n.run != run
  {
  }

  lemma StartLeaseAdds(d: Disk, owner: Owner, lease: Lease, o: Observation, now: Time, fault: Fault)
    requires d.journal.Valid()
    ensures var d' := StartLeaseSection(d, owner, lease, o, now, fault).0;
            && d'.locks == d.locks && AddsOnly(d.journal, d'.journal, lease.identity.run, Active)
            && (d'.journal.entries != d.journal.entries ==> !Terminal(d.journal, lease.identity.run))
  {
  }

  /** A section that may abandon does so only without active or terminal. */
  ghost predicate AbandonsCleanly(j: Journal, j': Journal, run: Id) {
    && AddsOnly(j, j', run, Abandoned)
    && (j'.entries != j.entries ==> !Terminal(j, run) && Name(run, Active) !in j.entries)
  }

  /** Only the lock file of `run` may go, and only once `run` is closed. */
  ghost predicate LocksFor(d: Disk, d': Disk, run: Id) {
    d'.locks <= d.locks && forall i :: i in d.locks && i !in d'.locks ==> i == run && Terminal(d'.journal, run)
  }

  lemma FinishLeaseAdds(d: Disk, owner: Owner, lease: Lease, o: Observation, now: Time, closing: CloseFault)
    requires d.journal.Valid()
    ensures var (d', plan) := FinishLeaseSection(d, owner, lease, o, now, closing);
            && LocksFor(d, d', lease.identity.run) && AbandonsCleanly(d.journal, d'.journal, lease.identity.run)
            && (plan.Wait? ==>
                    plan.observed.Some? && d' == d && Name(lease.identity.run, Prepared) in d.journal.entries)
  {
  }

  lemma AbandonLeaseAdds(d: Disk, owner: Owner, lease: Lease, now: Time, closing: CloseFault)
    requires d.journal.Valid()
    ensures var d' := AbandonLeaseSection(d, owner, lease, now, closing).0;
            LocksFor(d, d', lease.identity.run) && AbandonsCleanly(d.journal, d'.journal, lease.identity.run)
  {
  }

  lemma ConfirmAdds(d: Disk, owner: Owner, o: Operation, now: Time, closing: CloseFault)
    requires d.journal.Valid()
    ensures var (d', r) := ConfirmSection(d, owner, o.identity, o.lease, o.observed, now, closing);
            var run := o.identity.run;
            && LocksFor(d, d', run)
            && (o.observed.None? ==> AbandonsCleanly(d.journal, d'.journal, run))
            && (o.observed.Some? ==> AddsOnly(d.journal, d'.journal, run, Finished))
            && (o.observed.Some? && d'.journal.entries != d.journal.entries ==>
                  !Terminal(d.journal, run) && Name(run, Active) in d.journal.entries)
            && (r.Ok? ==> Terminal(d'.journal, run))
  {
  }

  /** A step that adds records cleanly and no lock holder keeps the invariant. */
  ghost predicate Clean(s: State, t: State) {
    && Grows(s.disk.journal, t.disk.journal)
    && (forall run :: Live(t, run) <= Live(s, run))
    && (forall run :: run in s.disk.locks ==> run in t.disk.locks || Terminal(t.disk.journal, run))
    && (forall run :: TerminalsExclude(s.disk.journal, run) ==> TerminalsExclude(t.disk.journal, run))
    && (forall run :: Name(run, Finished) in t.disk.journal.entries ==>
          Name(run, Finished) in s.disk.journal.entries || Live(s, run) == {})
    && (forall o :: o in t.operations ==>
          || (o in s.operations && t.operations[o] == s.operations[o])
          || (!t.operations[o].free && Name(t.operations[o].identity.run, Prepared) in t.disk.journal.entries))
    && (forall run :: run in t.leases ==> run in s.leases && t.leases[run] == s.leases[run])
  }

  lemma CleanKeeps(s: State, t: State)
    requires Inv(s) && Clean(s, t)
    ensures Inv(t)
  {
    forall run
      ensures RunInv(t, run)
    {
      assert RunInv(s, run);
    }
    forall o | o in t.operations
      ensures OperationInv(t, t.operations[o])
    {
      assert o in s.operations ==> OperationInv(s, s.operations[o]);
    }
  }

  lemma StartedKeeps(s: State, run: Id, o: Observation, now: Time, fault: Fault)
    requires Inv(s)
    ensures Inv(Apply(s, Started(run, o, now, fault)))
  {
    if run in s.leases {
      StartLeaseAdds(s.disk, s.owner, s.leases[run], o, now, fault);
      CleanKeeps(s, Apply(s, Started(run, o, now, fault)));
    }
  }

  lemma BeginFinishKeeps(s: State, run: Id, o: Observation, now: Time, closing: CloseFault)
    requires Inv(s) && run in s.leases
    ensures Inv(ApplyBeginFinish(s, run, o, now, closing))
  {
    hide FinishLeaseSection;
    FinishLeaseAdds(s.disk, s.owner, s.leases[run], o, now, closing);
    CleanKeeps(s, ApplyBeginFinish(s, run, o, now, closing));
  }

  lemma AbandonKeeps(s: State, run: Id, now: Time, closing: CloseFault)
    requires Inv(s) && run in s.leases
    ensures Inv(ApplyAbandon(s, run, now, closing))
  {
    hide AbandonLeaseSection;
    AbandonLeaseAdds(s.disk, s.owner, s.leases[run], now, closing);
    CleanKeeps(s, ApplyAbandon(s, run, now, closing));
  }

  lemma ConfirmKeeps(s: State, operation: nat, now: Time, closing: CloseFault)
    requires Inv(s) && operation in s.operations && s.operations[operation].free
    ensures Inv(ApplyConfirm(s, operation, now, closing))
  {
    hide ConfirmSection;
    assert OperationInv(s, s.operations[operation]);
    ConfirmAdds(s.disk, s.owner, s.operations[operation], now, closing);
    CleanKeeps(s, ApplyConfirm(s, operation, now, closing));
  }

  lemma PrepareKeeps(s: State, identity: Identity, now: Time, fault: Fault, lock: LockFault, undo: Fault)
    requires Inv(s)
    ensures Inv(Apply(s, Prepare(identity, now, fault, lock, undo)))
  {
    var (d, r) := PrepareSection(s.disk, s.owner, identity, now, fault, lock, undo);
    PrepareAdds(s.disk, s.owner, identity, now, fault, lock, undo);
    var recorded := s.(disk := d);
    RecordedKeeps(s, recorded, identity.run);
    if r.Ok? {
      HandleKeeps(recorded, identity.run, r.value);
    }
  }

  /** The records of a fresh run disturb nobody. */
  lemma RecordedKeeps(s: State, t: State, run: Id)
    requires Inv(s) && t == s.(disk := t.disk) && Grows(s.disk.journal, t.disk.journal) && s.disk.locks <= t.disk.locks
    requires forall n :: n in t.disk.journal.entries && n !in s.disk.journal.entries ==>
               n == Name(run, Prepared) || n == Name(run, Abandoned)
    requires t.disk.journal.entries != s.disk.journal.entries ==>
               forall n :: n in s.disk.journal.entries ==> n.run != run
    ensures Inv(t)
    ensures t.disk.journal.entries != s.disk.journal.entries ==>
              Name(run, Finished) !in t.disk.journal.entries && run !in t.leases
              && forall o :: o in t.operations ==> t.operations[o].identity.run != run
  {
    forall o | o in s.operations
      ensures OperationInv(s, s.operations[o])
    {
    }
    CleanKeeps(s, t);
  }

  /** A freshly prepared run gets its first holder. */
  lemma HandleKeeps(s: State, run: Id, lease: Lease)
    requires Inv(s) && lease.identity.run == run && Name(run, Prepared) in s.disk.journal.durable && run in s.disk.locks
    requires Name(run, Finished) !in s.disk.journal.entries
    requires forall o :: o in s.operations ==> s.operations[o].identity.run != run
    ensures Inv(SetLive(s.(leases := s.leases[run := lease]), run, {LEASE}))
  {
    var t := SetLive(s.(leases := s.leases[run := lease]), run, {LEASE});
    forall other
      ensures RunInv(t, other)
    {
      assert RunInv(s, other);
    }
    forall o | o in t.operations
      ensures OperationInv(t, t.operations[o])
    {
      assert OperationInv(s, s.operations[o]);
    }
  }

  lemma MachineCrashKeeps(s: State, kept: set<Name>, locks: set<Id>, leftover: nat)
    requires Inv(s)
    ensures Inv(Apply(s, MachineCrash(kept, locks, leftover)))
  {
    var t := Apply(s, MachineCrash(kept, locks, leftover));
    forall run
      ensures RunInv(t, run)
    {
      assert RunInv(s, run);
    }
  }

  lemma HoldersKeep(s: State, step: Step)
    requires Inv(s) && (step.Fork? || step.Exit? || step.SeeFree? || step.Restart? || step.BeginFence?)
    ensures Inv(Apply(s, step))
  {
    var t := Apply(s, step);
    forall run
      ensures RunInv(t, run)
    {
      assert RunInv(s, run);
    }
    forall o | o in t.operations
      ensures OperationInv(t, t.operations[o])
    {
      assert o in s.operations ==> OperationInv(s, s.operations[o]);
      assert RunInv(s, t.operations[o].identity.run);
    }
  }

  lemma StepKeeps(s: State, step: Step)
    requires Inv(s)
    ensures Inv(Apply(s, step))
  {
    match step
    case Prepare(identity, now, fault, lock, undo) => PrepareKeeps(s, identity, now, fault, lock, undo);
    case Started(run, o, now, fault) => StartedKeeps(s, run, o, now, fault);
    case BeginFinish(run, o, now, closing) => if run in s.leases { BeginFinishKeeps(s, run, o, now, closing); }
    case AbandonRun(run, now, closing) => if run in s.leases { AbandonKeeps(s, run, now, closing); }
    case Confirm(operation, now, closing) =>
      if operation in s.operations && s.operations[operation].free { ConfirmKeeps(s, operation, now, closing); }
    case MachineCrash(kept, locks, leftover) => MachineCrashKeeps(s, kept, locks, leftover);
    case _ => HoldersKeep(s, step);
  }

  lemma {:induction false} RunKeeps(owner: Owner, steps: seq<Step>)
    ensures Inv(Run(Init(owner), steps))
    decreases |steps|
  {
    if steps != [] {
      RunKeeps(owner, steps[..|steps| - 1]);
      StepKeeps(Run(Init(owner), steps[..|steps| - 1]), steps[|steps| - 1]);
    }
  }

  // ----------------------------------------------------------- main results

  /** A finished run has no live process, in every reachable state; no run has
      both terminal records, nor an abandoned one beside an active one. */
  lemma FinishedMeansGone(owner: Owner, steps: seq<Step>, run: Id)
    ensures var s := Run(Init(owner), steps);
            && TerminalsExclude(s.disk.journal, run)
            && (Name(run, Finished) in s.disk.journal.entries ==> Live(s, run) == {})
            && (Live(s, run) != {} ==> Name(run, Prepared) in s.disk.journal.durable)
  {
    RunKeeps(owner, steps);
    assert RunInv(Run(Init(owner), steps), run);
  }

  /** Every finished run still has its active record. */
  ghost predicate FinishedHasActive(names: set<Name>) {
    forall n :: n in names && n.stage == Finished ==> Name(n.run, Active) in names
  }

  /** What any step other than a prepare or a crash does to records and
      holders: it adds no prepared record, nothing to a closed run and no first
      holder, finishes only active runs, and a disciplined one abandons only runs nobody holds. */
  ghost predicate Summary(s: State, step: Step, t: State) {
    && Grows(s.disk.journal, t.disk.journal) && t.disk.locks <= s.disk.locks
    && (forall n :: n in t.disk.journal.entries && n !in s.disk.journal.entries ==> AddedWell(s, step, t, n))
    && (forall run :: Live(s, run) == {} ==> Live(t, run) == {})
  }

  ghost predicate AddedWell(s: State, step: Step, t: State, n: Name) {
    && n.stage != Prepared && !Terminal(s.disk.journal, n.run)
    && (n.stage == Finished ==> Name(n.run, Active) in s.disk.journal.entries)
    && (n.stage == Abandoned && Disciplined(s, step) ==> Live(t, n.run) == {})
  }

  lemma StepSummary(s: State, step: Step)
    requires Inv(s) && !step.Prepare? && !step.MachineCrash?
    ensures Summary(s, step, Apply(s, step))
  {
    match step
    case Started(r, o, now, fault) => StartedSummary(s, r, o, now, fault);
    case BeginFinish(r, o, now, closing) => BeginFinishSummary(s, r, o, now, closing);
    case AbandonRun(r, now, closing) => AbandonSummary(s, r, now, closing);
    case Confirm(operation, now, closing) => ConfirmSummary(s, operation, now, closing);
    case _ =>
  }

  lemma StartedSummary(s: State, r: Id, o: Observation, now: Time, fault: Fault)
    requires Inv(s)
    ensures Summary(s, Started(r, o, now, fault), Apply(s, Started(r, o, now, fault)))
  {
    hide StartLeaseSection;
    if r in s.leases {
      StartLeaseAdds(s.disk, s.owner, s.leases[r], o, now, fault);
    }
  }

  lemma BeginFinishSummary(s: State, r: Id, o: Observation, now: Time, closing: CloseFault)
    requires Inv(s)
    ensures Summary(s, BeginFinish(r, o, now, closing), Apply(s, BeginFinish(r, o, now, closing)))
  {
    hide FinishLeaseSection;
    if r in s.leases {
      FinishLeaseAdds(s.disk, s.owner, s.leases[r], o, now, closing);
    }
  }

  lemma AbandonSummary(s: State, r: Id, now: Time, closing: CloseFault)
    requires Inv(s)
    ensures Summary(s, AbandonRun(r, now, closing), Apply(s, AbandonRun(r, now, closing)))
  {
    hide AbandonLeaseSection;
    if r in s.leases {
      AbandonLeaseAdds(s.disk, s.owner, s.leases[r], now, closing);
    }
  }

  lemma ConfirmSummary(s: State, operation: nat, now: Time, closing: CloseFault)
    requires Inv(s)
    ensures Summary(s, Confirm(operation, now, closing), Apply(s, Confirm(operation, now, closing)))
  {
    hide ConfirmSection;
    if operation in s.operations && s.operations[operation].free {
      assert OperationInv(s, s.operations[operation]);
      ConfirmAdds(s.disk, s.owner, s.operations[operation], now, closing);
    }
  }

  /** The active record of every finished run is on the disk for good. */
  ghost predicate Anchored(j: Journal) {
    forall n :: n in j.entries && n.stage == Finished ==> Name(n.run, Active) in j.durable
  }

  ghost predicate Inseparable(j: Journal) {
    forall kept :: CrashMayKeep(j, kept) ==> FinishedHasActive(kept)
  }

  /** No crash can separate a finished record from its active one exactly when
      the active records of all finished runs are durable before it. */
  lemma NoCrashSeparatesIff(j: Journal)
    requires j.Valid()
    ensures Inseparable(j) <==> Anchored(j)
  {
    if Inseparable(j) {
      forall n | n in j.entries && n.stage == Finished ensures Name(n.run, Active) in j.durable {
        assert CrashMayKeep(j, j.durable + {n});
        assert n in j.durable + {n};
      }
    }
  }

  /** The checks before the finished record of an operation is written. */
  predicate Finishes(d: Disk, owner: Owner, o: Operation) {
    var view := Get(d.journal, owner, o.identity.run);
    && view.Ok? && (o.lease.Some? ==> LeaseMatches(view.value, o.lease.value))
    && view.value.identity == o.identity && o.observed.Some? && view.value.terminal.None?
    && view.value.active.Some? && view.value.active.value.observation == o.observed.value
  }

  /** A confirm whose sync fails after it linked the finished record over an
      active record that was left unsynced. */
  predicate Severs(s: State, step: Step) {
    && step.Confirm? && step.operation in s.operations && s.operations[step.operation].free
    && Finishes(s.disk, s.owner, s.operations[step.operation]) && step.closing.write == FailsAfterLink
    && Name(s.operations[step.operation].identity.run, Active) !in s.disk.journal.durable
  }

  lemma ConfirmWrites(d: Disk, owner: Owner, o: Operation, now: Time, closing: CloseFault)
    requires d.journal.Valid() && Anchored(d.journal)
    ensures Anchored(ConfirmSection(d, owner, o.identity, o.lease, o.observed, now, closing).0.journal) <==>
              !(Finishes(d, owner, o) && closing.write == FailsAfterLink
                && Name(o.identity.run, Active) !in d.journal.durable)
  {
    var (d', _) := ConfirmSection(d, owner, o.identity, o.lease, o.observed, now, closing);
    ConfirmAdds(d, owner, o, now, closing);
    if Finishes(d, owner, o) {
      FinishAnchors(d, Get(d.journal, owner, o.identity.run).value, now, closing);
    } else {
      assert forall n :: n in d'.journal.entries && n.stage == Finished ==> n in d.journal.entries;
    }
  }

  lemma FinishAnchors(d: Disk, view: View, now: Time, closing: CloseFault)
    requires d.journal.Valid() && Anchored(d.journal) && view.active.Some?
    requires Name(view.identity.run, Active) in d.journal.entries
    requires Name(view.identity.run, Finished) !in d.journal.entries
    ensures Anchored(Finish(d, view, now, closing).0.journal) <==>
              closing.write != FailsAfterLink || Name(view.identity.run, Active) in d.journal.durable
  {
  }

  /** A step keeps every finished run's active record durable exactly when it
      does not sever the two. */
  lemma StepAnchors(s: State, step: Step)
    requires Inv(s) && Anchored(s.disk.journal)
    ensures Anchored(Apply(s, step).disk.journal) <==> !Severs(s, step)
  {
    if step.Prepare? {
      PrepareAdds(s.disk, s.owner, step.identity, step.now, step.fault, step.lock, step.undo);
    } else if step.Confirm? {
      if step.operation in s.operations && s.operations[step.operation].free {
        ConfirmWrites(s.disk, s.owner, s.operations[step.operation], step.now, step.closing);
      }
      hide Inv, ConfirmSection, Anchored, Finishes;
    } else if !step.MachineCrash? {
      NothingFinished(s, step);
      hide Inv;
    }
  }

  /** Only a confirm writes a finished record. */
  lemma NothingFinished(s: State, step: Step)
    requires Inv(s) && !step.Prepare? && !step.Confirm? && !step.MachineCrash?
    ensures Grows(s.disk.journal, Apply(s, step).disk.journal)
    ensures forall n :: n in Apply(s, step).disk.journal.entries && n.stage == Finished ==> n in s.disk.journal.entries
  {
    match step
    case Started(r, o, now, fault) =>
      if r in s.leases { StartLeaseAdds(s.disk, s.owner, s.leases[r], o, now, fault); }
      hide StartLeaseSection;
    case BeginFinish(r, o, now, closing) =>
      if r in s.leases { FinishLeaseAdds(s.disk, s.owner, s.leases[r], o, now, closing); }
      hide FinishLeaseSection;
    case AbandonRun(r, now, closing) =>
      if r in s.leases { AbandonLeaseAdds(s.disk, s.owner, s.leases[r], now, closing); }
      hide AbandonLeaseSection;
    case _ =>
  }

  predicate SeversAt(s: State, steps: seq<Step>, k: nat)
    requires s.disk.journal.Valid() && k < |steps|
  {
    Severs(Run(s, steps[..k]), steps[k])
  }

  ghost predicate SafeAt(s: State, steps: seq<Step>, k: nat)
    requires s.disk.journal.Valid() && k <= |steps|
  {
    Inseparable(Run(s, steps[..k]).disk.journal)
  }

  /** No step of the run severs. */
  predicate NothingSevered(s: State, steps: seq<Step>)
    requires s.disk.journal.Valid()
  {
    forall k :: 0 <= k < |steps| ==> !SeversAt(s, steps, k)
  }

  /** From a state in which no crash could keep a finished record and drop its active one,
      one step gets into a state in which a crash could exactly by severing. */
  lemma SeversIff(s: State, step: Step)
    requires Inv(s) && Inseparable(s.disk.journal)
    ensures Severs(s, step) <==> !Inseparable(Apply(s, step).disk.journal)
  {
    NoCrashSeparatesIff(s.disk.journal);
    StepAnchors(s, step);
    NoCrashSeparatesIff(Apply(s, step).disk.journal);
    hide Inseparable, Anchored, Severs, Apply;
  }

  lemma SafeFirst(owner: Owner, steps: seq<Step>)
    ensures SafeAt(Init(owner), steps, 0)
  {
    assert steps[..0] == [] && Run(Init(owner), []) == Init(owner);
    assert Anchored(Init(owner).disk.journal);
    NoCrashSeparatesIff(Init(owner).disk.journal);
    hide Anchored, Inseparable, Run;
  }

  lemma SafeNext(owner: Owner, steps: seq<Step>, k: nat)
    requires k < |steps| && SafeAt(Init(owner), steps, k)
    ensures SafeAt(Init(owner), steps, k + 1) <==> !SeversAt(Init(owner), steps, k)
  {
    RunKeeps(owner, steps[..k]);
    SeversIff(Run(Init(owner), steps[..k]), steps[k]);
    assert steps[..k + 1][..k] == steps[..k];
    hide Severs, Inseparable, Apply;
  }

  lemma {:induction false} SafeUpTo(owner: Owner, steps: seq<Step>, n: nat)
    requires n <= |steps|
    ensures (forall k :: 0 <= k < n ==> !SeversAt(Init(owner), steps, k)) <==>
              forall k :: 0 <= k <= n ==> SafeAt(Init(owner), steps, k)
  {
    hide SafeAt, SeversAt;
    if n == 0 {
      SafeFirst(owner, steps);
    } else {
      SafeUpTo(owner, steps, n - 1);
      if SafeAt(Init(owner), steps, n - 1) {
        SafeNext(owner, steps, n - 1);
      }
    }
  }

  /** A run severs nothing exactly when at no moment of it a crash could
      keep a finished record and drop its active one. */
  lemma InseparableIff(owner: Owner, steps: seq<Step>)
    ensures NothingSevered(Init(owner), steps) <==>
              forall k :: 0 <= k <= |steps| ==> SafeAt(Init(owner), steps, k)
  {
    SafeUpTo(owner, steps, |steps|);
  }

  /** In every run that severs nothing, finished runs have their active records,
      whatever crashes kept. */
  lemma FinishedWasActive(owner: Owner, steps: seq<Step>)
    requires NothingSevered(Init(owner), steps)
    ensures FinishedHasActive(Run(Init(owner), steps).disk.journal.entries.Keys)
  {
    InseparableIff(owner, steps);
    assert steps[..|steps|] == steps;
    var j := Run(Init(owner), steps).disk.journal;
    assert SafeAt(Init(owner), steps, |steps|) && CrashMayKeep(j, j.entries.Keys);
  }

  /** A run whose finished record lost its active one is refused, so no section
      touches it again and it never counts as finished. */
  lemma OrphanFailsClosed(d: Disk, owner: Owner, identity: Identity)
    requires Name(identity.run, Finished) in d.journal.entries && Name(identity.run, Active) !in d.journal.entries
    ensures Get(d.journal, owner, identity.run).Err? && !FinishedProcess(d, owner, identity)
  {
  }

  ghost predicate Reaches(s: State, t: State)
    requires s.disk.journal.Valid()
  {
    exists steps :: Run(s, steps) == t
  }

  lemma ReachesOn(s: State, t: State, step: Step)
    requires s.disk.journal.Valid() && t.disk.journal.Valid() && Reaches(s, t)
    ensures Reaches(s, Apply(t, step))
  {
    var steps :| Run(s, steps) == t;
    assert (steps + [step])[..|steps|] == steps;
    assert Run(s, steps + [step]) == Apply(t, step);
  }

  function FirstPrepared(owner: Owner, identity: Identity): Record {
    PreparedRecord(1, owner, identity, identity, Some(1))
  }

  function FirstActive(owner: Owner, identity: Identity): Record {
    ActiveRecord(2, identity.run, Digest(FirstPrepared(owner, identity)), Observation(2, 2), Some(1))
  }

  /** A journal with a prepared run whose active record was linked but not synced. */
  function HalfActive(owner: Owner, identity: Identity): (j: Journal)
    ensures j.Valid()
  {
    var (p, a) := (Name(identity.run, Prepared), Name(identity.run, Active));
    Directory(map[p := FirstPrepared(owner, identity), a := FirstActive(owner, identity)], {p}, 0)
  }

  lemma PrepareFirst(owner: Owner, identity: Identity)
    requires ValidIdentity(identity)
    ensures var p := Name(identity.run, Prepared);
            PrepareSection(Init(owner).disk, owner, identity, 1, NoFault, LockReady, NoFault)
            == (Disk(Directory(map[p := FirstPrepared(owner, identity)], {p}, 0), {identity.run}),
                Ok(Lease(identity, Digest(FirstPrepared(owner, identity)))))
  {
    assert PreparedNames(Init(owner).disk.journal) == {};
    var p := Name(identity.run, Prepared);
    assert map[][p := FirstPrepared(owner, identity)] == map[p := FirstPrepared(owner, identity)];
    assert map[p := FirstPrepared(owner, identity)].Keys == {p};
  }

  lemma StartUnsynced(owner: Owner, identity: Identity)
    requires ValidIdentity(identity)
    ensures var p := Name(identity.run, Prepared);
            var d := Disk(Directory(map[p := FirstPrepared(owner, identity)], {p}, 0), {identity.run});
            StartLeaseSection(
              d, owner, Lease(identity, Digest(FirstPrepared(owner, identity))), Observation(2, 2), 1, FailsAfterLink).0
            == Disk(HalfActive(owner, identity), {identity.run})
  {
  }

  lemma ReachesHalfActive(owner: Owner, identity: Identity) returns (t: State)
    requires ValidIdentity(identity)
    ensures Reaches(Init(owner), t) && t.owner == owner
    ensures t.disk == Disk(HalfActive(owner, identity), {identity.run})
    ensures Live(t, identity.run) == {} && t.nextOperation == 0 && t.operations == map[]
  {
    var s := Init(owner);
    assert Run(s, []) == s;
    hide Run, PrepareSection, StartLeaseSection;
    PrepareFirst(owner, identity);
    StartUnsynced(owner, identity);
    var prepare := Prepare(identity, 1, NoFault, LockReady, NoFault);
    ReachesOn(s, s, prepare);
    hide Reaches;
    var started := Started(identity.run, Observation(2, 2), 1, FailsAfterLink);
    t := Apply(Apply(s, prepare), started);
    ReachesOn(s, Apply(s, prepare), started);
  }

  lemma FinishUnsynced(owner: Owner, identity: Identity, locks: set<Id>)
    requires ValidIdentity(identity)
    ensures var (d, o) := (Disk(HalfActive(owner, identity), locks), Observation(2, 2));
            var finished := ConfirmSection(d, owner, identity, None, Some(o), 1, CloseFault(FailsAfterLink, Removed)).0;
            && FenceSection(d, owner, identity) == Wait(Some(o))
            && finished.journal.durable == {Name(identity.run, Prepared)}
            && finished.journal.entries.Keys
               == {Name(identity.run, Prepared), Name(identity.run, Active), Name(identity.run, Finished)}
  {
  }

  lemma ReachesSeenFree(owner: Owner, identity: Identity) returns (t: State)
    requires ValidIdentity(identity)
    ensures Reaches(Init(owner), t) && t.owner == owner
    ensures t.disk == Disk(HalfActive(owner, identity), {identity.run})
    ensures 0 in t.operations && t.operations[0] == Operation(identity, None, Some(Observation(2, 2)), true)
  {
    var s := Init(owner);
    var before := ReachesHalfActive(owner, identity);
    FinishUnsynced(owner, identity, {identity.run});
    hide Run, Reaches, HalfActive, FenceSection, ConfirmSection, Live, Apply;
    ReachesOn(s, before, BeginFence(identity));
    FenceWaits(before, identity, Observation(2, 2));
    var waiting := Apply(before, BeginFence(identity));
    SameLive(before, waiting, identity.run);
    ReachesOn(s, waiting, SeeFree(0));
    SeesFree(waiting, 0);
    t := Apply(waiting, SeeFree(0));
  }

  lemma FenceWaits(s: State, identity: Identity, o: Observation)
    requires s.disk.journal.Valid() && s.nextOperation == 0
    requires FenceSection(s.disk, s.owner, identity) == Wait(Some(o))
    ensures var t := Apply(s, BeginFence(identity));
            && t.live == s.live && t.disk == s.disk
            && 0 in t.operations && t.operations[0] == Operation(identity, None, Some(o), false)
  {
  }

  lemma SeesFree(s: State, operation: nat)
    requires s.disk.journal.Valid() && operation in s.operations && Live(s, s.operations[operation].identity.run) == {}
    ensures var t := Apply(s, SeeFree(operation));
            && t.disk == s.disk && operation in t.operations
            && t.operations[operation] == s.operations[operation].(free := true)
  {
  }

  lemma SameLive(s: State, t: State, run: Id)
    requires t.live == s.live
    ensures Live(t, run) == Live(s, run)
  {
  }

  /** Such a crash can happen to any run: the syncs after its active and its
      finished record fail, and only the latter reaches the disk. */
  lemma OrphanIsReachable(owner: Owner, identity: Identity)
    requires ValidIdentity(identity)
    ensures exists t :: Reaches(Init(owner), t) && !FinishedHasActive(t.disk.journal.entries.Keys)
  {
    var s := Init(owner);
    var free := ReachesSeenFree(owner, identity);
    FinishUnsynced(owner, identity, {identity.run});
    hide Run, Reaches, HalfActive, FenceSection, ConfirmSection;
    var closing := CloseFault(FailsAfterLink, Removed);
    ReachesOn(s, free, Confirm(0, 1, closing));
    var finished := ApplyConfirm(free, 0, 1, closing);
    assert Apply(free, Confirm(0, 1, closing)) == finished;
    var kept := {Name(identity.run, Prepared), Name(identity.run, Finished)};
    CrashTo(s, finished, kept);
    assert Name(identity.run, Active) !in kept;
  }

  lemma CrashTo(s: State, t: State, kept: set<Name>)
    requires s.disk.journal.Valid() && t.disk.journal.Valid() && Reaches(s, t)
    requires t.disk.journal.durable <= kept <= t.disk.journal.entries.Keys
    ensures exists u :: Reaches(s, u) && u.disk.journal.entries.Keys == kept
  {
    hide Reaches, Run;
    ReachesOn(s, t, MachineCrash(kept, {}, 0));
    assert Apply(t, MachineCrash(kept, {}, 0)).disk.journal.entries.Keys == kept;
  }

  // ------------------------------------------------------- fencing everything

  /** Adapters abandon, or finish without an active record, only when their
      child is gone. */
  ghost predicate Disciplined(s: State, step: Step) {
    && (step.AbandonRun? ==> Live(s, step.run) <= {LEASE})
    && (step.BeginFinish? && Name(step.run, Active) !in s.disk.journal.entries ==> Live(s, step.run) <= {LEASE})
  }

  ghost predicate DisciplinedRun(s: State, steps: seq<Step>)
    requires s.disk.journal.Valid()
  {
    forall k :: 0 <= k < |steps| ==> Disciplined(Run(s, steps[..k]), steps[k])
  }

  ghost predicate AbandonedGone(s: State) {
    forall run :: Name(run, Abandoned) in s.disk.journal.entries ==> Live(s, run) == {}
  }

  lemma StepKeepsAbandoned(s: State, step: Step)
    requires Inv(s) && AbandonedGone(s) && Disciplined(s, step)
    ensures AbandonedGone(Apply(s, step))
  {
    if step.Prepare? {
      PrepareAdds(s.disk, s.owner, step.identity, step.now, step.fault, step.lock, step.undo);
      assert RunInv(s, step.identity.run);
    } else if !step.MachineCrash? {
      StepSummary(s, step);
    }
  }

  lemma {:induction false} DisciplinedKeeps(s: State, steps: seq<Step>)
    requires Inv(s) && AbandonedGone(s) && DisciplinedRun(s, steps)
    ensures Inv(Run(s, steps)) && AbandonedGone(Run(s, steps))
    decreases |steps|
  {
    if steps != [] {
      var front := steps[..|steps| - 1];
      assert forall k :: 0 <= k < |front| ==> front[..k] == steps[..k];
      DisciplinedKeeps(s, front);
      StepKeeps(Run(s, front), steps[|steps| - 1]);
      StepKeepsAbandoned(Run(s, front), steps[|steps| - 1]);
    }
  }

  /** Without a prepare, no run gains its first holder or a prepared record. */
  lemma StepNothingNew(s: State, step: Step)
    requires Inv(s) && !step.Prepare?
    ensures forall run :: Live(s, run) == {} ==> Live(Apply(s, step), run) == {}
    ensures forall n :: n in Apply(s, step).disk.journal.entries && n.stage == Prepared ==> n in s.disk.journal.entries
  {
    if !step.MachineCrash? {
      StepSummary(s, step);
    }
  }

  // ------------------------------------------------------ finished is final

  lemma GetFrame(j: Journal, j': Journal, owner: Owner, run: Id)
    requires forall stage :: Name(run, stage) in j.entries <==> Name(run, stage) in j'.entries
    requires forall stage :: Name(run, stage) in j.entries && Name(run, stage) in j'.entries ==>
               j'.entries[Name(run, stage)] == j.entries[Name(run, stage)]
    ensures Get(j', owner, run) == Get(j, owner, run)
  {
  }

  /** No section adds a record for a run that has all it can have, nor a lock. */
  ghost predicate LeavesAlone(d: Disk, d': Disk, run: Id) {
    && Grows(d.journal, d'.journal)
    && (forall n :: n in d'.journal.entries && n !in d.journal.entries ==> n.run != run)
    && (run in d'.locks ==> run in d.locks)
  }

  lemma LeftAloneStays(d: Disk, d': Disk, owner: Owner, identity: Identity)
    requires LeavesAlone(d, d', identity.run) && FinishedProcess(d, owner, identity)
    ensures FinishedProcess(d', owner, identity)
  {
    GetFrame(d.journal, d'.journal, owner, identity.run);
  }

  /** While the machine stays up, a finished process stays finished under the
      same identity. */
  lemma FinishedStays(s: State, step: Step, identity: Identity)
    requires Inv(s) && FinishedProcess(s.disk, s.owner, identity) && !step.MachineCrash?
    ensures FinishedProcess(Apply(s, step).disk, s.owner, identity)
  {
    if step.Prepare? {
      hide PrepareSection;
      PrepareAdds(s.disk, s.owner, step.identity, step.now, step.fault, step.lock, step.undo);
    } else {
      hide Apply;
      StepSummary(s, step);
    }
    LeftAloneStays(s.disk, Apply(s, step).disk, s.owner, identity);
  }
}
