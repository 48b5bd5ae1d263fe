/**
 The process store and its lease objects, in place.

 A lease keeps the lock file open until the child has it, and remembers whether
 it is closed; the store keeps the leases it still has to close.  `model` is the
 protocol state the objects stand for: a lease that is not closed is a lease of
 the protocol, and an open lock file is the bridge's own hold on the lock.
 Methods that wait with the store unlocked are given as their two halves.
 */
module ProcessLeases {
  import opened Wrappers
  import opened DurableDirectory
  import opened ProcessStore
  import P = ProcessProtocol
  import Fence = RuntimeFence

  /** What one lease object says: whether its lock file is open, whether it is
      closed, and whether the store still has to close it. */
  datatype Snap = Snap(lease: Lease, handle: bool, over: bool, kept: bool)

  ghost predicate Fits(s: P.State, open: bool, run: Id, snap: Snap) {
    && snap.lease.identity.run == run && Name(run, Prepared) in s.disk.journal.entries
    && (snap.handle <==> P.LEASE in P.Live(s, run))
    && (snap.handle ==> open && snap.kept && !snap.over)
    && (run in s.leases <==> open && !snap.over)
    && (run in s.leases ==> s.leases[run] == snap.lease)
  }

  /** The bridge has something of this run. */
  ghost predicate Ours(s: P.State, run: Id) {
    run in s.leases || P.LEASE in P.Live(s, run)
  }

  ghost predicate Agrees(s: P.State, open: bool, snaps: map<Id, Snap>) {
    && s.disk.journal.Valid() && P.Inv(s)
    && (forall run :: run in snaps ==> Fits(s, open, run, snaps[run]))
    && (forall run :: Ours(s, run) ==> run in snaps)
  }

  /** Only `run` may differ, and records are only added. */
  ghost predicate Local(s: P.State, t: P.State, run: Id) {
    && t.owner == s.owner
    && (forall n :: n in s.disk.journal.entries ==> n in t.disk.journal.entries)
    && (forall other :: other != run ==> (P.LEASE in P.Live(t, other) <==> P.LEASE in P.Live(s, other)))
    && (forall other :: other != run ==> (other in t.leases <==> other in s.leases))
    && (forall other :: other != run && other in s.leases ==> t.leases[other] == s.leases[other])
  }

  /** A step that concerns one run only needs a look at that run only. */
  lemma LocalAgrees(s: P.State, t: P.State, open: bool, snaps: map<Id, Snap>, run: Id, snap: Snap)
    requires Agrees(s, open, snaps) && P.Inv(t) && Local(s, t, run) && Fits(t, open, run, snap)
    ensures Agrees(t, open, snaps[run := snap])
  {
    assert t.disk.journal.Valid();
    hide P.Inv, P.Live;
  }

  // --------------------------------------------- what each step does to a lease

  /** The lease gives up its lock file and, when `over`, is no lease any more. */
  ghost predicate Released(s: P.State, t: P.State, run: Id, over: bool) {
    && t.owner == s.owner && P.Grows(s.disk.journal, t.disk.journal)
    && (forall other :: P.Live(t, other) == if other == run then P.Live(s, run) - {P.LEASE} else P.Live(s, other))
    && t.leases == (if over then s.leases - {run} else s.leases)
  }

  lemma ReleasedFits(s: P.State, t: P.State, run: Id, snap: Snap, over: bool, kept: bool)
    requires Fits(s, true, run, snap) && !snap.over && Released(s, t, run, over)
    ensures Local(s, t, run) && Fits(t, true, run, snap.(handle := false, over := over, kept := kept))
  {
    hide P.Live;
  }

  lemma IdleFits(s: P.State, open: bool, run: Id, snap: Snap, kept: bool)
    requires Fits(s, open, run, snap) && (!open || snap.over)
    ensures run !in s.leases && !snap.handle
    ensures Local(s, s, run) && Fits(s, open, run, snap.(handle := false, kept := kept))
  {
  }

  lemma StartedReleases(s: P.State, run: Id, o: Observation, now: Time, fault: Fault)
    requires s.disk.journal.Valid() && run in s.leases && s.leases[run].identity.run == run
    ensures var t := P.Apply(s, P.Started(run, o, now, fault));
            Released(s, t, run, false) && t.disk == StartLeaseSection(s.disk, s.owner, s.leases[run], o, now, fault).0
  {
    P.StartLeaseAdds(s.disk, s.owner, s.leases[run], o, now, fault);
    hide StartLeaseSection;
  }

  lemma BeginFinishReleases(s: P.State, run: Id, o: Observation, now: Time, fault: CloseFault)
    requires s.disk.journal.Valid() && run in s.leases && s.leases[run].identity.run == run
    ensures var t := P.Apply(s, P.BeginFinish(run, o, now, fault));
            var (d, plan) := FinishLeaseSection(s.disk, s.owner, s.leases[run], o, now, fault);
            Released(s, t, run, plan == Over(Ok(()))) && t.disk == d
  {
    P.FinishLeaseAdds(s.disk, s.owner, s.leases[run], o, now, fault);
    hide FinishLeaseSection;
  }

  lemma AbandonReleases(s: P.State, run: Id, now: Time, fault: CloseFault)
    requires s.disk.journal.Valid() && run in s.leases && s.leases[run].identity.run == run
    ensures var t := P.Apply(s, P.AbandonRun(run, now, fault));
            var (d, r) := AbandonLeaseSection(s.disk, s.owner, s.leases[run], now, fault);
            Released(s, t, run, r.Ok?) && t.disk == d
  {
    P.AbandonLeaseAdds(s.disk, s.owner, s.leases[run], now, fault);
    hide AbandonLeaseSection;
  }

  lemma ReleaseAgrees(s: P.State, step: P.Step, snaps: map<Id, Snap>, run: Id, over: bool, kept: bool)
    requires Agrees(s, true, snaps) && run in snaps && !snaps[run].over && Released(s, P.Apply(s, step), run, over)
    ensures Agrees(P.Apply(s, step), true, snaps[run := snaps[run].(handle := false, over := over, kept := kept)])
  {
    P.StepKeeps(s, step);
    ReleasedFits(s, P.Apply(s, step), run, snaps[run], over, kept);
    hide P.Inv, P.Apply, Fits, Local, Released;
    LocalAgrees(s, P.Apply(s, step), true, snaps, run, snaps[run].(handle := false, over := over, kept := kept));
  }

  /** Nothing happens to a run without an open lease. */
  lemma IdleAgrees(s: P.State, open: bool, snaps: map<Id, Snap>, run: Id)
    requires Agrees(s, open, snaps) && run in snaps && (!open || snaps[run].over)
    ensures run !in s.leases && !snaps[run].handle
    ensures Agrees(s, open, snaps[run := snaps[run].(handle := false)])
  {
    IdleFits(s, open, run, snaps[run], snaps[run].kept);
    hide P.Inv, Fits, Local;
    LocalAgrees(s, s, open, snaps, run, snaps[run].(handle := false));
  }

  lemma StartedAgrees(s: P.State, open: bool, snaps: map<Id, Snap>, run: Id, o: Observation, now: Time, fault: Fault)
    requires Agrees(s, open, snaps) && run in snaps
    ensures var (t, snap) := (P.Apply(s, P.Started(run, o, now, fault)), snaps[run]);
            && Agrees(t, open, snaps[run := snap.(handle := false)]) && (snap.over ==> !snap.handle)
            && t.disk == (if open && !snap.over then StartLeaseSection(s.disk, s.owner, snap.lease, o, now, fault).0
                          else s.disk)
  {
    var step := P.Started(run, o, now, fault);
    if !open || snaps[run].over {
      IdleAgrees(s, open, snaps, run);
      assert P.Apply(s, step) == s;
    } else {
      assert Fits(s, open, run, snaps[run]);
      StartedReleases(s, run, o, now, fault);
      hide P.Apply, StartLeaseSection, Agrees, Released;
      ReleaseAgrees(s, step, snaps, run, false, snaps[run].kept);
    }
  }

  lemma BeginFinishAgrees(s: P.State, open: bool, snaps: map<Id, Snap>, run: Id, o: Observation, now: Time,
      fault: CloseFault, kept: bool)
    requires Agrees(s, open, snaps) && run in snaps && !snaps[run].over && (open || kept == snaps[run].kept)
    ensures var (t, snap) := (P.Apply(s, P.BeginFinish(run, o, now, fault)), snaps[run]);
            var (d, plan) := FinishLeaseSection(s.disk, s.owner, snap.lease, o, now, fault);
            && t.disk == (if open then d else s.disk)
            && Agrees(t, open, snaps[run := snap.(handle := false, over := open && plan == Over(Ok(())), kept := kept)])
  {
    var step := P.BeginFinish(run, o, now, fault);
    if open {
      assert Fits(s, open, run, snaps[run]);
      BeginFinishReleases(s, run, o, now, fault);
      hide P.Apply, FinishLeaseSection, Agrees, Released;
      var plan := FinishLeaseSection(s.disk, s.owner, snaps[run].lease, o, now, fault).1;
      ReleaseAgrees(s, step, snaps, run, plan == Over(Ok(())), kept);
    } else {
      IdleAgrees(s, open, snaps, run);
      assert P.Apply(s, step) == s;
    }
  }

  lemma AbandonAgrees(s: P.State, open: bool, snaps: map<Id, Snap>, run: Id, now: Time, fault: CloseFault, kept: bool)
    requires Agrees(s, open, snaps) && run in snaps && !snaps[run].over && (open || kept == snaps[run].kept)
    ensures var (t, snap) := (P.Apply(s, P.AbandonRun(run, now, fault)), snaps[run]);
            var (d, r) := AbandonLeaseSection(s.disk, s.owner, snap.lease, now, fault);
            && t.disk == (if open then d else s.disk)
            && Agrees(t, open, snaps[run := snap.(handle := false, over := open && r.Ok?, kept := kept)])
  {
    var step := P.AbandonRun(run, now, fault);
    if open {
      assert Fits(s, open, run, snaps[run]);
      AbandonReleases(s, run, now, fault);
      hide P.Apply, AbandonLeaseSection, Agrees, Released;
      var r := AbandonLeaseSection(s.disk, s.owner, snaps[run].lease, now, fault).1;
      ReleaseAgrees(s, step, snaps, run, r.Ok?, kept);
    } else {
      IdleAgrees(s, open, snaps, run);
      assert P.Apply(s, step) == s;
    }
  }

  /** No lease and no hold of the bridge changes. */
  ghost predicate Untouched(s: P.State, t: P.State) {
    && t.leases == s.leases && (forall n :: n in s.disk.journal.entries ==> n in t.disk.journal.entries)
    && forall run :: P.LEASE in P.Live(t, run) <==> P.LEASE in P.Live(s, run)
  }

  lemma UntouchedAgrees(s: P.State, t: P.State, open: bool, snaps: map<Id, Snap>)
    requires Agrees(s, open, snaps) && P.Inv(t) && Untouched(s, t)
    ensures Agrees(t, open, snaps)
  {
    assert t.disk.journal.Valid();
    hide P.Inv, P.Live;
  }

  /** What processes and fencing calls do leaves the lease objects alone. */
  lemma QuietAgrees(s: P.State, step: P.Step, open: bool, snaps: map<Id, Snap>)
    requires Agrees(s, open, snaps) && (step.Fork? || step.Exit? || step.BeginFence? || step.SeeFree?)
    ensures Agrees(P.Apply(s, step), open, snaps) && P.Apply(s, step).disk == s.disk
  {
    QuietUntouched(s, step);
    P.StepKeeps(s, step);
    hide P.Inv, P.Apply, Agrees, Untouched;
    UntouchedAgrees(s, P.Apply(s, step), open, snaps);
  }

  lemma QuietUntouched(s: P.State, step: P.Step)
    requires P.Inv(s) && (step.Fork? || step.Exit? || step.BeginFence? || step.SeeFree?)
    ensures Untouched(s, P.Apply(s, step)) && P.Apply(s, step).disk == s.disk
  {
    if step.Fork? && step.parent in P.Live(s, step.run) {
      assert forall run :: run != step.run ==> P.Live(P.Apply(s, step), run) == P.Live(s, run);
    }
  }

  /** A fencing call by itself closes no lease. */
  lemma FenceConfirmAgrees(s: P.State, operation: nat, now: Time, fault: CloseFault, snaps: map<Id, Snap>)
    requires Agrees(s, true, snaps) && operation in s.operations
    requires s.operations[operation].free && s.operations[operation].lease.None?
    ensures var (t, o) := (P.Apply(s, P.Confirm(operation, now, fault)), s.operations[operation]);
            && Agrees(t, true, snaps)
            && t.disk == ConfirmSection(s.disk, s.owner, o.identity, None, o.observed, now, fault).0
  {
    var o := s.operations[operation];
    P.ConfirmAdds(s.disk, s.owner, o, now, fault);
    P.StepKeeps(s, P.Confirm(operation, now, fault));
    assert Untouched(s, P.Apply(s, P.Confirm(operation, now, fault))) by {
      hide P.Inv, ConfirmSection, Agrees;
    }
    hide P.Inv, P.Apply, Agrees, Untouched;
    UntouchedAgrees(s, P.Apply(s, P.Confirm(operation, now, fault)), true, snaps);
  }

  lemma LeaseConfirmReleases(s: P.State, operation: nat, now: Time, fault: CloseFault)
    requires s.disk.journal.Valid() && operation in s.operations && s.operations[operation].free
    requires s.operations[operation].lease.Some? && P.LEASE !in P.Live(s, s.operations[operation].identity.run)
    ensures var (t, o) := (P.Apply(s, P.Confirm(operation, now, fault)), s.operations[operation]);
            var (d, r) := ConfirmSection(s.disk, s.owner, o.identity, o.lease, o.observed, now, fault);
            t.disk == d && Released(s, t, o.identity.run, r.Ok?)
  {
    P.ConfirmAdds(s.disk, s.owner, s.operations[operation], now, fault);
    hide ConfirmSection;
  }

  /** The second half of `Finished` closes its lease when it succeeds. */
  lemma LeaseConfirmAgrees(s: P.State, operation: nat, now: Time, fault: CloseFault, snaps: map<Id, Snap>, kept: bool)
    requires Agrees(s, true, snaps) && operation in s.operations
    requires s.operations[operation].free && s.operations[operation].lease.Some?
    requires var run := s.operations[operation].identity.run; run in snaps && !snaps[run].handle && !snaps[run].over
    ensures var (t, o) := (P.Apply(s, P.Confirm(operation, now, fault)), s.operations[operation]);
            var (d, r) := ConfirmSection(s.disk, s.owner, o.identity, o.lease, o.observed, now, fault);
            && t.disk == d
            && Agrees(t, true,
                   snaps[o.identity.run := snaps[o.identity.run].(handle := false, over := r.Ok?, kept := kept)])
  {
    var o := s.operations[operation];
    assert Fits(s, true, o.identity.run, snaps[o.identity.run]);
    LeaseConfirmReleases(s, operation, now, fault);
    hide P.Inv, P.Apply, Agrees, ConfirmSection, Released;
    var r := ConfirmSection(s.disk, s.owner, o.identity, o.lease, o.observed, now, fault).1;
    ReleaseAgrees(s, P.Confirm(operation, now, fault), snaps, o.identity.run, r.Ok?, kept);
  }

  /** A prepared run is new to the store and gets an open lease. */
  lemma PrepareAgrees(s: P.State, identity: Identity, now: Time, fault: Fault, lock: LockFault, undo: Fault,
      snaps: map<Id, Snap>)
    requires Agrees(s, true, snaps)
    ensures var t := P.Apply(s, P.Prepare(identity, now, fault, lock, undo));
            var (d, r) := PrepareSection(s.disk, s.owner, identity, now, fault, lock, undo);
            && t.disk == d && (r.Err? ==> Agrees(t, true, snaps))
            && (r.Ok? ==> identity.run !in snaps && r.value.identity == identity
                          && Agrees(t, true, snaps[identity.run := Snap(r.value, true, false, true)]))
  {
    var step := P.Prepare(identity, now, fault, lock, undo);
    var t := P.Apply(s, step);
    var (d, r) := PrepareSection(s.disk, s.owner, identity, now, fault, lock, undo);
    P.PrepareAdds(s.disk, s.owner, identity, now, fault, lock, undo);
    P.StepKeeps(s, step);
    hide P.Inv, PrepareSection;
    if r.Err? {
      assert Untouched(s, t);
      hide P.Apply, Untouched;
      UntouchedAgrees(s, t, true, snaps);
    } else {
      assert identity.run !in snaps by {
        assert identity.run in snaps ==> Fits(s, true, identity.run, snaps[identity.run]);
      }
      PreparedFits(s, t, identity.run, r.value);
      hide P.Apply, Local, Fits;
      LocalAgrees(s, t, true, snaps, identity.run, Snap(r.value, true, false, true));
    }
  }

  lemma PreparedFits(s: P.State, t: P.State, run: Id, lease: Lease)
    requires t == P.SetLive(s.(disk := t.disk, leases := s.leases[run := lease]), run, {P.LEASE})
    requires P.Grows(s.disk.journal, t.disk.journal) && lease.identity.run == run
    requires Name(run, Prepared) in t.disk.journal.entries
    ensures Local(s, t, run) && Fits(t, true, run, Snap(lease, true, false, true))
  {
  }

  /** Closing the store is, for the protocol, the end of the bridge. */
  lemma CloseAgrees(s: P.State, snaps: map<Id, Snap>, after: map<Id, Snap>)
    requires Agrees(s, true, snaps) && after.Keys == snaps.Keys
    requires forall run :: run in snaps ==> after[run].lease == snaps[run].lease && !after[run].handle
    ensures Agrees(P.Apply(s, P.Restart(0)), false, after) && P.Apply(s, P.Restart(0)).disk == s.disk
  {
    var t := P.Apply(s, P.Restart(0));
    P.StepKeeps(s, P.Restart(0));
    hide P.Inv;
    forall run | run in after ensures Fits(t, false, run, after[run]) {
      assert Fits(s, true, run, snaps[run]);
    }
  }

  // ------------------------------------------------------------- the objects

  /** Whether `finishLease` or `abandonLease` gets as far as forgetting the lease. */
  predicate Forgets(d: Disk, owner: Owner, lease: Lease, abandons: bool, fault: CloseFault) {
    var view := Get(d.journal, owner, lease.identity.run);
    && view.Ok? && LeaseMatches(view.value, lease)
    && (abandons ==> view.value.active.None?)
    && (view.value.terminal.Some? || (view.value.active.None? && fault.write == NoFault))
  }

  class GovernedLease {
    const store: Store
    const lease: Lease
    var lockFile: bool
    var closed: bool

    constructor (store: Store, lease: Lease)
      ensures this.store == store && this.lease == lease && lockFile && !closed
    {
      this.store, this.lease, lockFile, closed := store, lease, true, false;
    }

    ghost predicate Registered()
      reads store`objects, store`leases
    {
      store.Linked() && lease.identity.run in store.objects && store.objects[lease.identity.run] == this
    }

    /** Closes the lock file, sets the closed flag, and has the store forget the
        lease: the last thing each call does, after which the objects stand for `t`. */
    method Settle(over: bool, forget: bool, ghost t: P.State)
      requires Registered() && t.disk.journal.Valid() && t.disk == store.disk && t.owner == store.owner
      requires store.closed ==> store.leases == {}
      requires Agrees(t, !store.closed,
                      store.Snaps()[lease.identity.run := Snap(lease, false, over, this in store.leases && !forget)])
      modifies store`leases, `lockFile, `closed
      ensures store.Models(t) && Registered() && !lockFile && closed == over
    {
      hide Agrees;
      ghost var snaps := store.Snaps();
      lockFile, closed := false, over;
      store.leases := store.leases - if forget then {this} else {};
      assert store.Snaps()
          == snaps[lease.identity.run := Snap(lease, false, over, old(this in store.leases) && !forget)];
    }

    /** Records the child, then gives up the lock file whatever happened. */
    method Started(o: Observation, now: Time, fault: Fault, ghost s: P.State) returns (r: Result<(), Error>)
      requires Registered() && store.Models(s)
      modifies store`disk, store`leases, `lockFile, `closed
      ensures store.Models(P.Apply(s, P.Started(lease.identity.run, o, now, fault)))
      ensures !lockFile && closed == old(closed)
      ensures r == if closed || store.closed then Err(Fence.Changed)
                   else StartLeaseSection(s.disk, store.owner, lease, o, now, fault).1
    {
      StartedAgrees(s, !store.closed, store.Snaps(), lease.identity.run, o, now, fault);
      hide P.Apply, StartLeaseSection, Agrees;
      if closed {
        return Err(Fence.Changed);
      }
      if store.closed {
        r := Err(Fence.Changed);
      } else {
        var section := StartLeaseSection(store.disk, store.owner, lease, o, now, fault);
        store.disk, r := section.0, section.1;
      }
      Settle(false, false, P.Apply(s, P.Started(lease.identity.run, o, now, fault)));
    }

    /** `Finished` up to its unlock: over, or it must wait for the lock. */
    method Finished(o: Observation, now: Time, fault: CloseFault, ghost s: P.State) returns (plan: Plan)
      requires Registered() && store.Models(s)
      modifies store`disk, store`leases, `lockFile, `closed
      ensures Registered()
      ensures old(closed) ==> store.Models(s) && closed && plan == Over(Err(Fence.Changed))
      ensures !old(closed) ==>
                && store.Models(P.Apply(s, P.BeginFinish(lease.identity.run, o, now, fault))) && !lockFile
                && (closed <==> plan == Over(Ok(())))
                && plan == if store.closed then Over(Err(Fence.Changed))
                           else FinishLeaseSection(s.disk, store.owner, lease, o, now, fault).1
    {
      if closed {
        return Over(Err(Fence.Changed));
      }
      var forget := !store.closed && Forgets(store.disk, store.owner, lease, false, fault);
      BeginFinishAgrees(s, !store.closed, store.Snaps(), lease.identity.run, o, now, fault,
          this in store.leases && !forget);
      hide P.Apply, FinishLeaseSection, Agrees, Forgets;
      if store.closed {
        plan := Over(Err(Fence.Changed));
      } else {
        var section := FinishLeaseSection(store.disk, store.owner, lease, o, now, fault);
        store.disk, plan := section.0, section.1;
      }
      Settle(plan == Over(Ok(())), forget, P.Apply(s, P.BeginFinish(lease.identity.run, o, now, fault)));
    }

    /** `Finished` once the lock was seen free. */
    method FinishedWaited(o: Observation, now: Time, fault: CloseFault, ghost operation: nat, ghost s: P.State)
      returns (r: Result<(), Error>)
      requires Registered() && store.Models(s) && !closed && !lockFile
      requires !store.closed ==>
                 && operation in s.operations
                 && s.operations[operation] == P.Operation(lease.identity, Some(lease), Some(o), true)
      modifies store`disk, store`leases, `lockFile, `closed
      ensures Registered() && (closed <==> r.Ok?)
      ensures store.closed ==> store.Models(s) && r == Err(Fence.Changed)
      ensures !store.closed ==>
                && store.Models(P.Apply(s, P.Confirm(operation, now, fault)))
                && r == ConfirmSection(s.disk, store.owner, lease.identity, Some(lease), Some(o), now, fault).1
    {
      if store.closed {
        return Err(Fence.Changed);
      }
      ghost var confirmed := ConfirmSection(s.disk, s.owner, lease.identity, Some(lease), Some(o), now, fault).1;
      LeaseConfirmAgrees(s, operation, now, fault, store.Snaps(), this in store.leases && !confirmed.Ok?);
      hide P.Apply, ConfirmSection, Agrees;
      var section := ConfirmSection(store.disk, store.owner, lease.identity, Some(lease), Some(o), now, fault);
      store.disk, r := section.0, section.1;
      Settle(r.Ok?, r.Ok?, P.Apply(s, P.Confirm(operation, now, fault)));
    }

    /** Gives up a process that never started; closing twice is no failure. */
    method Abandon(now: Time, fault: CloseFault, ghost s: P.State) returns (r: Result<(), Error>)
      requires Registered() && store.Models(s)
      modifies store`disk, store`leases, `lockFile, `closed
      ensures Registered()
      ensures old(closed) ==> store.Models(s) && closed && r.Ok?
      ensures !old(closed) ==>
                && store.Models(P.Apply(s, P.AbandonRun(lease.identity.run, now, fault))) && !lockFile
                && (closed <==> r.Ok?)
                && r == if store.closed then Err(Fence.Changed)
                        else AbandonLeaseSection(s.disk, store.owner, lease, now, fault).1
    {
      if closed {
        return Ok(());
      }
      var forget := !store.closed && Forgets(store.disk, store.owner, lease, true, fault);
      AbandonAgrees(s, !store.closed, store.Snaps(), lease.identity.run, now, fault, this in store.leases && !forget);
      hide P.Apply, AbandonLeaseSection, Agrees, Forgets;
      if store.closed {
        r := Err(Fence.Changed);
      } else {
        var section := AbandonLeaseSection(store.disk, store.owner, lease, now, fault);
        store.disk, r := section.0, section.1;
      }
      Settle(r.Ok?, forget, P.Apply(s, P.AbandonRun(lease.identity.run, now, fault)));
    }
  }

  class Store {
    const owner: Owner
    var disk: Disk
    var leases: set<GovernedLease>
    var closed: bool
    ghost var objects: map<Id, GovernedLease>

    ghost function Snaps(): map<Id, Snap>
      reads `objects, `leases, objects.Values
    {
      map run | run in objects ::
        Snap(objects[run].lease, objects[run].lockFile, objects[run].closed, objects[run] in leases)
    }

    /** The objects stand for this state of the protocol. */
    ghost predicate Models(s: P.State)
      reads this, objects.Values
    {
      && s.disk.journal.Valid() && s.disk == disk && s.owner == owner && Agrees(s, !closed, Snaps())
      && Linked() && (closed ==> leases == {})
    }

    ghost predicate Linked()
      reads `objects, `leases
    {
      && (forall run :: run in objects ==> objects[run].store == this && objects[run].lease.identity.run == run)
      && (forall l :: l in leases ==> l.lease.identity.run in objects && objects[l.lease.identity.run] == l)
    }

    /** A store opened by a bridge that has no lease yet. */
    constructor (owner: Owner, disk: Disk, ghost s: P.State)
      requires s.disk == disk && s.owner == owner && Agrees(s, true, map[])
      ensures Models(s) && !closed
    {
      this.owner, this.disk, leases, closed, objects := owner, disk, {}, false, map[];
      new;
      assert Snaps() == map[];
    }

    method PrepareProcess(identity: Identity, now: Time, fault: Fault, lock: LockFault, undo: Fault, ghost s: P.State)
      returns (r: Result<GovernedLease, Error>)
      requires Models(s)
      modifies this
      ensures closed == old(closed)
      ensures closed ==> Models(s) && r == Err(Fence.Changed)
      ensures !closed ==>
                var section := PrepareSection(s.disk, owner, identity, now, fault, lock, undo).1;
                && Models(P.Apply(s, P.Prepare(identity, now, fault, lock, undo)))
                && (section.Err? ==> r == Err(section.error))
                && (section.Ok? ==> r.Ok? && fresh(r.value) && r.value.store == this && r.value.Registered()
                                    && r.value.lease == section.value && r.value.lockFile && !r.value.closed)
    {
      if closed {
        return Err(Fence.Changed);
      }
      PrepareAgrees(s, identity, now, fault, lock, undo, Snaps());
      hide P.Apply, PrepareSection, Agrees;
      var section := PrepareSection(disk, owner, identity, now, fault, lock, undo);
      disk := section.0;
      if section.1.Err? {
        return Err(section.1.error);
      }
      var l := Keep(section.1.value);
      return Ok(l);
    }

    method Keep(lease: Lease) returns (l: GovernedLease)
      requires Linked() && lease.identity.run !in objects
      modifies `leases, `objects
      ensures fresh(l) && l.store == this && l.lease == lease && l.lockFile && !l.closed && l.Registered()
      ensures Snaps() == old(Snaps())[lease.identity.run := Snap(lease, true, false, true)]
    {
      l := new GovernedLease(this, lease);
      leases, objects := leases + {l}, objects[lease.identity.run := l];
    }

    /** `FenceAndWait` once the lock was seen free: no lease object changes. */
    method FenceWaited(identity: Identity, observed: Option<Observation>, now: Time, fault: CloseFault,
        ghost operation: nat, ghost s: P.State) returns (r: Result<(), Error>)
      requires Models(s)
      requires !closed ==>
                 operation in s.operations && s.operations[operation] == P.Operation(identity, None, observed, true)
      modifies `disk
      ensures closed ==> Models(s) && r == Err(Fence.Changed)
      ensures !closed ==>
                && Models(P.Apply(s, P.Confirm(operation, now, fault)))
                && r == ConfirmSection(s.disk, owner, identity, None, observed, now, fault).1
    {
      if closed {
        return Err(Fence.Changed);
      }
      FenceConfirmAgrees(s, operation, now, fault, Snaps());
      hide P.Apply, ConfirmSection, Agrees;
      var section := ConfirmSection(disk, owner, identity, None, observed, now, fault);
      disk, r := section.0, section.1;
    }

    /** What a finished process proves, in every run that led here: nobody holds
        its lock, not even the bridge. */
    method RequireFinished(identity: Identity, ghost s: P.State) returns (finished: bool)
      requires Models(s)
      ensures finished <==> !closed && FinishedProcess(disk, owner, identity)
      ensures finished ==> P.Live(s, identity.run) == {}
    {
      assert P.RunInv(s, identity.run);
      hide P.Inv;
      if !ValidIdentity(identity) || closed {
        return false;
      }
      var view := Get(disk.journal, owner, identity.run);
      if view.Err? {
        return false;
      }
      if view.value.identity != identity || view.value.terminal != Some(Finished) || view.value.active.None? {
        return false;
      }
      return identity.run !in disk.locks;
    }

    /** Ends every lease the store still has. */
    method Close(ghost s: P.State)
      requires Models(s)
      modifies `closed, `leases, leases
      ensures closed && Models(if old(closed) then s else P.Apply(s, P.Restart(0)))
      ensures forall l :: l in old(leases) ==> !l.lockFile && l.closed
    {
      if closed {
        return;
      }
      ghost var snaps := Snaps();
      var pending := leases;
      closed, leases := true, {};
      while pending != {}
        modifies old(leases)
        invariant pending <= old(leases)
        invariant forall l :: l in old(leases) && l !in pending ==> !l.lockFile && l.closed
      {
        var l :| l in pending;
        l.lockFile, l.closed := false, true;
        pending := pending - {l};
      }
      CloseAgrees(s, snaps, Snaps());
    }
  }
}
