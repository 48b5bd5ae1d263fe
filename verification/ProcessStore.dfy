/**
 The durable process journal: prepared -> active -> finished, or
 prepared -> abandoned, one write-once record per run and stage, beside a lock
 file whose kernel lock the child process tree inherits.

 Every section that runs under the store's mutex is a function from the disk it
 finds to the disk it leaves; the objects of `ProcessLeases` perform them.
 */
module ProcessStore {
  import opened Wrappers
  import opened DurableDirectory
  import Fence = RuntimeFence

  type Id = Fence.Id
  type Time = Fence.Time
  type Owner = Fence.Owner
  type Error = Fence.Error

  const MAX_PROCESSES := Fence.MAX_RUNTIME_ADMISSIONS

  datatype Stage = Prepared | Active | Finished | Abandoned

  datatype Identity = Identity(run: Id, admission: Fence.Digest, start: Fence.Digest)

  datatype Observation = Observation(pid: int, processGroup: int)

  datatype Digest = Digest(record: Record)

  /** `lockDigest` covers exactly the three parts of the identity, so it is
      modelled by the identity it was computed from. */
  datatype Record =
    | PreparedRecord(version: int, owner: Owner, identity: Identity, lockDigest: Identity, preparedAt: Option<Time>)
    | ActiveRecord(version: int, run: Id, prepared: Digest, observation: Observation, startedAt: Option<Time>)
    | TerminalRecord(version: int, run: Id, prepared: Digest, active: Option<Digest>, closedAt: Option<Time>)

  datatype Name = Name(run: Id, stage: Stage)

  type Journal = Directory<Name, Record>

  /** The store's directory: records and the lock files present at their paths. */
  datatype Disk = Disk(journal: Journal, locks: set<Id>)

  datatype View = View(identity: Identity, prepared: Digest, active: Option<Record>, terminal: Option<Stage>)

  predicate ValidIdentity(identity: Identity) {
    identity.run.wellFormed
  }

  predicate ValidObservation(o: Observation) {
    o.pid > 1 && o.processGroup == o.pid
  }

  // --------------------------------------------------------------- reading

  predicate PreparedReadable(r: Record, owner: Owner, run: Id) {
    && r.PreparedRecord? && r.version == 1 && r.owner == owner && r.identity.run == run
    && ValidIdentity(r.identity) && r.lockDigest == r.identity && r.preparedAt.Some?
  }

  predicate ActiveReadable(r: Record, run: Id, prepared: Record)
    requires prepared.PreparedRecord? && prepared.preparedAt.Some?
  {
    && r.ActiveRecord? && r.version == 2 && r.run == run && r.prepared == Digest(prepared)
    && ValidObservation(r.observation) && r.startedAt.Some? && prepared.preparedAt.value <= r.startedAt.value
  }

  predicate TerminalReadable(r: Record, run: Id, prepared: Record, active: Option<Record>, stage: Stage)
    requires prepared.PreparedRecord? && prepared.preparedAt.Some?
    requires active.Some? ==> active.value.ActiveRecord? && active.value.startedAt.Some?
  {
    && r.TerminalRecord? && r.version == 3 && r.run == run && r.prepared == Digest(prepared)
    && r.closedAt.Some? && prepared.preparedAt.value <= r.closedAt.value
    && (stage == Finished ==>
          active.Some? && r.active == Some(Digest(active.value)) && active.value.startedAt.value <= r.closedAt.value)
    && (stage == Abandoned ==> active.None? && r.active.None?)
  }

  function Get(j: Journal, owner: Owner, run: Id): (r: Result<View, Error>)
    ensures r.Ok? ==> Name(run, Prepared) in j.entries && r.value.prepared == Digest(j.entries[Name(run, Prepared)])
    ensures r.Ok? ==> r.value.identity.run == run
    ensures r.Ok? ==> (r.value.active.Some? <==> Name(run, Active) in j.entries)
    ensures r.Ok? && r.value.active.Some? ==>
              r.value.active.value == j.entries[Name(run, Active)] && r.value.active.value.ActiveRecord?
    ensures r.Ok? ==> (r.value.terminal == Some(Finished) <==> Name(run, Finished) in j.entries)
    ensures r.Ok? ==> (r.value.terminal == Some(Abandoned) <==> Name(run, Abandoned) in j.entries)
    ensures r.Ok? && r.value.terminal.Some? ==> r.value.terminal.value in {Finished, Abandoned}
    ensures r == Err(Fence.NotExist) <==> run.wellFormed && Name(run, Prepared) !in j.entries
  {
    if !run.wellFormed then Err(Fence.Invalid)
    else if Name(run, Prepared) !in j.entries then Err(Fence.NotExist)
    else
      var prepared := j.entries[Name(run, Prepared)];
      if !PreparedReadable(prepared, owner, run) then Err(Fence.Changed)
      else
        var active := if Name(run, Active) in j.entries then Some(j.entries[Name(run, Active)]) else None;
        if active.Some? && !ActiveReadable(active.value, run, prepared) then Err(Fence.Changed)
        else
          var (finished, abandoned) := (Name(run, Finished), Name(run, Abandoned));
          if finished in j.entries && !TerminalReadable(j.entries[finished], run, prepared, active, Finished)
          then Err(Fence.Changed)
          else if abandoned in j.entries && (finished in j.entries
                    || !TerminalReadable(j.entries[abandoned], run, prepared, active, Abandoned))
          then Err(Fence.Changed)
          else
            Ok(View(prepared.identity, Digest(prepared), active,
                    if finished in j.entries then Some(Finished)
                    else if abandoned in j.entries then Some(Abandoned) else None))
  }

  function PreparedNames(j: Journal): (names: set<Name>) {
    set n | n in j.entries.Keys && n.stage == Prepared
  }

  /** Every record and every lock file belongs to a prepared run. */
  predicate Rooted(d: Disk) {
    && (forall n :: n in d.journal.entries ==> Name(n.run, Prepared) in d.journal.entries)
    && (forall run :: run in d.locks ==> Name(run, Prepared) in d.journal.entries)
  }

  /** Whether `list` accepts the directory. */
  predicate Listed(d: Disk, owner: Owner) {
    && |d.journal.entries| + |d.locks| + d.journal.pending <= 5 * MAX_PROCESSES + 16
    && Rooted(d)
    && forall n :: n in d.journal.entries && n.stage == Prepared ==> Get(d.journal, owner, n.run).Ok?
  }

  // ------------------------------------------------------ critical sections

  datatype Lease = Lease(identity: Identity, prepared: Digest)

  /** How creating, locking and syncing the lock file goes. */
  datatype LockFault = LockReady | LockRefused

  /** How closing a run goes: the terminal write, then removing the lock file. */
  datatype Removal = Removed | RemovedUnsynced | NotRemoved
  datatype CloseFault = CloseFault(write: Fault, removal: Removal)

  function Write(d: Disk, run: Id, stage: Stage, record: Record, fault: Fault): (r: (Disk, bool))
    requires d.journal.Valid()
    ensures r.0.journal.Valid() && r.0.locks == d.locks
  {
    var (j, w) := WriteExclusive(d.journal, Name(run, stage), record, fault);
    (d.(journal := j), w == Written)
  }

  function AbandonedRecord(run: Id, prepared: Digest, now: Time): Record {
    TerminalRecord(3, run, prepared, None, Some(now))
  }

  function PrepareSection(d: Disk, owner: Owner, identity: Identity, now: Time, fault: Fault, lock: LockFault,
      undo: Fault)
    : (r: (Disk, Result<Lease, Error>))
    requires d.journal.Valid()
    ensures r.0.journal.Valid()
  {
    if !ValidIdentity(identity) then (d, Err(Fence.Invalid))
    else
      var existing := Get(d.journal, owner, identity.run);
      if existing.Ok? then (d, Err(Fence.Conflict))
      else if existing.error != Fence.NotExist then (d, Err(existing.error))
      else if !Listed(d, owner) then (d, Err(Fence.Changed))
      else if |PreparedNames(d.journal)| >= MAX_PROCESSES then (d, Err(Fence.Conflict))
      else
        var record := PreparedRecord(1, owner, identity, identity, Some(now));
        var (d', written) := Write(d, identity.run, Prepared, record, fault);
        if !written then (d', Err(Fence.Io))
        else if lock == LockRefused then
          (Write(d', identity.run, Abandoned, AbandonedRecord(identity.run, Digest(record), now), undo).0,
           Err(Fence.Io))
        else (d'.(locks := d'.locks + {identity.run}), Ok(Lease(identity, Digest(record))))
  }

  predicate LeaseMatches(view: View, lease: Lease) {
    view.identity == lease.identity && view.prepared == lease.prepared
  }

  /** `startLease`: records the observed child before it may run. */
  function StartLeaseSection(d: Disk, owner: Owner, lease: Lease, o: Observation, now: Time, fault: Fault)
    : (r: (Disk, Result<(), Error>))
    requires d.journal.Valid()
    ensures r.0.journal.Valid()
  {
    if !ValidObservation(o) then (d, Err(Fence.Invalid))
    else
      var view := Get(d.journal, owner, lease.identity.run);
      if view.Err? then (d, Err(view.error))
      else if !LeaseMatches(view.value, lease) || view.value.active.Some? || view.value.terminal.Some?
      then (d, Err(Fence.Changed))
      else
        var (d', written) := Write(d, lease.identity.run, Active,
                                   ActiveRecord(2, lease.identity.run, lease.prepared, o, Some(now)), fault);
        (d', if written then Ok(()) else Err(Fence.Io))
  }

  /** `removeLockLocked`: a lock file that is already gone is no failure. */
  function RemoveLock(d: Disk, run: Id, removal: Removal): (r: (Disk, Result<(), Error>))
    ensures r.0.journal == d.journal && r.0.locks <= d.locks
    ensures r.1.Ok? ==> run !in r.0.locks
  {
    if run !in d.locks then (d, Ok(()))
    else match removal
      case Removed => (d.(locks := d.locks - {run}), Ok(()))
      case RemovedUnsynced => (d.(locks := d.locks - {run}), Err(Fence.Io))
      case NotRemoved => (d, Err(Fence.Io))
  }

  function Abandon(d: Disk, run: Id, prepared: Digest, now: Time, fault: CloseFault): (r: (Disk, Result<(), Error>))
    requires d.journal.Valid()
    ensures r.0.journal.Valid()
  {
    var (d', written) := Write(d, run, Abandoned, AbandonedRecord(run, prepared, now), fault.write);
    if written then RemoveLock(d', run, fault.removal) else (d', Err(Fence.Io))
  }

  /** `finishActiveLocked`. */
  function Finish(d: Disk, view: View, now: Time, fault: CloseFault): (r: (Disk, Result<(), Error>))
    requires d.journal.Valid() && view.active.Some?
    ensures r.0.journal.Valid()
  {
    var run := view.identity.run;
    var record := TerminalRecord(3, run, view.prepared, Some(Digest(view.active.value)), Some(now));
    var (d', written) := Write(d, run, Finished, record, fault.write);
    if written then RemoveLock(d', run, fault.removal) else (d', Err(Fence.Io))
  }

  /** How a first critical section ends: it is over, or the lock must first be
      seen free; `observed` is the recorded child, if any. */
  datatype Plan = Over(result: Result<(), Error>) | Wait(observed: Option<Observation>)

  /** `finishLease` up to its first unlock. */
  function FinishLeaseSection(d: Disk, owner: Owner, lease: Lease, o: Observation, now: Time, fault: CloseFault)
    : (r: (Disk, Plan))
    requires d.journal.Valid()
    ensures r.0.journal.Valid()
  {
    var view := Get(d.journal, owner, lease.identity.run);
    if view.Err? then (d, Over(Err(view.error)))
    else if !LeaseMatches(view.value, lease) then (d, Over(Err(Fence.Changed)))
    else if view.value.terminal.Some? then (d, Over(Ok(())))
    else if view.value.active.None? then
      var (d', r) := Abandon(d, lease.identity.run, lease.prepared, now, fault);
      (d', Over(r))
    else if view.value.active.value.observation != o then (d, Over(Err(Fence.Conflict)))
    else (d, Wait(Some(o)))
  }

  /** `FenceAndWait` up to its first unlock. */
  function FenceSection(d: Disk, owner: Owner, identity: Identity): (plan: Plan) {
    if !ValidIdentity(identity) then Over(Err(Fence.Invalid))
    else
      var view := Get(d.journal, owner, identity.run);
      if view.Err? then Over(Err(view.error))
      else if view.value.identity != identity then Over(Err(Fence.Conflict))
      else if view.value.terminal.Some? then Over(Ok(()))
      else Wait(if view.value.active.Some? then Some(view.value.active.value.observation) else None)
  }

  /** The second critical section of both, after the lock was seen free. */
  function ConfirmSection(d: Disk, owner: Owner, identity: Identity, lease: Option<Lease>,
      observed: Option<Observation>, now: Time, fault: CloseFault)
    : (r: (Disk, Result<(), Error>))
    requires d.journal.Valid()
    ensures r.0.journal.Valid()
  {
    var current := Get(d.journal, owner, identity.run);
    if current.Err? then (d, Err(current.error))
    else
      var view := current.value;
      if lease.Some? && !LeaseMatches(view, lease.value) then (d, Err(Fence.Changed))
      else if observed.None? then
        if view.identity != identity || view.active.Some? || view.terminal.Some? then (d, Err(Fence.Changed))
        else Abandon(d, identity.run, view.prepared, now, fault)
      else if view.identity != identity || view.active.None? || view.active.value.observation != observed.value
      then (d, Err(Fence.Changed))
      else if view.terminal.Some? then (d, Ok(()))
      else Finish(d, view, now, fault)
  }

  function AbandonLeaseSection(d: Disk, owner: Owner, lease: Lease, now: Time, fault: CloseFault)
    : (r: (Disk, Result<(), Error>))
    requires d.journal.Valid()
    ensures r.0.journal.Valid()
  {
    var view := Get(d.journal, owner, lease.identity.run);
    if view.Err? then (d, Err(view.error))
    else if !LeaseMatches(view.value, lease) || view.value.active.Some? then (d, Err(Fence.Changed))
    else if view.value.terminal.Some? then RemoveLock(d, lease.identity.run, fault.removal)
    else Abandon(d, lease.identity.run, lease.prepared, now, fault)
  }

  /** `RequireFinished`: only a finished process with no lock file left passes. */
  predicate FinishedProcess(d: Disk, owner: Owner, identity: Identity) {
    var view := Get(d.journal, owner, identity.run);
    && ValidIdentity(identity) && view.Ok? && view.value.identity == identity
    && view.value.terminal == Some(Finished) && view.value.active.Some?
    && identity.run !in d.locks
  }

  // ------------------------------------------------------- waiting for the lock

  /** One nonblocking attempt to take the lock. */
  datatype Attempt = Available | Busy | AttemptFailed

  datatype OpenResult = Opened | Missing | OpenFailed

  /** `waitGovernedProcessLock`: opens the lock file, tries it once, kills the
      process group if asked to and then polls until `ticks` runs out.  It
      succeeds exactly when the file is missing and nothing was to be killed,
      or some attempt found the lock free and none before it failed. */
  method WaitForLock(file: OpenResult, terminate: bool, killed: bool, first: Attempt, ticks: seq<Attempt>)
    returns (ok: bool)
    ensures ok <==> WaitSucceeds(file, terminate, killed, first, ticks)
  {
    if file == Missing && !terminate {
      return true;
    }
    if file != Opened {
      return false;
    }
    if first != Busy {
      return first == Available;
    }
    if terminate && !killed {
      return false;
    }
    for i := 0 to |ticks|
      invariant forall k :: 0 <= k < i ==> ticks[k] == Busy
    {
      if ticks[i] == AttemptFailed {
        return false;
      }
      if ticks[i] == Available {
        return true;
      }
    }
    return false;
  }

  predicate WaitSucceeds(file: OpenResult, terminate: bool, killed: bool, first: Attempt, ticks: seq<Attempt>) {
    || (file == Missing && !terminate)
    || (file == Opened && (first == Available || (first == Busy && (terminate ==> killed) && SeenFree(ticks))))
  }

  /** Some attempt finds the lock free and all before it find it busy. */
  predicate SeenFree(ticks: seq<Attempt>) {
    exists i :: 0 <= i < |ticks| && ticks[i] == Available && forall k :: 0 <= k < i ==> ticks[k] == Busy
  }
}
