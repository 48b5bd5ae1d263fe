/**
 The durable possible-start fence: one write-once record per run and stage.

 A run moves claimed -> starting -> stopped.  `Claim`, `Stop` and one round of
 `RecoverUnknown` are one critical section each; `Start` has two, with the
 authority callback between them.  Each section is a function from the journal
 it finds to the journal it leaves, and the class `Store` performs it in place.

 A digest is a free constructor around the record it covers, so equal digests
 mean equal records; the file key, a digest of the run id, is the run id itself.
 An identifier is a key and whether it has the required form.  A time is a
 number that grows with the instant it stands for, and 0 is Go's zero time.  The
 source keeps and compares texts; `FenceText` models the records with those
 texts and shows that they read the same.
 */
module RuntimeFence {
  import opened Wrappers
  import opened DurableDirectory

  const MAX_RUNTIME_ADMISSIONS := 256
  const MAX_LEFTOVERS := 16

  datatype Error = Invalid | Changed | Conflict | NotCurrent | NotExist | Io

  datatype Stage = Claimed | Starting | Stopped

  datatype Outcome = Completed | Failed | Canceled | InputRequired | OutcomeUnknown | OtherOutcome

  datatype Id = Id(key: nat, wellFormed: bool)

  type Time = nat

  const ZERO_TIME: Time := 0

  datatype Owner = Owner(server: Id, team: Id, device: Id, member: Id)

  /** The join of manifest, prepared workspace and profile.  `rest` stands for
      the fields no operation reads on its own. */
  datatype Spec = Spec(
    run: Id, task: Id, agent: Id, device: Id, plan: Id, planRevision: int,
    node: Id, repository: Id, binding: Id, manifestDigest: Id,
    workspace: Id, generation: Id, preparedOperation: Id, preparedIdentity: Id, rest: Id,
    workspaceIssuedAt: Time, workspaceExpiresAt: Time, grantExpiresAt: Time, deadline: Time)

  datatype Digest = Digest(record: Record)

  /** A stamp that is not the rendering of a time is `None`. */
  datatype Record =
    | ClaimRecord(version: int, owner: Owner, spec: Spec, claimedAt: Option<Time>)
    | StartRecord(version: int, run: Id, admission: Digest, authorityCheckedAt: Option<Time>)
    | StopRecord(version: int, run: Id, admission: Digest, start: Digest, outcome: Outcome, stoppedAt: Option<Time>)

  datatype Name = Name(run: Id, stage: Stage)

  type Journal = Directory<Name, Record>

  datatype View = View(
    spec: Spec, admission: Digest, state: Stage, claimedAt: Time,
    start: Option<Digest>, authorityCheckedAt: Option<Time>, outcome: Option<Outcome>, stoppedAt: Option<Time>)

  // ------------------------------------------------------------- validity

  predicate ValidSpec(spec: Spec) {
    && spec.run.wellFormed && spec.task.wellFormed && spec.agent.wellFormed && spec.device.wellFormed
    && spec.plan.wellFormed && spec.node.wellFormed && spec.repository.wellFormed && spec.binding.wellFormed
    && spec.manifestDigest.wellFormed && spec.workspace.wellFormed && spec.generation.wellFormed
    && spec.preparedOperation.wellFormed && spec.preparedIdentity.wellFormed && spec.rest.wellFormed
    && spec.planRevision >= 1
    && spec.workspaceIssuedAt < spec.workspaceExpiresAt && spec.workspaceIssuedAt < spec.grantExpiresAt
    && spec.workspaceIssuedAt < spec.deadline <= spec.workspaceExpiresAt
    && spec.deadline <= spec.grantExpiresAt
  }

  predicate ValidOutcome(outcome: Outcome) {
    !outcome.OtherOutcome?
  }

  /** The admission window. */
  predicate Current(spec: Spec, now: Time) {
    && now != ZERO_TIME
    && spec.workspaceIssuedAt <= now < spec.workspaceExpiresAt
    && now < spec.grantExpiresAt && now < spec.deadline
  }

  // --------------------------------------------------------------- reading

  predicate ClaimReadable(claim: Record, owner: Owner, run: Id) {
    && claim.ClaimRecord? && claim.version == 1 && claim.owner == owner
    && claim.spec.run == run && ValidSpec(claim.spec) && claim.claimedAt.Some?
  }

  predicate StartReadable(start: Record, run: Id, claim: Record)
    requires claim.ClaimRecord? && claim.claimedAt.Some?
  {
    && start.StartRecord? && start.version == 2 && start.run == run && start.admission == Digest(claim)
    && start.authorityCheckedAt.Some? && claim.claimedAt.value <= start.authorityCheckedAt.value
  }

  predicate StopReadable(stop: Record, run: Id, claim: Record, start: Record)
    requires start.StartRecord? && start.authorityCheckedAt.Some?
  {
    && stop.StopRecord? && stop.version == 3 && stop.run == run && stop.admission == Digest(claim)
    && stop.start == Digest(start) && ValidOutcome(stop.outcome)
    && stop.stoppedAt.Some? && start.authorityCheckedAt.value <= stop.stoppedAt.value
  }

  /** The view of one run, or the reason its records are refused. */
  function Get(j: Journal, owner: Owner, run: Id): (r: Result<View, Error>)
    ensures r == Err(NotExist) <==> run.wellFormed && Name(run, Claimed) !in j.entries
    ensures r.Ok? ==> Name(run, Claimed) in j.entries && r.value.admission == Digest(j.entries[Name(run, Claimed)])
    ensures r.Ok? ==> (r.value.state == Claimed <==> Name(run, Starting) !in j.entries)
    ensures r.Ok? ==> (r.value.state == Stopped <==> Name(run, Stopped) in j.entries)
    ensures r.Ok? ==> (r.value.start.Some? <==> Name(run, Starting) in j.entries)
    ensures r.Ok? && r.value.start.Some? ==> r.value.start.value == Digest(j.entries[Name(run, Starting)])
  {
    if !run.wellFormed then Err(Invalid)
    else if Name(run, Claimed) !in j.entries then Err(NotExist)
    else
      var claim := j.entries[Name(run, Claimed)];
      if !ClaimReadable(claim, owner, run) then Err(Changed)
      else
        var view := View(claim.spec, Digest(claim), Claimed, claim.claimedAt.value, None, None, None, None);
        if Name(run, Starting) !in j.entries then
          (if Name(run, Stopped) in j.entries then Err(Changed) else Ok(view))
        else
          var start := j.entries[Name(run, Starting)];
          if !StartReadable(start, run, claim) then Err(Changed)
          else
            var started := view.(state := Starting, start := Some(Digest(start)),
                                 authorityCheckedAt := start.authorityCheckedAt);
            if Name(run, Stopped) !in j.entries then Ok(started)
            else
              var stop := j.entries[Name(run, Stopped)];
              if !StopReadable(stop, run, claim, start) then Err(Changed)
              else Ok(started.(state := Stopped, outcome := Some(stop.outcome), stoppedAt := stop.stoppedAt))
  }

  function Claims(j: Journal): (names: set<Name>) {
    set n | n in j.entries.Keys && n.stage == Claimed
  }

  /** Every later stage has its earlier stages. */
  predicate PrefixClosed(names: set<Name>) {
    forall n :: n in names ==>
      && (n.stage != Claimed ==> Name(n.run, Claimed) in names)
      && (n.stage == Stopped ==> Name(n.run, Starting) in names)
  }

  predicate FitsInventory(j: Journal) {
    |j.entries| + j.pending <= 3 * MAX_RUNTIME_ADMISSIONS + MAX_LEFTOVERS
  }

  function Readings(j: Journal, owner: Owner): (readings: map<Name, Result<View, Error>>)
    ensures readings.Keys == Claims(j)
  {
    map n | n in Claims(j) :: Get(j, owner, n.run)
  }

  function Accepted(readings: map<Name, Result<View, Error>>): (views: map<Name, View>)
    requires forall n :: n in readings ==> readings[n].Ok?
    ensures views.Keys == readings.Keys && |views| == |readings|
  {
    var views := map n | n in readings :: readings[n].value;
    assert views.Keys == readings.Keys;
    views
  }

  /** The whole inventory, or nothing at all when any part of it is refused. */
  function List(j: Journal, owner: Owner): (r: Result<map<Name, View>, Error>)
    ensures r.Ok? ==> r.value.Keys == Claims(j) && |r.value| <= MAX_RUNTIME_ADMISSIONS
  {
    if !FitsInventory(j) || !PrefixClosed(j.entries.Keys) then Err(Changed)
    else
      var readings := Readings(j, owner);
      if exists n :: n in readings && readings[n].Err? then Err(Changed)
      else if |readings| > MAX_RUNTIME_ADMISSIONS then Err(Changed)
      else Ok(Accepted(readings))
  }

  // ------------------------------------------------------ critical sections

  /** Two specs that may not both be admitted. */
  predicate Clashes(a: Spec, b: Spec) {
    || (a.workspace == b.workspace && a.generation == b.generation)
    || a.preparedIdentity == b.preparedIdentity
    || a.preparedOperation == b.preparedOperation
  }

  /** Writes one record and reads the run back. */
  function Put(j: Journal, owner: Owner, run: Id, stage: Stage, record: Record, fault: Fault)
    : (r: (Journal, Result<View, Error>))
    requires j.Valid()
    ensures r.0.Valid()
  {
    var (j', written) := WriteExclusive(j, Name(run, stage), record, fault);
    (j', if written == Written then Get(j', owner, run) else Err(Io))
  }

  /** The answer of a claim that writes nothing, if that is how it ends. */
  function ClaimAnswer(j: Journal, owner: Owner, spec: Spec, now: Time): (r: Option<Result<View, Error>>)
    ensures r.None? ==> ValidSpec(spec) && Current(spec, now) && Name(spec.run, Claimed) !in j.entries
    ensures r.None? ==> List(j, owner).Ok? && |List(j, owner).value| < MAX_RUNTIME_ADMISSIONS
    ensures r.None? ==> forall n :: n in List(j, owner).value ==> !Clashes(List(j, owner).value[n].spec, spec)
  {
    if !ValidSpec(spec) || now == ZERO_TIME then Some(Err(Invalid))
    else if spec.device != owner.device then Some(Err(NotCurrent))
    else
      var existing := Get(j, owner, spec.run);
      if existing.Ok? then Some(if existing.value.spec != spec then Err(Conflict) else existing)
      else if existing.error != NotExist then Some(existing)
      else if !Current(spec, now) then Some(Err(NotCurrent))
      else
        var views := List(j, owner);
        if views.Err? then Some(Err(views.error))
        else if |views.value| >= MAX_RUNTIME_ADMISSIONS then Some(Err(Conflict))
        else if exists n :: n in views.value && Clashes(views.value[n].spec, spec) then Some(Err(Conflict))
        else None
  }

  function ClaimSection(j: Journal, owner: Owner, spec: Spec, now: Time, fault: Fault)
    : (r: (Journal, Result<View, Error>))
    requires j.Valid()
    ensures r.0.Valid()
  {
    var answer := ClaimAnswer(j, owner, spec, now);
    if answer.Some? then (j, answer.value)
    else Put(j, owner, spec.run, Claimed, ClaimRecord(1, owner, spec, Some(now)), fault)
  }

  /** What the first critical section of `Start` decides: ask the authority
      (`Ok` with a claimed view), report without starting, or fail. */
  function StartObserveSection(j: Journal, owner: Owner, run: Id, expected: Digest): (r: Result<View, Error>) {
    if !run.wellFormed then Err(Invalid)
    else
      var view := Get(j, owner, run);
      if view.Ok? && view.value.admission != expected then Err(Conflict) else view
  }

  datatype StartResult = StartResult(view: View, invoke: bool)

  /** The second critical section of `Start`, after the authority agreed. */
  function StartCommitSection(j: Journal, owner: Owner, observed: View, expected: Digest, authorizedAt: Time,
      fault: Fault)
    : (r: (Journal, Result<StartResult, Error>))
    requires j.Valid()
    ensures r.0.Valid()
  {
    var run := observed.spec.run;
    var current := Get(j, owner, run);
    if current.Err? then (j, Err(current.error))
    else if current.value.admission != expected || current.value.spec != observed.spec then (j, Err(Changed))
    else if current.value.state != Claimed then (j, Ok(StartResult(current.value, false)))
    else if !Current(current.value.spec, authorizedAt) then (j, Err(NotCurrent))
    else
      var (j', view) := Put(j, owner, run, Starting, StartRecord(2, run, expected, Some(authorizedAt)), fault);
      (j', if view.Ok? then Ok(StartResult(view.value, true)) else Err(view.error))
  }

  function StopSection(j: Journal, owner: Owner, run: Id, expected: Digest, expectedStart: Digest,
                       outcome: Outcome, now: Time, fault: Fault): (r: (Journal, Result<View, Error>))
    requires j.Valid()
    ensures r.0.Valid()
  {
    if !ValidOutcome(outcome) || now == ZERO_TIME then (j, Err(Invalid))
    else
      var view := Get(j, owner, run);
      if view.Err? then (j, view)
      else if view.value.admission != expected || view.value.start != Some(expectedStart) then (j, Err(Conflict))
      else if view.value.state == Stopped then
        (j, if view.value.outcome != Some(outcome) then Err(Conflict) else view)
      else
        if now < view.value.authorityCheckedAt.value then (j, Err(Invalid))
        else Put(j, owner, run, Stopped, StopRecord(3, run, expected, expectedStart, outcome, Some(now)), fault)
  }

  /** One turn of `RecoverUnknown`: close a run seen in the starting state. */
  function RecoverSection(j: Journal, owner: Owner, view: View, now: Time, fault: Fault)
    : (r: (Journal, Result<View, Error>))
    requires j.Valid()
    requires view.start.Some? && view.authorityCheckedAt.Some?
    ensures r.0.Valid()
  {
    if now < view.authorityCheckedAt.value then (j, Err(Invalid))
    else
      var run := view.spec.run;
      Put(j, owner, run, Stopped,
          StopRecord(3, run, view.admission, view.start.value, OutcomeUnknown, Some(now)), fault)
  }

  /** What is read as starting has a start digest and a time. */
  predicate Closable(todo: seq<View>) {
    forall i :: 0 <= i < |todo| && todo[i].state == Starting ==> todo[i].start.Some? && todo[i].authorityCheckedAt.Some?
  }

  /** `RecoverUnknown` over the inventory `todo`, stopping at the first failure;
      `faults` says how the write for each position goes. */
  function RecoverAll(j: Journal, owner: Owner, todo: seq<View>, now: Time, faults: nat -> Fault)
    : (r: (Journal, Result<seq<View>, Error>))
    requires j.Valid()
    requires Closable(todo)
    ensures r.0.Valid()
    decreases |todo|
  {
    if todo == [] then (j, Ok([]))
    else
      var last := |todo| - 1;
      var (j', closed) := RecoverAll(j, owner, todo[..last], now, faults);
      if closed.Err? || todo[last].state != Starting then (j', closed)
      else
        var (j'', view) := RecoverSection(j', owner, todo[last], now, faults(last));
        (j'', if view.Err? then Err(view.error) else Ok(closed.value + [view.value]))
  }

  /** `todo` are views of different runs, each the one the journal gives. */
  ghost predicate Inventoried(j: Journal, owner: Owner, todo: seq<View>) {
    && (forall i :: 0 <= i < |todo| ==> Get(j, owner, todo[i].spec.run) == Ok(todo[i]))
    && (forall i, k :: 0 <= i < k < |todo| ==> todo[i].spec.run != todo[k].spec.run)
  }

  lemma RecoverTouchesOneRun(j: Journal, owner: Owner, view: View, now: Time, fault: Fault)
    requires j.Valid() && view.start.Some? && view.authorityCheckedAt.Some?
    ensures forall run :: run != view.spec.run ==>
              Get(RecoverSection(j, owner, view, now, fault).0, owner, run) == Get(j, owner, run)
  {
    var j' := RecoverSection(j, owner, view, now, fault).0;
    assert forall n: Name :: n.run != view.spec.run ==> (n in j'.entries <==> n in j.entries);
  }

  /** Recovery reads back the same for a run it does not close. */
  lemma {:induction false} RecoverAllTouches(j: Journal, owner: Owner, todo: seq<View>, now: Time,
      faults: nat -> Fault, run: Id)
    requires j.Valid()
    requires Closable(todo)
    requires forall v :: v in todo ==> v.spec.run != run
    ensures Get(RecoverAll(j, owner, todo, now, faults).0, owner, run) == Get(j, owner, run)
    decreases |todo|
  {
    if todo != [] {
      var last := |todo| - 1;
      RecoverAllTouches(j, owner, todo[..last], now, faults, run);
      var (j', closed) := RecoverAll(j, owner, todo[..last], now, faults);
      if closed.Ok? && todo[last].state == Starting {
        RecoverTouchesOneRun(j', owner, todo[last], now, faults(last));
      }
    }
  }

  /** What recovery makes of one run. */
  predicate Settled(before: View, after: Result<View, Error>) {
    if before.state != Starting then after == Ok(before)
    else after.Ok? && after.value.state == Stopped && after.value.outcome == Some(OutcomeUnknown)
         && after.value.spec == before.spec && after.value.start == before.start
  }

  predicate SettledIn(before: Journal, after: Journal, owner: Owner, run: Id) {
    var view := Get(before, owner, run);
    view.Ok? && Settled(view.value, Get(after, owner, run))
  }

  lemma RecoverSettles(j: Journal, owner: Owner, view: View, now: Time, fault: Fault)
    requires j.Valid() && view.state == Starting && Get(j, owner, view.spec.run) == Ok(view)
    requires RecoverSection(j, owner, view, now, fault).1.Ok?
    ensures Settled(view, Get(RecoverSection(j, owner, view, now, fault).0, owner, view.spec.run))
  {
  }

  /** A recovery that returns without an error leaves nothing in the starting state. */
  lemma {:induction false} RecoverAllSettles(j: Journal, owner: Owner, todo: seq<View>, now: Time,
      faults: nat -> Fault, i: nat)
    requires j.Valid() && Closable(todo) && Inventoried(j, owner, todo) && i < |todo|
    requires RecoverAll(j, owner, todo, now, faults).1.Ok?
    ensures Settled(todo[i], Get(RecoverAll(j, owner, todo, now, faults).0, owner, todo[i].spec.run))
    decreases |todo|
  {
    var last := |todo| - 1;
    var j' := RecoverAll(j, owner, todo[..last], now, faults).0;
    if i < last {
      RecoverAllSettles(j, owner, todo[..last], now, faults, i);
    } else {
      RecoverAllTouches(j, owner, todo[..last], now, faults, todo[i].spec.run);
    }
    if todo[last].state == Starting {
      RecoverTouchesOneRun(j', owner, todo[last], now, faults(last));
      if i == last {
        RecoverSettles(j', owner, todo[last], now, faults(last));
      }
    }
  }

  /** The scope a repository cleanup names. */
  datatype CleanupScope = CleanupScope(
    run: Id, repository: Id, binding: Id, plan: Id, planRevision: int, node: Id,
    task: Id, agent: Id, device: Id, workspace: Id, generation: Id, manifestDigest: Id)

  predicate ScopeMatches(scope: CleanupScope, spec: Spec) {
    && spec.run == scope.run && spec.repository == scope.repository && spec.binding == scope.binding
    && spec.plan == scope.plan && spec.planRevision == scope.planRevision && spec.node == scope.node
    && spec.task == scope.task && spec.agent == scope.agent && spec.device == scope.device
    && spec.workspace == scope.workspace && spec.generation == scope.generation
    && spec.manifestDigest == scope.manifestDigest
  }

  /** The view handed to the cleanup action while the store stays locked. */
  function StoppedRun(j: Journal, owner: Owner, scope: CleanupScope): (r: Result<View, Error>)
    ensures r.Ok? ==> Get(j, owner, scope.run) == r && r.value.state == Stopped && r.value.start.Some?
    ensures r.Ok? ==> ScopeMatches(scope, r.value.spec)
  {
    var view := Get(j, owner, scope.run);
    if view.Ok? && !(view.value.state == Stopped && view.value.start.Some? && view.value.outcome.Some?
                     && view.value.stoppedAt.Some? && ScopeMatches(scope, view.value.spec))
    then Err(NotCurrent) else view
  }

  // ------------------------------------------------------------ the store

  /** `views` are the values of `inventory` in the order of `names`, each once. */
  ghost predicate Enumerates(views: seq<View>, names: seq<Name>, inventory: map<Name, View>) {
    && |views| == |names| == |inventory|
    && (forall n :: n in names <==> n in inventory)
    && (forall i, k :: 0 <= i < k < |names| ==> names[i] != names[k])
    && (forall i :: 0 <= i < |names| ==> inventory[names[i]] == views[i])
  }

  /** Gathers the views of an inventory, or nothing when one run is refused. */
  method Collect(readings: map<Name, Result<View, Error>>) returns (r: Option<seq<View>>, ghost names: seq<Name>)
    ensures r.None? <==> exists n :: n in readings && readings[n].Err?
    ensures r.Some? ==> Enumerates(r.value, names, Accepted(readings))
  {
    var pending := readings.Keys;
    var views: seq<View> := [];
    names := [];
    while pending != {}
      invariant pending <= readings.Keys && |views| == |names| && |names| + |pending| == |readings|
      invariant forall n :: n in names <==> n in readings && n !in pending
      invariant forall i, k :: 0 <= i < k < |names| ==> names[i] != names[k]
      invariant forall i :: 0 <= i < |names| ==> readings[names[i]] == Ok(views[i])
    {
      var n :| n in pending;
      if readings[n].Err? {
        return None, names;
      }
      views, names := views + [readings[n].value], names + [n];
      pending := pending - {n};
    }
    forall n | n in readings ensures readings[n].Ok? {
      assert n in names;
    }
    return Some(views), names;
  }

  /** Looks for an admitted spec that clashes with a new one. */
  method FindClash(views: seq<View>, spec: Spec, ghost names: seq<Name>, ghost inventory: map<Name, View>)
    returns (found: bool)
    requires Enumerates(views, names, inventory)
    ensures found <==> exists n :: n in inventory && Clashes(inventory[n].spec, spec)
  {
    for i := 0 to |views|
      invariant forall k :: 0 <= k < i ==> !Clashes(views[k].spec, spec)
    {
      if Clashes(views[i].spec, spec) {
        assert names[i] in inventory;
        return true;
      }
    }
    forall n | n in inventory ensures !Clashes(inventory[n].spec, spec) {
      assert n in names;
    }
    return false;
  }

  /** A listed view is the run's own reading. */
  lemma ListedIsRead(j: Journal, owner: Owner, n: Name)
    requires List(j, owner).Ok? && n in List(j, owner).value
    ensures n in Claims(j) && Get(j, owner, n.run) == Ok(List(j, owner).value[n])
    ensures List(j, owner).value[n].spec.run == n.run && Closable([List(j, owner).value[n]])
  {
  }

  lemma EnumeratedIsInventoried(j: Journal, owner: Owner, views: seq<View>, names: seq<Name>)
    requires List(j, owner).Ok? && Enumerates(views, names, List(j, owner).value)
    ensures Inventoried(j, owner, views) && Closable(views)
    ensures forall i :: 0 <= i < |views| ==> views[i].spec.run == names[i].run
    ensures forall n :: n in Claims(j) <==> n in names
  {
    hide List, Get, Claims;
    forall i | 0 <= i < |views|
      ensures Get(j, owner, names[i].run) == Ok(views[i]) && views[i].spec.run == names[i].run
      ensures names[i] == Name(views[i].spec.run, Claimed) && Closable([views[i]])
    {
      assert names[i] in names;
      ListedIsRead(j, owner, names[i]);
      ClaimsAreClaimed(j, names[i]);
    }
    assert forall i :: 0 <= i < |views| ==> Closable([views[i]]) && views[i] == [views[i]][0];
  }

  lemma ClaimsAreClaimed(j: Journal, n: Name)
    requires n in Claims(j)
    ensures n == Name(n.run, Claimed)
  {
  }

  lemma AllSettle(j: Journal, owner: Owner, views: seq<View>, names: seq<Name>, now: Time, faults: nat -> Fault)
    requires j.Valid() && Closable(views) && Inventoried(j, owner, views) && |names| == |views|
    requires forall i :: 0 <= i < |views| ==> views[i].spec.run == names[i].run
    requires RecoverAll(j, owner, views, now, faults).1.Ok?
    ensures forall n :: n in names ==> SettledIn(j, RecoverAll(j, owner, views, now, faults).0, owner, n.run)
  {
    forall n | n in names
      ensures SettledIn(j, RecoverAll(j, owner, views, now, faults).0, owner, n.run)
    {
      var i :| 0 <= i < |names| && names[i] == n;
      RecoverAllSettles(j, owner, views, now, faults, i);
      hide RecoverAll, Settled;
    }
  }

  /** What happens to a store while `Start` asks the authority: its error if any and
      the time read after it, the journal others leave and whether they closed
      the store. */
  datatype Meanwhile = Meanwhile(refusal: Option<Error>, at: Time, journal: Journal, closed: bool)

  /** The run is in this state under this admission. */
  predicate StandsAt(j: Journal, owner: Owner, run: Id, admission: Digest, state: Stage) {
    var view := Get(j, owner, run);
    view.Ok? && view.value.admission == admission && view.value.state == state
  }

  /** Every record stays as it was, and only this name may be new. */
  ghost predicate AddsAtMost(before: Journal, after: Journal, name: Name) {
    && (forall n :: n in before.entries ==> n in after.entries && after.entries[n] == before.entries[n])
    && (forall n :: n in after.entries ==> n in before.entries || n == name)
    && before.durable <= after.durable
  }

  /** One open store.  Its methods are the critical sections, run in place. */
  class Store {
    const owner: Owner
    var journal: Journal
    var closed: bool

    ghost predicate Valid()
      reads this
    {
      journal.Valid()
    }

    constructor (owner: Owner, journal: Journal)
      requires journal.Valid()
      ensures Valid() && this.owner == owner && this.journal == journal && !closed
    {
      this.owner := owner;
      this.journal := journal;
      closed := false;
    }

    method Close()
      modifies this
      ensures closed && journal == old(journal)
    {
      closed := true;
    }

    /** Reads every claimed run; any refused run refuses the inventory. */
    method Inventory() returns (r: Result<seq<View>, Error>, ghost names: seq<Name>)
      requires Valid()
      ensures r.Ok? <==> List(journal, owner).Ok?
      ensures r.Err? ==> r.error == Changed
      ensures r.Ok? ==> Enumerates(r.value, names, List(journal, owner).value)
    {
      if |journal.entries| + journal.pending > 3 * MAX_RUNTIME_ADMISSIONS + MAX_LEFTOVERS {
        return Err(Changed), [];
      }
      if !PrefixClosed(journal.entries.Keys) {
        return Err(Changed), [];
      }
      var views;
      views, names := Collect(Readings(journal, owner));
      if views.None? {
        return Err(Changed), names;
      }
      if |views.value| > MAX_RUNTIME_ADMISSIONS {
        return Err(Changed), names;
      }
      assert List(journal, owner).value == Accepted(Readings(journal, owner));
      return Ok(views.value), names;
    }

    method Claim(spec: Spec, now: Time, fault: Fault) returns (r: Result<View, Error>)
      requires Valid()
      modifies this`journal
      ensures Valid()
      ensures closed ==> journal == old(journal) && r == Err(Changed)
      ensures !closed ==> (journal, r) == ClaimSection(old(journal), owner, spec, now, fault)
    {
      if closed {
        return Err(Changed);
      }
      if !ValidSpec(spec) || now == ZERO_TIME {
        return Err(Invalid);
      }
      if spec.device != owner.device {
        return Err(NotCurrent);
      }
      var existing := Get(journal, owner, spec.run);
      if existing.Ok? {
        if existing.value.spec != spec {
          return Err(Conflict);
        }
        return existing;
      }
      if existing.error != NotExist {
        return existing;
      }
      if !Current(spec, now) {
        return Err(NotCurrent);
      }
      var listed, names := Inventory();
      if listed.Err? {
        return Err(listed.error);
      }
      if |listed.value| >= MAX_RUNTIME_ADMISSIONS {
        return Err(Conflict);
      }
      var clash := FindClash(listed.value, spec, names, List(journal, owner).value);
      if clash {
        return Err(Conflict);
      }
      var put := Put(journal, owner, spec.run, Claimed, ClaimRecord(1, owner, spec, Some(now)), fault);
      journal, r := put.0, put.1;
    }

    /** Both sections of a start.  `meanwhile` is what happens between them:
        what the authority answers, when, and what others did to the store.
        The run is invoked exactly when the authority agreed about a claimed
        run, the run is still claimed, the time is inside its window and the
        record was written, read back and synced. */
    method Start(run: Id, expected: Digest, meanwhile: Meanwhile, fault: Fault)
      returns (asked: bool, r: Result<StartResult, Error>)
      requires Valid() && meanwhile.journal.Valid()
      modifies this
      ensures Valid()
      ensures asked <==> !old(closed) && StandsAt(old(journal), owner, run, expected, Claimed)
      ensures !asked ==> journal == old(journal) && closed == old(closed) && (r.Ok? ==> !r.value.invoke)
      ensures asked ==> closed == meanwhile.closed && AddsAtMost(meanwhile.journal, journal, Name(run, Starting))
      ensures asked && meanwhile.refusal.Some? ==> journal == meanwhile.journal && r == Err(meanwhile.refusal.value)
      ensures asked && meanwhile.refusal.None? && closed ==> journal == meanwhile.journal && r == Err(Changed)
      ensures asked && meanwhile.refusal.None? && !closed ==>
                var observed := Get(old(journal), owner, run).value;
                (journal, r) == StartCommitSection(meanwhile.journal, owner, observed, expected, meanwhile.at, fault)
      ensures (r.Ok? && r.value.invoke) <==>
                && asked && meanwhile.refusal.None? && !closed
                && StandsAt(meanwhile.journal, owner, run, expected, Claimed)
                && Current(Get(old(journal), owner, run).value.spec, meanwhile.at)
                && Get(old(journal), owner, run).value.claimedAt <= meanwhile.at && fault == NoFault
      ensures r.Ok? ==> r.value.view.admission == expected && r.value.view.state != Claimed
      ensures r.Ok? ==> Get(journal, owner, run) == Ok(r.value.view)
      ensures r.Ok? && r.value.invoke ==>
                && r.value.view.start == Some(Digest(StartRecord(2, run, expected, Some(meanwhile.at))))
                && Name(run, Claimed) in journal.durable && Name(run, Starting) in journal.durable
    {
      asked := false;
      if !run.wellFormed {
        return asked, Err(Invalid);
      }
      if closed {
        return asked, Err(Changed);
      }
      var view := Get(journal, owner, run);
      if view.Err? {
        return asked, Err(view.error);
      }
      if view.value.admission != expected {
        return asked, Err(Conflict);
      }
      if view.value.state != Claimed {
        return asked, Ok(StartResult(view.value, false));
      }
      asked, journal, closed := true, meanwhile.journal, meanwhile.closed;
      if meanwhile.refusal.Some? {
        return asked, Err(meanwhile.refusal.value);
      }
      if closed {
        return asked, Err(Changed);
      }
      var current := Get(journal, owner, run);
      if current.Err? {
        return asked, Err(current.error);
      }
      if current.value.admission != expected || current.value.spec != view.value.spec {
        return asked, Err(Changed);
      }
      if current.value.state != Claimed {
        return asked, Ok(StartResult(current.value, false));
      }
      if !Current(current.value.spec, meanwhile.at) {
        return asked, Err(NotCurrent);
      }
      var put := Put(journal, owner, run, Starting, StartRecord(2, run, expected, Some(meanwhile.at)), fault);
      journal := put.0;
      if put.1.Err? {
        return asked, Err(put.1.error);
      }
      return asked, Ok(StartResult(put.1.value, true));
    }

    /** A stop is accepted exactly for the named start, once; after an accepted
        stop the run reads as stopped with this outcome. */
    method Stop(run: Id, expected: Digest, expectedStart: Digest, outcome: Outcome, now: Time, fault: Fault)
      returns (r: Result<View, Error>)
      requires Valid()
      modifies this`journal
      ensures Valid()
      ensures closed ==> journal == old(journal) && r == Err(Changed)
      ensures !closed ==>
                (journal, r) == StopSection(old(journal), owner, run, expected, expectedStart, outcome, now, fault)
      ensures AddsAtMost(old(journal), journal, Name(run, Stopped))
      ensures r.Ok? ==> Get(journal, owner, run) == r && r.value.state == Stopped && r.value.outcome == Some(outcome)
      ensures r.Ok? ==> r.value.admission == expected && r.value.start == Some(expectedStart)
      ensures r.Ok? && journal.entries != old(journal).entries ==> journal.durable == journal.entries.Keys
      ensures Name(run, Stopped) in old(journal).entries ==> journal == old(journal)
    {
      if closed {
        return Err(Changed);
      }
      if !ValidOutcome(outcome) || now == ZERO_TIME {
        return Err(Invalid);
      }
      var view := Get(journal, owner, run);
      if view.Err? {
        return view;
      }
      if view.value.admission != expected || view.value.start != Some(expectedStart) {
        return Err(Conflict);
      }
      if view.value.state == Stopped {
        if view.value.outcome != Some(outcome) {
          return Err(Conflict);
        }
        return view;
      }
      if now < view.value.authorityCheckedAt.value {
        return Err(Invalid);
      }
      var put := Put(journal, owner, run, Stopped,
                     StopRecord(3, run, expected, expectedStart, outcome, Some(now)), fault);
      journal, r := put.0, put.1;
    }

    /** The loop of `RecoverUnknown` over the views it listed. */
    method CloseStarting(views: seq<View>, now: Time, faults: nat -> Fault) returns (r: Result<seq<View>, Error>)
      requires Valid() && Closable(views)
      modifies this`journal
      ensures Valid() && (journal, r) == RecoverAll(old(journal), owner, views, now, faults)
    {
      var recovered: seq<View> := [];
      var failure: Option<Error> := None;
      for i := 0 to |views|
        invariant Valid()
        invariant RecoverAll(old(journal), owner, views[..i], now, faults)
               == (journal, if failure.Some? then Err(failure.value) else Ok(recovered))
      {
        assert views[..i + 1][..i] == views[..i];
        if failure.None? && views[i].state == Starting {
          var section := RecoverSection(journal, owner, views[i], now, faults(i));
          journal := section.0;
          if section.1.Err? {
            failure := Some(section.1.error);
          } else {
            recovered := recovered + [section.1.value];
          }
        }
      }
      assert views[..|views|] == views;
      return if failure.Some? then Err(failure.value) else Ok(recovered);
    }

    /** Closes every run found starting, in the order `names` the inventory came
        in.  Without an error nothing is left in the starting state. */
    method RecoverUnknown(now: Time, faults: nat -> Fault)
      returns (r: Result<seq<View>, Error>, ghost todo: seq<View>, ghost names: seq<Name>)
      requires Valid()
      modifies this`journal
      ensures Valid()
      ensures closed ==> journal == old(journal) && r == Err(Changed)
      ensures !closed && now == ZERO_TIME ==> journal == old(journal) && r == Err(Invalid)
      ensures !closed && now != ZERO_TIME && List(old(journal), owner).Err? ==>
                journal == old(journal) && r == Err(Changed)
      ensures !closed && now != ZERO_TIME && List(old(journal), owner).Ok? ==>
                && Enumerates(todo, names, List(old(journal), owner).value) && Closable(todo)
                && (journal, r) == RecoverAll(old(journal), owner, todo, now, faults)
      ensures r.Ok? ==> forall n :: n in Claims(old(journal)) ==> SettledIn(old(journal), journal, owner, n.run)
    {
      todo, names := [], [];
      if closed {
        return Err(Changed), todo, names;
      }
      if now == ZERO_TIME {
        return Err(Invalid), todo, names;
      }
      var listed;
      listed, names := Inventory();
      if listed.Err? {
        return Err(listed.error), todo, names;
      }
      var views := listed.value;
      todo := views;
      assert |names| == |views|;
      EnumeratedIsInventoried(journal, owner, views, names);
      hide List, Get, Inventoried, SettledIn, RecoverAll, Claims, Enumerates, Closable;
      r := CloseStarting(views, now, faults);
      if r.Ok? {
        AllSettle(old(journal), owner, views, names, now, faults);
      }
    }
  }
}
