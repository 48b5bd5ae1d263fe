/**
 The materializer's lock per run: a map of reference-counted mutexes.

 A caller enters (finds or creates the mutex and counts itself), waits for the
 mutex, holds it, unlocks it, and leaves (uncounts itself and deletes the mutex
 with the last reference).  Only entering and leaving happen under the
 materializer's own mutex, so anything may happen between those steps.
 */
module RunLock {
  type RunId = int
  type LockId = int
  type Caller = int

  datatype Stage = Waiting | Holding | Leaving

  datatype Use = Use(run: RunId, lock: LockId, stage: Stage)

  /** `runLocks` is the map; `references` and `holder` are fields of the lock
      objects; `uses` the callers on their way; `next` the next new object. */
  datatype State = State(
    runLocks: map<RunId, LockId>, references: map<LockId, int>, holder: map<LockId, Caller>,
    uses: map<Caller, Use>, next: LockId)

  datatype Step = Enter(caller: Caller, run: RunId) | Lock(caller: Caller) | Unlock(caller: Caller)
    | Leave(caller: Caller)

  const INIT := State(map[], map[], map[], map[], 0)

  /** The callers on their way for one run. */
  function Users(uses: map<Caller, Use>, run: RunId): (r: set<Caller>) {
    set c | c in uses && uses[c].run == run
  }

  ghost predicate Counted(s: State) {
    && (forall run :: run in s.runLocks <==> Users(s.uses, run) != {})
    && (forall run :: run in s.runLocks ==>
          s.runLocks[run] in s.references && s.references[s.runLocks[run]] == |Users(s.uses, run)|)
  }

  /** Whoever is on its way uses the lock object its run has in the map. */
  ghost predicate LinksFit(runLocks: map<RunId, LockId>, uses: map<Caller, Use>) {
    && (forall c :: c in uses ==> uses[c].run in runLocks && runLocks[uses[c].run] == uses[c].lock)
    && (forall a, b :: a in runLocks && b in runLocks && runLocks[a] == runLocks[b] ==> a == b)
  }

  /** A lock is held by exactly the caller that is holding it. */
  ghost predicate HoldersFit(uses: map<Caller, Use>, holder: map<LockId, Caller>) {
    && (forall c :: c in uses && uses[c].stage.Holding? ==> uses[c].lock in holder && holder[uses[c].lock] == c)
    && (forall l :: l in holder ==> holder[l] in uses && uses[holder[l]].lock == l && uses[holder[l]].stage.Holding?)
  }

  ghost predicate Inv(s: State) {
    && Counted(s) && LinksFit(s.runLocks, s.uses) && HoldersFit(s.uses, s.holder)
    && (forall l :: l in s.references || l in s.holder ==> l < s.next)
  }

  // ------------------------------------------------------------------- steps

  function ApplyEnter(s: State, c: Caller, run: RunId): (t: State)
    requires Inv(s) && c !in s.uses
  {
    if run in s.runLocks then
      var l := s.runLocks[run];
      s.(references := s.references[l := s.references[l] + 1], uses := s.uses[c := Use(run, l, Waiting)])
    else
      s.(runLocks := s.runLocks[run := s.next], references := s.references[s.next := 1],
         uses := s.uses[c := Use(run, s.next, Waiting)], next := s.next + 1)
  }

  function ApplyLeave(s: State, c: Caller): (t: State)
    requires Inv(s) && c in s.uses
  {
    var Use(run, l, _) := s.uses[c];
    var n := s.references[l] as int - 1;
    if n <= 0 then s.(runLocks := s.runLocks - {run}, references := s.references[l := 0], uses := s.uses - {c})
    else s.(references := s.references[l := n], uses := s.uses - {c})
  }

  function Apply(s: State, step: Step): (t: State)
    requires Inv(s)
  {
    match step
    case Enter(c, run) => if c in s.uses then s else ApplyEnter(s, c, run)
    case Lock(c) =>
      if c !in s.uses || !s.uses[c].stage.Waiting? || s.uses[c].lock in s.holder then s
      else s.(holder := s.holder[s.uses[c].lock := c], uses := s.uses[c := s.uses[c].(stage := Holding)])
    case Unlock(c) =>
      if c !in s.uses || !s.uses[c].stage.Holding? then s
      else s.(holder := s.holder - {s.uses[c].lock}, uses := s.uses[c := s.uses[c].(stage := Leaving)])
    case Leave(c) => if c !in s.uses || !s.uses[c].stage.Leaving? then s else ApplyLeave(s, c)
  }

  // --------------------------------------------------------------- invariant

  lemma UsersAdd(uses: map<Caller, Use>, c: Caller, use: Use, run: RunId)
    requires c !in uses
    ensures Users(uses[c := use], run) == if use.run == run then Users(uses, run) + {c} else Users(uses, run)
    ensures c !in Users(uses, run)
  {
  }

  lemma UsersRemove(uses: map<Caller, Use>, c: Caller, run: RunId)
    requires c in uses
    ensures Users(uses - {c}, run) == if uses[c].run == run then Users(uses, run) - {c} else Users(uses, run)
    ensures c in Users(uses, run) <==> uses[c].run == run
  {
  }

  lemma UsersSame(uses: map<Caller, Use>, c: Caller, use: Use, run: RunId)
    requires c in uses && use.run == uses[c].run
    ensures Users(uses[c := use], run) == Users(uses, run)
  {
  }

  /** One user more. */
  lemma CountsAdd(uses: map<Caller, Use>, c: Caller, use: Use, run: RunId)
    requires c !in uses
    ensures var users := Users(uses[c := use], run);
            && (use.run == run ==> users != {} && |users| == |Users(uses, run)| + 1)
            && (use.run != run ==> users == Users(uses, run))
  {
    UsersAdd(uses, c, use, run);
    hide Users;
    assert c in {c};
  }

  /** One user less. */
  lemma CountsRemove(uses: map<Caller, Use>, c: Caller, run: RunId)
    requires c in uses
    ensures var users := Users(uses - {c}, run);
            && (uses[c].run == run ==> |users| == |Users(uses, run)| - 1)
            && (uses[c].run != run ==> users == Users(uses, run))
  {
    UsersRemove(uses, c, run);
    hide Users;
  }

  lemma EnterCounts(s: State, c: Caller, run: RunId)
    requires Inv(s) && c !in s.uses
    ensures Counted(ApplyEnter(s, c, run))
  {
    var t := ApplyEnter(s, c, run);
    forall r
      ensures var users := Users(t.uses, r);
              && (run == r ==> users != {} && |users| == |Users(s.uses, r)| + 1)
              && (run != r ==> users == Users(s.uses, r))
    {
      CountsAdd(s.uses, c, t.uses[c], r);
    }
    hide Users, HoldersFit;
  }

  lemma HoldersAdd(uses: map<Caller, Use>, holder: map<LockId, Caller>, c: Caller, use: Use)
    requires HoldersFit(uses, holder) && c !in uses && !use.stage.Holding?
    ensures HoldersFit(uses[c := use], holder)
  {
  }

  lemma HoldersRemove(uses: map<Caller, Use>, holder: map<LockId, Caller>, c: Caller)
    requires HoldersFit(uses, holder) && c in uses && !uses[c].stage.Holding?
    ensures HoldersFit(uses - {c}, holder)
  {
  }

  lemma LinksAdd(runLocks: map<RunId, LockId>, uses: map<Caller, Use>, c: Caller, run: RunId, l: LockId, stage: Stage)
    requires LinksFit(runLocks, uses) && c !in uses
    requires if run in runLocks then runLocks[run] == l else forall r :: r in runLocks ==> runLocks[r] != l
    ensures LinksFit(runLocks[run := l], uses[c := Use(run, l, stage)])
  {
  }

  lemma EnterKeeps(s: State, c: Caller, run: RunId)
    requires Inv(s) && c !in s.uses
    ensures Inv(ApplyEnter(s, c, run))
  {
    EnterCounts(s, c, run);
    LocksAreOld(s);
    var l := if run in s.runLocks then s.runLocks[run] else s.next;
    assert run in s.runLocks ==> s.runLocks[run := l] == s.runLocks;
    hide Counted, LinksFit, HoldersFit;
    LinksAdd(s.runLocks, s.uses, c, run, l, Waiting);
    HoldersAdd(s.uses, s.holder, c, Use(run, l, Waiting));
  }

  lemma LocksAreOld(s: State)
    requires Inv(s)
    ensures forall run :: run in s.runLocks ==> s.runLocks[run] in s.references && s.runLocks[run] < s.next
  {
  }

  lemma LeaveCounts(s: State, c: Caller)
    requires Inv(s) && c in s.uses && s.uses[c].stage.Leaving?
    ensures Counted(ApplyLeave(s, c))
    ensures ApplyLeave(s, c).runLocks == s.runLocks - {s.uses[c].run} ==>
              Users(ApplyLeave(s, c).uses, s.uses[c].run) == {}
  {
    var t := ApplyLeave(s, c);
    var run := s.uses[c].run;
    forall r
      ensures var users := Users(t.uses, r);
              && (run == r ==> |users| == |Users(s.uses, r)| - 1)
              && (run != r ==> users == Users(s.uses, r))
    {
      CountsRemove(s.uses, c, r);
    }
    hide Users, HoldersFit;
  }

  lemma LeaveLinks(s: State, c: Caller)
    requires Inv(s) && c in s.uses && s.uses[c].stage.Leaving?
    ensures LinksFit(ApplyLeave(s, c).runLocks, ApplyLeave(s, c).uses)
  {
    var t := ApplyLeave(s, c);
    LeaveCounts(s, c);
    hide HoldersFit;
    forall d | d in t.uses ensures t.uses[d].run in t.runLocks {
      assert d in Users(t.uses, t.uses[d].run);
    }
  }

  lemma LeaveKeeps(s: State, c: Caller)
    requires Inv(s) && c in s.uses && s.uses[c].stage.Leaving?
    ensures Inv(ApplyLeave(s, c))
  {
    LeaveCounts(s, c);
    LeaveLinks(s, c);
    Referenced(s, c);
    hide Counted, Users, LinksFit, HoldersFit;
    HoldersRemove(s.uses, s.holder, c);
  }

  lemma StageFits(uses: map<Caller, Use>, holder: map<LockId, Caller>, c: Caller, locking: bool)
    requires HoldersFit(uses, holder) && c in uses
    requires if locking then uses[c].lock !in holder else uses[c].stage.Holding?
    ensures if locking then HoldersFit(uses[c := uses[c].(stage := Holding)], holder[uses[c].lock := c])
            else HoldersFit(uses[c := uses[c].(stage := Leaving)], holder - {uses[c].lock})
  {
  }

  lemma CountsSame(s: State, c: Caller, use: Use, holder: map<LockId, Caller>)
    requires Counted(s) && c in s.uses && use.run == s.uses[c].run
    ensures Counted(s.(uses := s.uses[c := use], holder := holder))
  {
    forall r ensures Users(s.uses[c := use], r) == Users(s.uses, r) {
      UsersSame(s.uses, c, use, r);
    }
    hide Users;
  }

  lemma StageKeeps(s: State, step: Step)
    requires Inv(s) && (step.Lock? || step.Unlock?)
    ensures Inv(Apply(s, step))
  {
    var t := Apply(s, step);
    if t != s {
      var c := step.caller;
      StageFits(s.uses, s.holder, c, step.Lock?);
      StageLinks(s, c, t.uses[c]);
      Referenced(s, c);
      CountsSame(s, c, t.uses[c], t.holder);
      hide LinksFit, HoldersFit, Counted;
    }
  }

  lemma StageLinks(s: State, c: Caller, use: Use)
    requires LinksFit(s.runLocks, s.uses) && c in s.uses && use.run == s.uses[c].run && use.lock == s.uses[c].lock
    ensures LinksFit(s.runLocks, s.uses[c := use])
  {
  }

  lemma Referenced(s: State, c: Caller)
    requires Inv(s) && c in s.uses
    ensures s.uses[c].lock in s.references && s.references[s.uses[c].lock] > 0
  {
    assert c in Users(s.uses, s.uses[c].run);
  }

  lemma StepKeeps(s: State, step: Step)
    requires Inv(s)
    ensures Inv(Apply(s, step))
  {
    match step
    case Enter(c, run) => if c !in s.uses { EnterKeeps(s, c, run); }
    case Leave(c) => if c in s.uses && s.uses[c].stage.Leaving? { LeaveKeeps(s, c); }
    case Lock(_) => StageKeeps(s, step);
    case Unlock(_) => StageKeeps(s, step);
  }

  /** A run from the empty map. */
  ghost function Run(steps: seq<Step>): (s: State)
    ensures Inv(s)
    decreases |steps|
  {
    if steps == [] then INIT
    else
      var before := Run(steps[..|steps| - 1]);
      StepKeeps(before, steps[|steps| - 1]);
      Apply(before, steps[|steps| - 1])
  }

  // -------------------------------------------------------------- main results

  /** Two callers never hold the lock of one run together. */
  lemma MutualExclusion(steps: seq<Step>, a: Caller, b: Caller)
    requires var s := Run(steps);
             && a in s.uses && b in s.uses && s.uses[a].run == s.uses[b].run
             && s.uses[a].stage.Holding? && s.uses[b].stage.Holding?
    ensures a == b
  {
    var s := Run(steps);
    assert s.holder[s.uses[a].lock] == a && s.holder[s.uses[b].lock] == b;
  }

  /** No two lock objects are in use for one run. */
  lemma OneLockPerRun(steps: seq<Step>, a: Caller, b: Caller)
    requires var s := Run(steps); a in s.uses && b in s.uses && s.uses[a].run == s.uses[b].run
    ensures var s := Run(steps); s.uses[a].lock == s.uses[b].lock
  {
    var s := Run(steps);
    assert s.runLocks[s.uses[a].run] == s.uses[a].lock;
  }

  lemma Inhabited(users: set<Caller>)
    ensures users == {} || exists c :: c in users
  {
    if forall c :: c !in users {
      assert users == {};
    }
  }

  /** The map holds exactly the runs with callers, each with its true positive
      count, and is empty once everybody has left. */
  lemma MapIsExact(steps: seq<Step>)
    ensures var s := Run(steps);
            && (forall run :: run in s.runLocks <==> exists c :: c in s.uses && s.uses[c].run == run)
            && (forall run :: run in s.runLocks ==>
                  s.references[s.runLocks[run]] == |Users(s.uses, run)| && s.references[s.runLocks[run]] > 0)
            && (s.uses == map[] ==> s.runLocks == map[])
  {
    var s := Run(steps);
    forall run | run in s.runLocks ensures exists c :: c in s.uses && s.uses[c].run == run {
      Inhabited(Users(s.uses, run));
    }
    forall c | c in s.uses ensures s.uses[c].run in s.runLocks {
      assert c in Users(s.uses, s.uses[c].run);
    }
  }

  // ----------------------------------------------------------- lock objects

  /** The object an entering caller gets. */
  function LockFor(s: State, run: RunId): LockId {
    if run in s.runLocks then s.runLocks[run] else s.next
  }

  /** No other run has the lock object a caller counts itself on. */
  lemma Apart(s: State, run: RunId)
    requires Inv(s)
    ensures forall a :: a in s.runLocks && a != run ==> s.runLocks[a] != LockFor(s, run)
    ensures run in s.runLocks ==> s.runLocks[run] in s.references
  {
    hide Users;
  }

  /** Entering, in one form for the lock found and the lock created. */
  lemma EnterParts(s: State, c: Caller, run: RunId)
    requires Inv(s) && c !in s.uses
    ensures var l, t := LockFor(s, run), ApplyEnter(s, c, run);
            && t.runLocks == s.runLocks[run := l] && t.uses == s.uses[c := Use(run, l, Waiting)]
            && t.references == s.references[l := if run in s.runLocks then s.references[l] + 1 else 1]
  {
    hide Users;
    if run in s.runLocks {
      assert s.runLocks == s.runLocks[run := s.runLocks[run]];
    }
  }

  lemma LeaveParts(s: State, c: Caller)
    requires Inv(s) && c in s.uses
    ensures var Use(run, l, _) := s.uses[c];
            && run in s.runLocks && s.runLocks[run] == l && l in s.references && s.references[l] > 0
            && var t := ApplyLeave(s, c);
            && t.uses == s.uses - {c} && t.references == s.references[l := s.references[l] - 1]
            && t.runLocks == if s.references[l] == 1 then s.runLocks - {run} else s.runLocks
  {
    Referenced(s, c);
    hide Users;
  }

  /** `materializationRunLock`; who has its mutex is `holder` of the protocol. */
  class RunMutex {
    var references: int
    ghost const id: LockId

    constructor (ghost id: LockId)
      ensures references == 0 && this.id == id
    {
      references := 0;
      this.id := id;
    }
  }

  ghost predicate Fits(links: map<RunId, LockId>, references: map<LockId, int>, run: RunId, lock: LockId, count: int) {
    run in links && links[run] == lock && lock in references && references[lock] == count
  }

  /** A release function holds the object in the map under its caller's run. */
  ghost predicate HandlesFit(uses: map<Caller, Use>, runLocks: map<RunId, RunMutex>, handles: map<Caller, RunMutex>) {
    && (forall c :: c in handles <==> c in uses)
    && (forall c :: c in handles ==> uses[c].run in runLocks && handles[c] == runLocks[uses[c].run])
  }

  lemma HandlesGrow(uses: map<Caller, Use>, runLocks: map<RunId, RunMutex>, handles: map<Caller, RunMutex>, c: Caller,
      use: Use, lock: RunMutex)
    requires HandlesFit(uses, runLocks, handles) && (use.run in runLocks ==> runLocks[use.run] == lock)
    ensures HandlesFit(uses[c := use], runLocks[use.run := lock], handles[c := lock])
  {
  }

  lemma HandlesShrink(s: State, runLocks: map<RunId, RunMutex>, handles: map<Caller, RunMutex>, c: Caller)
    requires Inv(s) && c in s.uses && s.uses[c].stage.Leaving? && HandlesFit(s.uses, runLocks, handles)
    ensures var t, run := ApplyLeave(s, c), s.uses[c].run;
            HandlesFit(t.uses, if run in t.runLocks then runLocks else runLocks - {run}, handles - {c})
  {
    LeaveLinks(s, c);
    LeaveParts(s, c);
    hide Inv, ApplyLeave;
  }

  /** The materializer's map of lock objects.  `model` is the protocol state it
      stands for, and `handles` the object each caller's release function captured. */
  class Materializer {
    var runLocks: map<RunId, RunMutex>
    ghost var model: State
    ghost var handles: map<Caller, RunMutex>

    ghost predicate MapFits(links: map<RunId, LockId>, references: map<LockId, int>)
      reads this, runLocks.Values
    {
      && (forall run :: run in links <==> run in runLocks)
      && (forall run :: run in runLocks ==> Fits(links, references, run, runLocks[run].id, runLocks[run].references))
    }

    ghost predicate Valid()
      reads this, runLocks.Values
    {
      Inv(model) && MapFits(model.runLocks, model.references) && HandlesFit(model.uses, runLocks, handles)
    }

    constructor ()
      ensures Valid() && model == INIT
    {
      runLocks, model, handles := map[], INIT, map[];
    }

    /** Finds or creates the run's lock object and counts one more user. */
    method Count(run: RunId) returns (lock: RunMutex)
      requires Valid()
      modifies `runLocks, runLocks.Values
      ensures runLocks == old(runLocks)[run := lock]
      ensures if run in old(runLocks) then lock == old(runLocks)[run] else fresh(lock)
      ensures lock.id == LockFor(model, run)
      ensures MapFits(model.runLocks[run := lock.id],
                      model.references[lock.id := if run in model.runLocks then model.references[lock.id] + 1 else 1])
    {
      Apart(model, run);
      hide Inv, HandlesFit;
      if run !in runLocks {
        lock := new RunMutex(model.next);
        runLocks := runLocks[run := lock];
      } else {
        lock := runLocks[run];
      }
      lock.references := lock.references + 1;
    }

    /** The first half of `acquireRun`. */
    method Register(c: Caller, run: RunId) returns (lock: RunMutex)
      requires Valid() && c !in model.uses
      modifies this, runLocks.Values
      ensures Valid() && model == ApplyEnter(old(model), c, run)
      ensures runLocks == old(runLocks)[run := lock] && handles == old(handles)[c := lock]
      ensures if run in old(runLocks) then lock == old(runLocks)[run] else fresh(lock)
    {
      EnterKeeps(model, c, run);
      EnterParts(model, c, run);
      hide Inv, ApplyEnter, HandlesFit, MapFits;
      lock := Count(run);
      HandlesGrow(model.uses, old(runLocks), handles, c, Use(run, lock.id, Waiting), lock);
      handles, model := handles[c := lock], ApplyEnter(model, c, run);
      assert MapFits(model.runLocks, model.references);
      assert HandlesFit(model.uses, runLocks, handles);
    }

    /** The release function after it unlocked: it uses the object it captured
        and deletes whatever stands under the run. */
    method Deregister(c: Caller, run: RunId, lock: RunMutex)
      requires Valid() && c in model.uses && model.uses[c].stage.Leaving?
      requires model.uses[c].run == run && handles[c] == lock
      modifies this, lock
      ensures Valid() && model == ApplyLeave(old(model), c)
      ensures handles == old(handles) - {c}
      ensures run in runLocks <==> lock.references > 0
    {
      LeaveKeeps(model, c);
      Apart(model, run);
      LeaveParts(model, c);
      HandlesShrink(model, runLocks, handles, c);
      assert run in runLocks && runLocks[run] == lock;
      hide Inv, ApplyLeave, HandlesFit;
      lock.references := lock.references - 1;
      if lock.references == 0 {
        runLocks := runLocks - {run};
      }
      handles := handles - {c};
      model := ApplyLeave(model, c);
    }
  }
}
