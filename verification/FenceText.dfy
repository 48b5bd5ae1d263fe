/**
 The fence's records as they are on disk, with stamps as text.

 The store validates stamps as text and compares them as text.  Reading the
 texts gives the same answer as reading the times they stand for, so what is
 proved of the journal of times holds of the texts.
 */
module FenceText {
  import opened Wrappers
  import opened DurableDirectory
  import opened RuntimeFence
  import F = FenceProtocol
  import T = Timestamps

  // ------------------------------------------------------------------ stamps

  datatype Stamp = Stamp(text: string)

  predicate ValidStamp(s: Stamp) {
    T.ValidStamp(s.text)
  }

  /** Go's `<` on the two strings. */
  predicate Earlier(a: Stamp, b: Stamp) {
    T.TextBefore(a.text, b.text)
  }

  /** The time of an instant: its nanoseconds, counted from 1.  Time 0 stands for
      a reading that `IsZero`, which is refused before anything is written. */
  ghost function TimeOf(t: T.Instant): (n: Time) {
    1 + T.Nanos(t)
  }

  /** The time a stamp stands for, if it is one. */
  ghost function Value(s: Stamp): (r: Option<Time>)
    ensures r.Some? <==> ValidStamp(s)
  {
    if ValidStamp(s) then Some(TimeOf(T.ParseStamp(s.text).value)) else None
  }

  /** A clock reading: time 0, or the time of an instant. */
  ghost predicate Reading(now: Time) {
    now == ZERO_TIME || exists t: T.Instant :: TimeOf(t) == now
  }

  /** What `profileTime` writes for a reading. */
  ghost function StampOf(now: Time): (s: Stamp)
    requires now != ZERO_TIME && Reading(now)
    ensures Value(s) == Some(now)
  {
    var t: T.Instant :| TimeOf(t) == now;
    T.StampRoundTrip(t);
    Stamp(T.ProfileTime(t))
  }

  /** Text order is time order, and stamps of one time are one text. */
  lemma StampsAreTimes(a: Stamp, b: Stamp)
    requires ValidStamp(a) && ValidStamp(b)
    ensures Earlier(a, b) <==> Value(a).value < Value(b).value
    ensures Value(a) == Value(b) ==> a == b
  {
    var (t, u) := (T.ParseStamp(a.text).value, T.ParseStamp(b.text).value);
    T.ValidStampIsRendering(a.text);
    T.ValidStampIsRendering(b.text);
    T.StampOrder(t, u);
    T.FieldOrderIsTimeOrder(t, u);
    T.FieldOrderIsTimeOrder(u, t);
  }

  // ----------------------------------------------------------------- records

  datatype TextDigest = TextDigest(record: TextRecord)

  datatype TextRecord =
    | ClaimText(version: int, owner: Owner, spec: Spec, claimedAt: Stamp)
    | StartText(version: int, run: Id, admission: TextDigest, authorityCheckedAt: Stamp)
    | StopText(version: int, run: Id, admission: TextDigest, start: TextDigest, outcome: Outcome, stoppedAt: Stamp)

  type TextJournal = Directory<Name, TextRecord>

  datatype TextView = TextView(
    spec: Spec, admission: TextDigest, state: Stage, claimedAt: Stamp,
    start: Option<TextDigest>, authorityCheckedAt: Option<Stamp>, outcome: Option<Outcome>, stoppedAt: Option<Stamp>)

  /** The record of times a record of texts stands for. */
  ghost function Meaning(r: TextRecord): (m: Record) {
    match r
    case ClaimText(version, owner, spec, at) => ClaimRecord(version, owner, spec, Value(at))
    case StartText(version, run, admission, at) =>
      StartRecord(version, run, Digest(Meaning(admission.record)), Value(at))
    case StopText(version, run, admission, start, outcome, at) =>
      StopRecord(version, run, Digest(Meaning(admission.record)), Digest(Meaning(start.record)), outcome, Value(at))
  }

  ghost function MeaningOf(j: TextJournal): (m: Journal)
    ensures j.Valid() ==> m.Valid()
    ensures m.entries.Keys == j.entries.Keys && m.durable == j.durable && m.pending == j.pending
    ensures forall n :: n in j.entries ==> m.entries[n] == Meaning(j.entries[n])
  {
    Directory(map n | n in j.entries :: Meaning(j.entries[n]), j.durable, j.pending)
  }

  // ----------------------------------------------------------------- reading

  predicate ClaimTextReadable(claim: TextRecord, owner: Owner, run: Id) {
    && claim.ClaimText? && claim.version == 1 && claim.owner == owner
    && claim.spec.run == run && ValidSpec(claim.spec) && ValidStamp(claim.claimedAt)
  }

  predicate StartTextReadable(start: TextRecord, run: Id, claim: TextRecord)
    requires claim.ClaimText?
  {
    && start.StartText? && start.version == 2 && start.run == run && start.admission == TextDigest(claim)
    && ValidStamp(start.authorityCheckedAt) && !Earlier(start.authorityCheckedAt, claim.claimedAt)
  }

  predicate StopTextReadable(stop: TextRecord, run: Id, claim: TextRecord, start: TextRecord)
    requires start.StartText?
  {
    && stop.StopText? && stop.version == 3 && stop.run == run && stop.admission == TextDigest(claim)
    && stop.start == TextDigest(start) && ValidOutcome(stop.outcome)
    && ValidStamp(stop.stoppedAt) && !Earlier(stop.stoppedAt, start.authorityCheckedAt)
  }

  /** `get`, on the texts. */
  function GetText(j: TextJournal, owner: Owner, run: Id): (r: Result<TextView, Error>) {
    if !run.wellFormed then Err(Invalid)
    else if Name(run, Claimed) !in j.entries then Err(NotExist)
    else
      var claim := j.entries[Name(run, Claimed)];
      if !ClaimTextReadable(claim, owner, run) then Err(Changed)
      else
        var view := TextView(claim.spec, TextDigest(claim), Claimed, claim.claimedAt, None, None, None, None);
        if Name(run, Starting) !in j.entries then
          (if Name(run, Stopped) in j.entries then Err(Changed) else Ok(view))
        else
          var start := j.entries[Name(run, Starting)];
          if !StartTextReadable(start, run, claim) then Err(Changed)
          else
            var started := view.(state := Starting, start := Some(TextDigest(start)),
                                 authorityCheckedAt := Some(start.authorityCheckedAt));
            if Name(run, Stopped) !in j.entries then Ok(started)
            else
              var stop := j.entries[Name(run, Stopped)];
              if !StopTextReadable(stop, run, claim, start) then Err(Changed)
              else Ok(started.(state := Stopped, outcome := Some(stop.outcome), stoppedAt := Some(stop.stoppedAt)))
  }

  ghost function MeaningOfStamp(s: Option<Stamp>): Option<Time> {
    if s.Some? then Value(s.value) else None
  }

  ghost function MeaningOfView(v: TextView): (m: View)
    requires ValidStamp(v.claimedAt)
  {
    View(v.spec, Digest(Meaning(v.admission.record)), v.state, Value(v.claimedAt).value,
         if v.start.Some? then Some(Digest(Meaning(v.start.value.record))) else None,
         MeaningOfStamp(v.authorityCheckedAt), v.outcome, MeaningOfStamp(v.stoppedAt))
  }

  /** A claim with a valid stamp is the only record with its meaning. */
  lemma ClaimIsItsMeaning(r: TextRecord, claim: TextRecord)
    requires claim.ClaimText? && ValidStamp(claim.claimedAt)
    ensures Meaning(r) == Meaning(claim) <==> r == claim
  {
    if Meaning(r) == Meaning(claim) {
      assert r.ClaimText?;
      StampsAreTimes(r.claimedAt, claim.claimedAt);
    }
  }

  /** So is a start with a valid stamp of such a claim. */
  lemma StartIsItsMeaning(r: TextRecord, claim: TextRecord, start: TextRecord)
    requires claim.ClaimText? && ValidStamp(claim.claimedAt)
    requires start.StartText? && start.admission == TextDigest(claim) && ValidStamp(start.authorityCheckedAt)
    ensures Meaning(r) == Meaning(start) <==> r == start
  {
    if Meaning(r) == Meaning(start) {
      assert r.StartText?;
      StampsAreTimes(r.authorityCheckedAt, start.authorityCheckedAt);
      ClaimIsItsMeaning(r.admission.record, claim);
    }
  }

  lemma ReadsStart(start: TextRecord, run: Id, claim: TextRecord, owner: Owner)
    requires ClaimTextReadable(claim, owner, run)
    ensures StartTextReadable(start, run, claim) <==> StartReadable(Meaning(start), run, Meaning(claim))
  {
    if start.StartText? {
      ClaimIsItsMeaning(start.admission.record, claim);
      if ValidStamp(start.authorityCheckedAt) {
        StampsAreTimes(start.authorityCheckedAt, claim.claimedAt);
      }
    }
    hide Value, Earlier, ValidStamp;
  }

  lemma ReadsStop(stop: TextRecord, run: Id, claim: TextRecord, start: TextRecord, owner: Owner)
    requires ClaimTextReadable(claim, owner, run) && StartTextReadable(start, run, claim)
    ensures StopTextReadable(stop, run, claim, start) <==>
              StopReadable(Meaning(stop), run, Meaning(claim), Meaning(start))
  {
    if stop.StopText? {
      ClaimIsItsMeaning(stop.admission.record, claim);
      StartIsItsMeaning(stop.start.record, claim, start);
      if ValidStamp(stop.stoppedAt) {
        StampsAreTimes(stop.stoppedAt, start.authorityCheckedAt);
      }
    }
    hide Value, Earlier, ValidStamp;
  }

  /** Reading the texts is reading the times: the same answer for every journal,
      every owner and every run. */
  lemma GetTextIsGet(j: TextJournal, owner: Owner, run: Id)
    ensures var (r, m) := (GetText(j, owner, run), Get(MeaningOf(j), owner, run));
            if r.Ok? then ValidStamp(r.value.claimedAt) && m == Ok(MeaningOfView(r.value)) else m == Err(r.error)
  {
    if run.wellFormed && Name(run, Claimed) in j.entries {
      var claim := j.entries[Name(run, Claimed)];
      assert ClaimTextReadable(claim, owner, run) <==> ClaimReadable(Meaning(claim), owner, run);
      if ClaimTextReadable(claim, owner, run) && Name(run, Starting) in j.entries {
        var start := j.entries[Name(run, Starting)];
        ReadsStart(start, run, claim, owner);
        if StartTextReadable(start, run, claim) && Name(run, Stopped) in j.entries {
          ReadsStop(j.entries[Name(run, Stopped)], run, claim, start, owner);
        }
      }
    }
    hide ClaimTextReadable, StartTextReadable, StopTextReadable, StartReadable, StopReadable, ValidSpec;
  }

  /** `list`, on the texts: whether the inventory is accepted. */
  predicate ListText(j: TextJournal, owner: Owner) {
    && |j.entries| + j.pending <= 3 * MAX_RUNTIME_ADMISSIONS + MAX_LEFTOVERS
    && PrefixClosed(j.entries.Keys)
    && (forall n :: n in ClaimNames(j.entries.Keys) ==> GetText(j, owner, n.run).Ok?)
    && |ClaimNames(j.entries.Keys)| <= MAX_RUNTIME_ADMISSIONS
  }

  function ClaimNames(names: set<Name>): (claims: set<Name>) {
    set n | n in names && n.stage == Claimed
  }

  /** What `list` requires, in one line. */
  lemma ListAccepts(j: Journal, owner: Owner)
    ensures List(j, owner).Ok? <==>
            && FitsInventory(j) && PrefixClosed(j.entries.Keys)
            && |ClaimNames(j.entries.Keys)| <= MAX_RUNTIME_ADMISSIONS
            && forall n :: n in ClaimNames(j.entries.Keys) ==> Get(j, owner, n.run).Ok?
  {
    hide Get, PrefixClosed;
    assert ClaimNames(j.entries.Keys) == Claims(j);
    var readings := Readings(j, owner);
    assert |readings| == |readings.Keys| == |Claims(j)|;
    assert forall n :: n in readings ==> readings[n] == Get(j, owner, n.run);
  }

  lemma ListTextIsList(j: TextJournal, owner: Owner)
    ensures ListText(j, owner) <==> List(MeaningOf(j), owner).Ok?
  {
    var m := MeaningOf(j);
    ListAccepts(m, owner);
    forall n | n in ClaimNames(j.entries.Keys)
      ensures GetText(j, owner, n.run).Ok? <==> Get(m, owner, n.run).Ok?
    {
      GetTextIsGet(j, owner, n.run);
    }
    assert |j.entries| == |j.entries.Keys| == |m.entries.Keys| == |m.entries|;
    hide GetText, Get, MeaningOf, List, ClaimNames, PrefixClosed;
  }

  // ------------------------------------------- every journal of times is written

  /** Every stamp in the record, and in the records it names, was a reading. */
  ghost predicate Written(r: Record) {
    match r
    case ClaimRecord(_, _, _, at) => StampedAt(at)
    case StartRecord(_, _, admission, at) => Written(admission.record) && StampedAt(at)
    case StopRecord(_, _, admission, start, _, at) =>
      Written(admission.record) && Written(start.record) && StampedAt(at)
  }

  ghost predicate StampedAt(at: Option<Time>) {
    at.Some? && at.value != ZERO_TIME && Reading(at.value)
  }

  /** The text record that was written. */
  ghost function TextOf(r: Record): (t: TextRecord)
    requires Written(r)
    ensures Meaning(t) == r
  {
    match r
    case ClaimRecord(version, owner, spec, at) => ClaimText(version, owner, spec, StampOf(at.value))
    case StartRecord(version, run, admission, at) =>
      StartText(version, run, TextDigest(TextOf(admission.record)), StampOf(at.value))
    case StopRecord(version, run, admission, start, outcome, at) =>
      StopText(version, run, TextDigest(TextOf(admission.record)), TextDigest(TextOf(start.record)), outcome,
          StampOf(at.value))
  }

  ghost predicate AllWritten(j: Journal) {
    forall n :: n in j.entries ==> Written(j.entries[n])
  }

  ghost function TextOfJournal(j: Journal): (t: TextJournal)
    requires AllWritten(j)
    ensures MeaningOf(t) == j
  {
    var t := Directory(map n | n in j.entries :: TextOf(j.entries[n]), j.durable, j.pending);
    assert MeaningOf(t).entries == j.entries;
    t
  }

  /** Every clock reading of a step is one. */
  ghost predicate Clocked(step: F.Step) {
    match step
    case ClaimRun(_, now, _) => Reading(now)
    case Authorize(_, _, at) => Reading(at)
    case StopRun(_, _, _, _, now, _) => Reading(now)
    case RecoverRun(_, now, _) => Reading(now)
    case _ => true
  }

  ghost predicate CallsClocked(s: F.State) {
    forall c :: c in s.calls && s.calls[c].authorizedAt.Some? ==> Reading(s.calls[c].authorizedAt.value)
  }

  lemma WrittenStep(s: F.State, step: F.Step)
    requires s.journal.Valid() && AllWritten(s.journal) && CallsClocked(s) && Clocked(step)
    ensures AllWritten(F.Apply(s, step).journal) && CallsClocked(F.Apply(s, step))
  {
    match step
    case ClaimRun(spec, now, fault) => WrittenClaim(s.journal, s.owner, spec, now, fault);
    case Commit(call, fault) =>
      if call in s.calls && s.calls[call].authorizedAt.Some? {
        var c := s.calls[call];
        WrittenCommit(s.journal, s.owner, c.observed, c.expected, c.authorizedAt.value, fault);
      }
    case StopRun(run, expected, start, outcome, now, fault) =>
      WrittenStop(s.journal, s.owner, run, expected, start, outcome, now, fault);
    case RecoverRun(run, now, fault) => WrittenRecover(s.journal, s.owner, run, now, fault);
    case _ =>
  }

  lemma WrittenClaim(j: Journal, owner: Owner, spec: Spec, now: Time, fault: Fault)
    requires j.Valid() && AllWritten(j) && Reading(now)
    ensures AllWritten(ClaimSection(j, owner, spec, now, fault).0)
  {
    hide Get, List;
    assert ClaimAnswer(j, owner, spec, now).None? ==> Written(ClaimRecord(1, owner, spec, Some(now)));
  }

  lemma WrittenCommit(j: Journal, owner: Owner, observed: View, expected: Digest, at: Time, fault: Fault)
    requires j.Valid() && AllWritten(j) && Reading(at)
    ensures AllWritten(StartCommitSection(j, owner, observed, expected, at, fault).0)
  {
    hide Get;
    var run := observed.spec.run;
    if Name(run, Claimed) in j.entries && expected == Digest(j.entries[Name(run, Claimed)]) && at != ZERO_TIME {
      assert Written(StartRecord(2, run, expected, Some(at)));
    }
  }

  lemma WrittenStop(j: Journal, owner: Owner, run: Id, expected: Digest, start: Digest, outcome: Outcome, now: Time,
      fault: Fault)
    requires j.Valid() && AllWritten(j) && Reading(now)
    ensures AllWritten(StopSection(j, owner, run, expected, start, outcome, now, fault).0)
  {
    var (claim, starting) := (Name(run, Claimed), Name(run, Starting));
    if now != ZERO_TIME && claim in j.entries && starting in j.entries
       && expected == Digest(j.entries[claim]) && start == Digest(j.entries[starting]) {
      StopWritten(j, run, expected, start, outcome, now);
    }
    hide Get, Written;
  }

  lemma StopWritten(j: Journal, run: Id, expected: Digest, start: Digest, outcome: Outcome, now: Time)
    requires AllWritten(j) && Reading(now) && now != ZERO_TIME
    requires Name(run, Claimed) in j.entries && expected == Digest(j.entries[Name(run, Claimed)])
    requires Name(run, Starting) in j.entries && start == Digest(j.entries[Name(run, Starting)])
    ensures Written(StopRecord(3, run, expected, start, outcome, Some(now)))
  {
    assert Written(j.entries[Name(run, Claimed)]) && Written(j.entries[Name(run, Starting)]);
  }

  lemma WrittenRecover(j: Journal, owner: Owner, run: Id, now: Time, fault: Fault)
    requires j.Valid() && AllWritten(j) && Reading(now)
    ensures AllWritten(F.RecoverRunSection(j, owner, run, now, fault))
  {
    var view := Get(j, owner, run);
    if view.Ok? && view.value.state == Starting && now != ZERO_TIME {
      assert view.value.spec.run == run;
      StopWritten(j, run, view.value.admission, view.value.start.value, OutcomeUnknown, now);
    }
    hide Get, Written;
  }

  lemma {:induction false} WrittenRun(owner: Owner, steps: seq<F.Step>)
    requires forall k :: 0 <= k < |steps| ==> Clocked(steps[k])
    ensures AllWritten(F.Run(F.Init(owner), steps).journal) && CallsClocked(F.Run(F.Init(owner), steps))
    decreases |steps|
  {
    if steps != [] {
      WrittenRun(owner, steps[..|steps| - 1]);
      WrittenStep(F.Run(F.Init(owner), steps[..|steps| - 1]), steps[|steps| - 1]);
    }
  }

  // --------------------------------------------------------------- main result

  /** With nondecreasing clock readings, no severing write and at most 16 leftover
      temporary files, the directory of texts that any run leaves is accepted by
      `list` and, run by run, by `get`, whatever crashes keep. */
  lemma StoreAcceptsItsOwnTexts(owner: Owner, steps: seq<F.Step>)
    requires forall k :: 0 <= k < |steps| ==> Clocked(steps[k])
    requires F.NondecreasingClock(steps) && F.NothingSevered(F.Init(owner), steps)
    requires F.Run(F.Init(owner), steps).journal.pending <= MAX_LEFTOVERS
    ensures AllWritten(F.Run(F.Init(owner), steps).journal)
    ensures var j := TextOfJournal(F.Run(F.Init(owner), steps).journal);
            && ListText(j, owner)
            && forall n :: n in ClaimNames(j.entries.Keys) ==> GetText(j, owner, n.run).Ok?
  {
    WrittenRun(owner, steps);
    F.StoreAcceptsItsOwnDirectories(owner, steps);
    hide F.Run, List, TextOfJournal;
    ListTextIsList(TextOfJournal(F.Run(F.Init(owner), steps).journal), owner);
  }
}
