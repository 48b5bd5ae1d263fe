/**
 The browser's projections of a run's event log: activities and live output.
 Records arrive in batches with gaps, repeats and in any order; each projection
 is the plain fold over a prefix of the log.
 */
module RunProjection {
  import opened Wrappers

  const KEPT := 20_000

  type Text = seq<char>

  datatype Kind = Reasoning | Tool

  datatype Phase = Started | Updated | Completed | FailedPhase

  datatype Event =
    | Status(terminal: bool)
    | Activity(id: nat, kind: Kind, phase: Phase, tag: Option<Text>, content: Option<Text>, reset: bool)
    | Output(text: Text, restart: bool)
    | Reply

  datatype Record = Record(sequence: nat, event: Event)

  // --------------------------------------------------------------- batches

  predicate Ordered(records: seq<Record>) {
    forall i, k :: 0 <= i < k < |records| ==> records[i].sequence <= records[k].sequence
  }

  function Insert(r: Record, ordered: seq<Record>): (s: seq<Record>)
    requires Ordered(ordered)
    ensures |s| == |ordered| + 1 && forall x :: x in s <==> x == r || x in ordered
  {
    if ordered == [] || r.sequence <= ordered[0].sequence then [r] + ordered
    else [ordered[0]] + Insert(r, ordered[1..])
  }

  lemma {:induction false} InsertKeepsOrder(r: Record, ordered: seq<Record>)
    requires Ordered(ordered)
    ensures Ordered(Insert(r, ordered))
  {
    if ordered != [] && r.sequence > ordered[0].sequence {
      InsertKeepsOrder(r, ordered[1..]);
      var rest := Insert(r, ordered[1..]);
      forall x | x in rest ensures ordered[0].sequence <= x.sequence {
        assert x == r || x in ordered;
      }
      forall i | 0 <= i < |rest| ensures ordered[0].sequence <= rest[i].sequence {
        assert rest[i] in rest;
      }
    }
  }

  /** The stable sort by sequence. */
  function Sort(records: seq<Record>): (s: seq<Record>)
    ensures Ordered(s) && |s| == |records| && forall x :: x in s <==> x in records
  {
    if records == [] then []
    else
      InsertKeepsOrder(records[0], Sort(records[1..]));
      assert records == [records[0]] + records[1..];
      Insert(records[0], Sort(records[1..]))
  }

  /** Take the next records in order: skip old ones, stop at a gap. */
  function Consume<P>(step: (P, nat, Event) -> P, sequence: nat, p: P, ordered: seq<Record>): (r: (nat, P))
    decreases |ordered|
  {
    if ordered == [] then (sequence, p)
    else if ordered[0].sequence <= sequence then Consume(step, sequence, p, ordered[1..])
    else if ordered[0].sequence != sequence + 1 then (sequence, p)
    else Consume(step, sequence + 1, step(p, sequence + 1, ordered[0].event), ordered[1..])
  }

  /** The plain fold; event number n stands at index n - 1. */
  function Fold<P>(step: (P, nat, Event) -> P, start: P, log: seq<Event>): (p: P) {
    if log == [] then start else step(Fold(step, start, log[..|log| - 1]), |log|, log[|log| - 1])
  }

  predicate FromLog(log: seq<Event>, records: seq<Record>) {
    forall r :: r in records ==> 1 <= r.sequence <= |log| && r.event == log[r.sequence - 1]
  }

  predicate Holds(records: seq<Record>, n: nat) {
    exists i :: 0 <= i < |records| && records[i].sequence == n
  }

  /** `m` is as far as one can get from `n` without a gap. */
  predicate FarthestFrom(records: seq<Record>, n: nat, m: nat) {
    && n <= m && !Holds(records, m + 1)
    && forall k :: n < k <= m ==> Holds(records, k)
  }

  lemma HoldsRest(ordered: seq<Record>, k: nat)
    requires ordered != []
    ensures Holds(ordered, k) <==> k == ordered[0].sequence || Holds(ordered[1..], k)
  {
    var rest := ordered[1..];
    if Holds(rest, k) {
      var i :| 0 <= i < |rest| && rest[i].sequence == k;
      assert ordered[i + 1] == rest[i];
    }
    if Holds(ordered, k) && k != ordered[0].sequence {
      var i :| 0 <= i < |ordered| && ordered[i].sequence == k;
      assert rest[i - 1] == ordered[i];
    }
  }

  lemma {:induction false} ConsumeIsFold<P>(step: (P, nat, Event) -> P, start: P, log: seq<Event>, n: nat,
      ordered: seq<Record>)
    requires Ordered(ordered) && FromLog(log, ordered) && n <= |log|
    ensures var (m, p) := Consume(step, n, Fold(step, start, log[..n]), ordered);
            m <= |log| && p == Fold(step, start, log[..m]) && FarthestFrom(ordered, n, m)
    decreases |ordered|
  {
    if ordered != [] {
      var (first, rest) := (ordered[0].sequence, ordered[1..]);
      forall k ensures Holds(ordered, k) <==> k == first || Holds(rest, k) {
        HoldsRest(ordered, k);
      }
      hide Holds;
      if first <= n {
        ConsumeIsFold(step, start, log, n, rest);
      } else if first == n + 1 {
        assert log[..n + 1][..n] == log[..n];
        ConsumeIsFold(step, start, log, n + 1, rest);
      } else {
        GapAtOnce(ordered, n);
      }
    }
  }

  lemma GapAtOnce(ordered: seq<Record>, n: nat)
    requires Ordered(ordered) && ordered != [] && ordered[0].sequence > n + 1
    ensures !Holds(ordered, n + 1)
  {
  }

  lemma SortedBatch(log: seq<Event>, records: seq<Record>, n: nat, m: nat)
    requires FromLog(log, records)
    ensures FromLog(log, Sort(records))
    ensures FarthestFrom(Sort(records), n, m) ==> FarthestFrom(records, n, m)
  {
    var ordered := Sort(records);
    forall k ensures Holds(ordered, k) <==> Holds(records, k) {
      SameNumbers(ordered, records, k);
      SameNumbers(records, ordered, k);
    }
    hide Holds, Sort;
  }

  lemma SameNumbers(a: seq<Record>, b: seq<Record>, k: nat)
    requires forall x :: x in a ==> x in b
    ensures Holds(a, k) ==> Holds(b, k)
  {
    if Holds(a, k) {
      var i :| 0 <= i < |a| && a[i].sequence == k;
      assert a[i] in b;
      var j :| 0 <= j < |b| && b[j] == a[i];
    }
  }

  /** The projection after a series of batches. */
  function AfterBatches<P>(step: (P, nat, Event) -> P, start: P, batches: seq<seq<Record>>): (r: (nat, P)) {
    if batches == [] then (0, start)
    else
      var (n, p) := AfterBatches(step, start, batches[..|batches| - 1]);
      Consume(step, n, p, Sort(batches[|batches| - 1]))
  }

  /** Whatever the batches, a projection is the fold over the first `sequence`
      events, and each batch takes it as far as it can go without a gap. */
  lemma {:induction false} BatchesFoldThePrefix<P>(step: (P, nat, Event) -> P, start: P, log: seq<Event>,
      batches: seq<seq<Record>>)
    requires forall i :: 0 <= i < |batches| ==> FromLog(log, batches[i])
    ensures var (n, p) := AfterBatches(step, start, batches);
            n <= |log| && p == Fold(step, start, log[..n])
    ensures batches != [] ==>
              FarthestFrom(batches[|batches| - 1], AfterBatches(step, start, batches[..|batches| - 1]).0,
                           AfterBatches(step, start, batches).0)
  {
    if batches == [] {
      assert log[..0] == [];
    } else {
      var last := batches[|batches| - 1];
      BatchesFoldThePrefix(step, start, log, batches[..|batches| - 1]);
      var (n, p) := AfterBatches(step, start, batches[..|batches| - 1]);
      SortedBatch(log, last, n, AfterBatches(step, start, batches).0);
      ConsumeIsFold(step, start, log, n, Sort(last));
    }
  }

  // -------------------------------------------------------------- activities

  datatype Item = Item(id: nat, kind: Kind, phase: Phase, tag: Option<Text>, content: Text, sequence: nat)

  datatype Activities = Activities(items: seq<Item>, sealed: bool)

  const NO_ACTIVITIES := Activities([], false)

  predicate Ends(e: Event) {
    e.Reply? || (e.Status? && e.terminal)
  }

  function Index(items: seq<Item>, id: nat): (i: nat)
    ensures i <= |items| && (i < |items| ==> items[i].id == id)
    ensures forall k :: 0 <= k < i ==> items[k].id != id
  {
    if items == [] then 0 else if items[0].id == id then 0 else 1 + Index(items[1..], id)
  }

  function Last(text: Text): (r: Text) {
    if |text| <= KEPT then text else text[|text| - KEPT..]
  }

  /** A given label replaces the old one; an empty one removes it. */
  function NextTag(before: Option<Text>, given: Option<Text>): (r: Option<Text>) {
    match given case None => before case Some(text) => if text == [] then None else given
  }

  function NextContent(content: Text, e: Event): (r: Text)
    requires e.Activity?
  {
    match e.content
    case None => content
    case Some(more) => if e.reset then more else Last(content + more)
  }

  function NextItem(existing: Option<Item>, n: nat, e: Event): (item: Item)
    requires e.Activity?
  {
    var (tag, content) := match existing case None => (None, "") case Some(item) => (item.tag, item.content);
    Item(e.id, e.kind, e.phase, NextTag(tag, e.tag), NextContent(content, e), n)
  }

  function StepActivities(p: Activities, n: nat, e: Event): (q: Activities) {
    if e.Activity? then
      var i := Index(p.items, e.id);
      p.(items := if i < |p.items| then p.items[i := NextItem(Some(p.items[i]), n, e)]
                  else p.items + [NextItem(None, n, e)])
    else if Ends(e) then p.(sealed := true)
    else p
  }

  method FindIndex(items: seq<Item>, id: nat) returns (i: nat)
    ensures i == Index(items, id)
  {
    i := 0;
    while i < |items|
      invariant i <= |items| && Index(items, id) == i + Index(items[i..], id)
    {
      if items[i].id == id {
        return;
      }
      assert items[i..][1..] == items[i + 1..];
      i := i + 1;
    }
  }

  /** `reduceRunActivities`. */
  method ReduceRunActivities(current: Option<(nat, Activities)>, records: seq<Record>)
    returns (sequence: nat, p: Activities)
    ensures var (n, start) := match current case None => (0, NO_ACTIVITIES) case Some(c) => c;
            (sequence, p) == Consume(StepActivities, n, start, Sort(records))
  {
    sequence, p := 0, NO_ACTIVITIES;
    if current.Some? {
      sequence, p := current.value.0, current.value.1;
    }
    var ordered := Sort(records);
    ghost var answer := Consume(StepActivities, sequence, p, ordered);
    for k := 0 to |ordered|
      invariant answer == Consume(StepActivities, sequence, p, ordered[k..])
    {
      var record := ordered[k];
      assert ordered[k..][1..] == ordered[k + 1..];
      if record.sequence <= sequence {
        continue;
      }
      if record.sequence != sequence + 1 {
        return;
      }
      sequence := record.sequence;
      if record.event.Activity? {
        var i := FindIndex(p.items, record.event.id);
        if i < |p.items| {
          p := p.(items := p.items[i := NextItem(Some(p.items[i]), sequence, record.event)]);
        } else {
          p := p.(items := p.items + [NextItem(None, sequence, record.event)]);
        }
      } else if Ends(record.event) {
        p := p.(sealed := true);
      }
    }
  }

  // ------------------------------------------- what the activity fold contains

  /** The ids in the order in which they first appear. */
  function FirstAppearances(log: seq<Event>): (ids: seq<nat>) {
    if log == [] then []
    else
      var (ids, e) := (FirstAppearances(log[..|log| - 1]), log[|log| - 1]);
      if e.Activity? && e.id !in ids then ids + [e.id] else ids
  }

  /** Everything that was said for `id` since its last reset. */
  function Since(log: seq<Event>, id: nat): (text: Text) {
    if log == [] then ""
    else
      var (text, e) := (Since(log[..|log| - 1], id), log[|log| - 1]);
      if e.Activity? && e.id == id && e.content.Some? then (if e.reset then e.content.value else text + e.content.value)
      else text
  }

  /** Something was appended for `id` after its last reset. */
  predicate Appended(log: seq<Event>, id: nat) {
    log != [] &&
    var e := log[|log| - 1];
    if e.Activity? && e.id == id && e.content.Some? then !e.reset else Appended(log[..|log| - 1], id)
  }

  /** The last event for `id`, counted from one; 0 when there is none. */
  function LastOf(log: seq<Event>, id: nat): (n: nat)
    ensures n <= |log| && (n > 0 ==> log[n - 1].Activity? && log[n - 1].id == id)
  {
    if log == [] then 0
    else if log[|log| - 1].Activity? && log[|log| - 1].id == id then |log|
    else LastOf(log[..|log| - 1], id)
  }

  /** The last label given for `id`, unless it was empty. */
  function TagOf(log: seq<Event>, id: nat): (tag: Option<Text>) {
    if log == [] then None
    else
      var e := log[|log| - 1];
      if e.Activity? && e.id == id && e.tag.Some? then (if e.tag.value == [] then None else e.tag)
      else TagOf(log[..|log| - 1], id)
  }

  predicate ItemFits(log: seq<Event>, item: Item) {
    var n := LastOf(log, item.id);
    && n > 0 && item.sequence == n && item.kind == log[n - 1].kind && item.phase == log[n - 1].phase
    && item.tag == TagOf(log, item.id)
    && item.content == (if Appended(log, item.id) then Last(Since(log, item.id)) else Since(log, item.id))
  }

  predicate ItemsFit(log: seq<Event>, items: seq<Item>) {
    && |items| == |FirstAppearances(log)|
    && (forall i :: 0 <= i < |items| ==> items[i].id == FirstAppearances(log)[i] && ItemFits(log, items[i]))
    && (forall i, k :: 0 <= i < k < |items| ==> items[i].id != items[k].id)
  }

  predicate ActivitiesFit(log: seq<Event>, p: Activities) {
    && ItemsFit(log, p.items)
    && (p.sealed <==> exists i :: 0 <= i < |log| && Ends(log[i]))
  }

  /** Cutting twice is cutting once. */
  lemma LastOfLast(a: Text, b: Text)
    ensures Last(Last(a) + b) == Last(a + b)
  {
  }

  /** An item of another id is not touched by an event. */
  lemma {:induction false} OtherItem(log: seq<Event>, e: Event, item: Item)
    requires ItemFits(log, item) && !(e.Activity? && e.id == item.id)
    ensures ItemFits(log + [e], item)
  {
    assert (log + [e])[..|log|] == log;
  }

  lemma {:induction false} NewItem(log: seq<Event>, e: Event)
    requires e.Activity? && LastOf(log, e.id) == 0
    ensures ItemFits(log + [e], NextItem(None, |log| + 1, e))
  {
    NothingYet(log, e.id);
    AfterEvent(log, e);
    hide LastOf, Appended, Since, TagOf;
    assert NextItem(None, |log| + 1, e).content == NextContent("", e);
  }

  /** One more event for its own id. */
  lemma {:induction false} AfterEvent(log: seq<Event>, e: Event)
    requires e.Activity?
    ensures LastOf(log + [e], e.id) == |log| + 1
    ensures Appended(log + [e], e.id) <==> if e.content.Some? then !e.reset else Appended(log, e.id)
    ensures Since(log + [e], e.id) ==
            if e.content.None? then Since(log, e.id) else if e.reset then e.content.value
              else Since(log, e.id) + e.content.value
    ensures TagOf(log + [e], e.id) == NextTag(TagOf(log, e.id), e.tag)
  {
    assert (log + [e])[..|log|] == log;
  }

  lemma {:induction false} NothingYet(log: seq<Event>, id: nat)
    requires LastOf(log, id) == 0
    ensures Since(log, id) == "" && !Appended(log, id) && TagOf(log, id) == None
    ensures id !in FirstAppearances(log)
  {
    if log != [] {
      NothingYet(log[..|log| - 1], id);
    }
  }

  lemma {:induction false} SomethingYet(log: seq<Event>, id: nat)
    requires LastOf(log, id) > 0
    ensures id in FirstAppearances(log)
  {
    if LastOf(log, id) < |log| {
      SomethingYet(log[..|log| - 1], id);
    }
  }

  lemma {:induction false} ChangedItem(log: seq<Event>, e: Event, item: Item)
    requires ItemFits(log, item) && e.Activity? && e.id == item.id
    ensures ItemFits(log + [e], NextItem(Some(item), |log| + 1, e))
  {
    AfterEvent(log, e);
    hide LastOf, Appended, Since, TagOf;
    if e.content.Some? && Appended(log, item.id) {
      LastOfLast(Since(log, item.id), e.content.value);
    }
  }

  lemma {:induction false} EndsGrow(log: seq<Event>, e: Event)
    ensures (exists i :: 0 <= i < |log + [e]| && Ends((log + [e])[i])) <==>
            Ends(e) || exists i :: 0 <= i < |log| && Ends(log[i])
  {
    var all := log + [e];
    assert all[|log|] == e;
    assert forall i :: 0 <= i < |log| ==> all[i] == log[i];
  }

  lemma {:induction false} KnownItem(log: seq<Event>, items: seq<Item>, e: Event, n: nat)
    requires ItemsFit(log, items) && e.Activity? && n < |items| && items[n].id == e.id
    ensures ItemsFit(log + [e], items[n := NextItem(Some(items[n]), |log| + 1, e)])
  {
    var all, next := log + [e], items[n := NextItem(Some(items[n]), |log| + 1, e)];
    assert all[..|log|] == log;
    assert e.id in FirstAppearances(log);
    ChangedItem(log, e, items[n]);
    forall i | 0 <= i < |items| && i != n ensures ItemFits(all, next[i]) {
      assert items[i].id != items[n].id;
      OtherItem(log, e, items[i]);
    }
    hide ItemFits;
  }

  lemma {:induction false} UnknownItem(log: seq<Event>, items: seq<Item>, e: Event)
    requires ItemsFit(log, items) && e.Activity? && (forall i :: 0 <= i < |items| ==> items[i].id != e.id)
    ensures ItemsFit(log + [e], items + [NextItem(None, |log| + 1, e)])
  {
    var all, next := log + [e], items + [NextItem(None, |log| + 1, e)];
    assert all[..|log|] == log;
    Absent(log, items, e.id);
    NothingYet(log, e.id);
    NewItem(log, e);
    forall i | 0 <= i < |items| ensures ItemFits(all, next[i]) {
      OtherItem(log, e, items[i]);
    }
    hide ItemFits;
  }

  lemma {:induction false} Absent(log: seq<Event>, items: seq<Item>, id: nat)
    requires ItemsFit(log, items) && (forall i :: 0 <= i < |items| ==> items[i].id != id)
    ensures LastOf(log, id) == 0
  {
    if LastOf(log, id) > 0 {
      SomethingYet(log, id);
    }
  }

  lemma {:induction false} OtherEvent(log: seq<Event>, items: seq<Item>, e: Event)
    requires ItemsFit(log, items) && !e.Activity?
    ensures ItemsFit(log + [e], items)
  {
    assert (log + [e])[..|log|] == log;
    forall i | 0 <= i < |items| ensures ItemFits(log + [e], items[i]) {
      OtherItem(log, e, items[i]);
    }
    hide ItemFits;
  }

  lemma {:induction false} StepFits(log: seq<Event>, p: Activities, e: Event)
    requires ActivitiesFit(log, p)
    ensures ActivitiesFit(log + [e], StepActivities(p, |log| + 1, e))
  {
    EndsGrow(log, e);
    hide ItemsFit, NextItem;
    if e.Activity? {
      var n := Index(p.items, e.id);
      if n < |p.items| {
        KnownItem(log, p.items, e, n);
      } else {
        UnknownItem(log, p.items, e);
      }
    } else {
      OtherEvent(log, p.items, e);
    }
  }

  /** Items are unique by id in first-appearance order, carry the last event's
      kind and phase and the last given label, and their content is what was said
      since the last reset, cut to its last 20000 units once something was
      appended. */
  lemma {:induction false} ActivitiesAreExact(log: seq<Event>)
    ensures ActivitiesFit(log, Fold(StepActivities, NO_ACTIVITIES, log))
  {
    if log != [] {
      var before := log[..|log| - 1];
      ActivitiesAreExact(before);
      StepFits(before, Fold(StepActivities, NO_ACTIVITIES, before), log[|log| - 1]);
      assert before + [log[|log| - 1]] == log;
    }
  }

  // ------------------------------------------------------------------ output

  datatype Live = Live(content: Text, sealed: bool)

  const NO_OUTPUT := Live("", false)

  function StepOutput(p: Live, n: nat, e: Event): (q: Live) {
    if p.sealed then p
    else if e.Output? then p.(content := if e.restart then e.text else p.content + e.text)
    else if Ends(e) then Live("", true)
    else p
  }

  /** `reduceRunOutput`. */
  method ReduceRunOutput(current: Option<(nat, Live)>, records: seq<Record>) returns (sequence: nat, p: Live)
    ensures var (n, start) := match current case None => (0, NO_OUTPUT) case Some(c) => c;
            (sequence, p) == Consume(StepOutput, n, start, Sort(records))
  {
    sequence, p := 0, NO_OUTPUT;
    if current.Some? {
      sequence, p := current.value.0, current.value.1;
    }
    var ordered := Sort(records);
    ghost var answer := Consume(StepOutput, sequence, p, ordered);
    for k := 0 to |ordered|
      invariant answer == Consume(StepOutput, sequence, p, ordered[k..])
    {
      var record := ordered[k];
      assert ordered[k..][1..] == ordered[k + 1..];
      if record.sequence <= sequence {
        continue;
      }
      if record.sequence != sequence + 1 {
        return;
      }
      sequence := record.sequence;
      if p.sealed {
        continue;
      }
      if record.event.Output? {
        p := p.(content := if record.event.restart then record.event.text else p.content + record.event.text);
      } else if Ends(record.event) {
        p := Live("", true);
      }
    }
  }

  /** All output since the last restart. */
  function Spoken(log: seq<Event>): (text: Text) {
    if log == [] then ""
    else
      var (text, e) := (Spoken(log[..|log| - 1]), log[|log| - 1]);
      if e.Output? then (if e.restart then e.text else text + e.text) else text
  }

  /** Live output is everything spoken until the run ends, and then nothing for
      good. */
  lemma {:induction false} OutputIsExact(log: seq<Event>)
    ensures var p := Fold(StepOutput, NO_OUTPUT, log);
            && (p.sealed <==> exists i :: 0 <= i < |log| && Ends(log[i]))
            && p.content == if p.sealed then "" else Spoken(log)
  {
    if log != [] {
      OutputIsExact(log[..|log| - 1]);
      assert forall i :: 0 <= i < |log| - 1 ==> log[i] == log[..|log| - 1][i];
      assert forall i :: 0 <= i < |log| && Ends(log[i]) ==> i == |log| - 1 || Ends(log[..|log| - 1][i]);
    }
  }

  /** Both projections after any batches of one log. */
  lemma ProjectionsAreExact(log: seq<Event>, batches: seq<seq<Record>>)
    requires forall i :: 0 <= i < |batches| ==> FromLog(log, batches[i])
    ensures var (n, p) := AfterBatches(StepActivities, NO_ACTIVITIES, batches);
            n <= |log| && ActivitiesFit(log[..n], p)
    ensures var (n, p) := AfterBatches(StepOutput, NO_OUTPUT, batches);
            && n <= |log| && (p.sealed <==> exists i :: 0 <= i < n && Ends(log[i]))
            && p.content == if p.sealed then "" else Spoken(log[..n])
  {
    BatchesFoldThePrefix(StepActivities, NO_ACTIVITIES, log, batches);
    BatchesFoldThePrefix(StepOutput, NO_OUTPUT, log, batches);
    ActivitiesAreExact(log[..AfterBatches(StepActivities, NO_ACTIVITIES, batches).0]);
    var (n, p) := AfterBatches(StepOutput, NO_OUTPUT, batches);
    OutputIsExact(log[..n]);
    hide AfterBatches, Fold, Spoken;
    assert forall i :: 0 <= i < n ==> log[..n][i] == log[i];
  }
}
