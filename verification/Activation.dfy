/**
 The desktop activation queue: at most one pending intent, one scheduled drain.

 A step is one section under the queue's mutex together with what follows it on
 the same thread: handing the drain to the dispatcher, or beginning a delivery.
 Deliveries begin on the UI thread, so in the order of their drains.  An accept
 from inside a delivery is an accept step after that drain.
 */
module Activation {
  import opened Wrappers

  type Link = nat

  /** `outstanding` counts drains handed to the dispatcher that have not run;
      `intents` the links acknowledged as new intents (an exact duplicate of the
      pending link coalesces with it); `delivered` all deliveries. */
  datatype State = State(
    pending: bool, link: Option<Link>, scheduled: bool, closed: bool, ready: bool,
    outstanding: nat, intents: seq<Link>, delivered: seq<Option<Link>>)

  /** What a launch turns out to be. */
  datatype Launch = Invalid | Wake | Pairing(link: Link)

  datatype Step = Accept(launch: Launch) | Ready | Drain | Close

  const INIT := State(false, None, false, false, false, 0, [], [])

  function Schedule(s: State): (t: State) {
    if !s.ready || !s.pending || s.scheduled then s else s.(scheduled := true, outstanding := s.outstanding + 1)
  }

  function ApplyAccept(s: State, launch: Launch): (r: (State, bool)) {
    if launch.Invalid? || s.closed then (s, false)
    else if launch.Pairing? && s.link.Some? && s.link.value != launch.link then (s, false)
    else if launch.Wake? then (Schedule(s.(pending := true)), true)
    else
      (Schedule(s.(pending := true, link := Some(launch.link),
                   intents := if s.link.None? then s.intents + [launch.link] else s.intents)), true)
  }

  function Apply(s: State, step: Step): (t: State) {
    match step
    case Accept(launch) => ApplyAccept(s, launch).0
    case Ready => if s.closed || s.ready then s else Schedule(s.(ready := true))
    case Drain =>
      if s.outstanding == 0 then s
      else
        var t := s.(scheduled := false, outstanding := s.outstanding - 1);
        if s.closed || !s.pending then t
        else t.(link := None, pending := false, delivered := s.delivered + [s.link])
    case Close => s.(closed := true, pending := false, link := None, ready := false)
  }

  function Run(steps: seq<Step>): (s: State)
    decreases |steps|
  {
    if steps == [] then INIT else Apply(Run(steps[..|steps| - 1]), steps[|steps| - 1])
  }

  // --------------------------------------------------------------- invariant

  /** The links among the deliveries. */
  function Links(delivered: seq<Option<Link>>): (r: seq<Link>) {
    if delivered == [] then []
    else
      var (front, last) := (Links(delivered[..|delivered| - 1]), delivered[|delivered| - 1]);
      if last.Some? then front + [last.value] else front
  }

  function Waiting(link: Option<Link>): (r: seq<Link>) {
    if link.Some? then [link.value] else []
  }

  ghost predicate Inv(s: State) {
    && s.outstanding == (if s.scheduled then 1 else 0)
    && (!s.closed && s.pending && s.ready ==> s.scheduled)
    && (s.link.Some? ==> s.pending)
    && (s.closed ==> !s.pending && !s.ready)
    && Links(s.delivered) + Waiting(s.link) <= s.intents
    && (!s.closed ==> Links(s.delivered) + Waiting(s.link) == s.intents)
  }

  lemma LinksMore(delivered: seq<Option<Link>>, link: Option<Link>)
    ensures Links(delivered + [link]) == Links(delivered) + Waiting(link)
  {
    assert (delivered + [link])[..|delivered|] == delivered;
  }

  lemma StepKeeps(s: State, step: Step)
    requires Inv(s)
    ensures Inv(Apply(s, step))
  {
    LinksMore(s.delivered, s.link);
    hide Links;
  }

  lemma {:induction false} RunKeeps(steps: seq<Step>)
    ensures Inv(Run(steps))
    decreases |steps|
  {
    if steps != [] {
      RunKeeps(steps[..|steps| - 1]);
      StepKeeps(Run(steps[..|steps| - 1]), steps[|steps| - 1]);
    }
  }

  // -------------------------------------------------------------- main results

  /** No lost wake-up: before close, a pending intent with a ready receiver has
      exactly one outstanding drain; there never is a second one. */
  lemma ExactlyOneDrain(steps: seq<Step>)
    ensures var s := Run(steps);
            && s.outstanding <= 1
            && (!s.closed && s.ready && s.pending ==> s.outstanding == 1)
  {
    RunKeeps(steps);
  }

  /** Acknowledged links are delivered at most once, in the order in which they
      were acknowledged; before close each one is delivered or still waiting. */
  lemma DeliveredInOrder(steps: seq<Step>)
    ensures var s := Run(steps);
            && Links(s.delivered) <= s.intents
            && (!s.closed ==> Links(s.delivered) + Waiting(s.link) == s.intents)
  {
    RunKeeps(steps);
  }

  /** When all drains have run nothing is pending and every intent was delivered. */
  lemma DrainedMeansDelivered(steps: seq<Step>)
    requires var s := Run(steps); s.outstanding == 0 && s.ready && !s.closed
    ensures var s := Run(steps); !s.pending && s.link.None? && Links(s.delivered) == s.intents
  {
    RunKeeps(steps);
  }

  /** An acknowledged link stays the waiting one until a drain delivers it or the
      queue closes: neither another link nor a plain wake replaces it. */
  lemma NeverReplaced(steps: seq<Step>, step: Step)
    requires Run(steps).link.Some?
    ensures var (s, t) := (Run(steps), Apply(Run(steps), step));
            || t.link == s.link
            || t.closed
            || (step.Drain? && t.delivered == s.delivered + [s.link])
  {
    RunKeeps(steps);
  }

  /** Every acknowledged launch leads to a delivery that begins after it, by its
      own drain or by one that is already outstanding. */
  lemma AcknowledgedWillBeDelivered(steps: seq<Step>, launch: Launch)
    requires ApplyAccept(Run(steps), launch).1 && Run(steps).ready
    ensures var t := ApplyAccept(Run(steps), launch).0;
            && t.outstanding == 1
            && var after := Apply(t, Drain);
               after.delivered == t.delivered + [t.link] && (launch.Pairing? ==> t.link == Some(launch.link))
  {
    RunKeeps(steps);
  }

  // --------------------------------------------------------------- the object

  class DesktopActivation {
    var pending: bool
    var link: Option<Link>
    var scheduled: bool
    var closed: bool
    var receiver: bool
    ghost var outstanding: nat
    ghost var intents: seq<Link>
    var delivered: seq<Option<Link>>

    ghost function View(): (s: State)
      reads this
    {
      State(pending, link, scheduled, closed, receiver, outstanding, intents, delivered)
    }

    /** An ordinary background launch is not a wake; an invalid link leaves an
        empty queue that the caller drops. */
    constructor (initial: Option<Launch>)
      requires initial != Some(Wake)
      ensures View() == if initial.None? then INIT else ApplyAccept(INIT, initial.value).0
      ensures Inv(View())
    {
      pending, link, scheduled, closed, receiver := false, None, false, false, false;
      outstanding, intents, delivered := 0, [], [];
      new;
      if initial.Some? {
        var ok := Offer(initial.value);
      }
    }

    /** `accept`; a drain counts as outstanding once it was scheduled. */
    method Offer(launch: Launch) returns (ok: bool)
      requires Inv(View())
      modifies this
      ensures Inv(View()) && (View(), ok) == ApplyAccept(old(View()), launch)
    {
      StepKeeps(View(), Accept(launch));
      if launch.Invalid? || closed {
        return false;
      }
      if launch.Pairing? && link.Some? && link.value != launch.link {
        return false;
      }
      pending := true;
      if launch.Pairing? {
        if link.None? {
          intents := intents + [launch.link];
        }
        link := Some(launch.link);
      }
      ScheduleLocked();
      return true;
    }

    method BecomeReady()
      requires Inv(View())
      modifies this
      ensures Inv(View()) && View() == Apply(old(View()), Ready)
    {
      StepKeeps(View(), Ready);
      if closed || receiver {
        return;
      }
      receiver := true;
      ScheduleLocked();
    }

    method ScheduleLocked()
      modifies this`scheduled, this`outstanding
      ensures View() == Schedule(old(View()))
    {
      if !receiver || !pending || scheduled {
        return;
      }
      scheduled := true;
      outstanding := outstanding + 1;
    }

    method RunDrain()
      requires Inv(View()) && outstanding > 0
      modifies this
      ensures Inv(View()) && View() == Apply(old(View()), Drain)
    {
      StepKeeps(View(), Drain);
      scheduled := false;
      outstanding := outstanding - 1;
      if closed || !pending {
        return;
      }
      var next := link;
      link, pending := None, false;
      delivered := delivered + [next];
    }

    method Shut()
      requires Inv(View())
      modifies this
      ensures Inv(View()) && View() == Apply(old(View()), Close)
    {
      StepKeeps(View(), Close);
      closed, pending := true, false;
      link, receiver := None, false;
    }
  }
}
