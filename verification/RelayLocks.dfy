/**
 The relay's two kinds of lock, the server mutex and one write lock per control
 session: the order in which its procedures take them, and why no run of any
 number of such procedures can deadlock.
 */
module RelayLocks {
  datatype Lock = Mutex | Write(session: nat)

  datatype Op = Take(lock: Lock) | Free(lock: Lock)

  /** A procedure on its way: the locks it holds and its lock operations to come. */
  datatype Thread = Thread(held: set<Lock>, rest: seq<Op>)

  /** A write lock is taken with nothing held, the mutex is not taken twice, and
      everything is given back. */
  predicate Disciplined(held: set<Lock>, rest: seq<Op>)
    decreases |rest|
  {
    if rest == [] then held == {}
    else
      match rest[0]
      case Take(Mutex) => Mutex !in held && Disciplined(held + {Mutex}, rest[1..])
      case Take(Write(c)) => held == {} && Disciplined({Write(c)}, rest[1..])
      case Free(l) => l in held && Disciplined(held - {l}, rest[1..])
  }

  predicate CanStep(threads: seq<Thread>, i: nat)
    requires i < |threads|
  {
    && threads[i].rest != []
    && (threads[i].rest[0].Take? ==> forall k :: 0 <= k < |threads| ==> threads[i].rest[0].lock !in threads[k].held)
  }

  function Step(threads: seq<Thread>, i: nat): (t: seq<Thread>)
    requires i < |threads| && CanStep(threads, i)
  {
    var Thread(held, rest) := threads[i];
    threads[i := Thread(if rest[0].Take? then held + {rest[0].lock} else held - {rest[0].lock}, rest[1..])]
  }

  /** A run: at each turn some thread that can step does. */
  function Run(threads: seq<Thread>, turns: seq<nat>): (t: seq<Thread>)
    decreases |turns|
  {
    if turns == [] then threads
    else
      var s := Run(threads, turns[..|turns| - 1]);
      var i := turns[|turns| - 1];
      if i < |s| && CanStep(s, i) then Step(s, i) else s
  }

  ghost predicate Inv(threads: seq<Thread>) {
    && (forall i :: 0 <= i < |threads| ==> Disciplined(threads[i].held, threads[i].rest) && OneWrite(threads[i].held))
    && (forall i, k :: 0 <= i < k < |threads| ==> threads[i].held !! threads[k].held)
  }

  ghost predicate OneWrite(held: set<Lock>) {
    forall c, d :: Write(c) in held && Write(d) in held ==> c == d
  }

  lemma StepKeeps(threads: seq<Thread>, i: nat)
    requires Inv(threads) && i < |threads| && CanStep(threads, i)
    ensures Inv(Step(threads, i))
  {
    var t := Step(threads, i);
    var Thread(held, rest) := threads[i];
    assert Disciplined(held, rest) && OneWrite(held);
    assert t[i].rest == rest[1..];
    if rest[0].Take? && rest[0].lock.Write? {
      assert t[i].held == {rest[0].lock};
    }
    assert Disciplined(t[i].held, t[i].rest);
  }

  lemma {:induction false} RunKeeps(threads: seq<Thread>, turns: seq<nat>)
    requires Inv(threads)
    ensures Inv(Run(threads, turns))
    decreases |turns|
  {
    if turns != [] {
      RunKeeps(threads, turns[..|turns| - 1]);
      var s := Run(threads, turns[..|turns| - 1]);
      var i := turns[|turns| - 1];
      if i < |s| && CanStep(s, i) {
        StepKeeps(s, i);
      }
    }
  }

  /** Whoever holds the mutex is never waiting. */
  lemma MutexHolderSteps(threads: seq<Thread>, i: nat)
    requires Inv(threads) && i < |threads| && Mutex in threads[i].held
    ensures CanStep(threads, i)
  {
    assert Disciplined(threads[i].held, threads[i].rest);
    assert threads[i].rest != [] && threads[i].rest[0].Free?;
  }

  /** While the mutex is free, whoever holds a write lock is not waiting. */
  lemma WriteHolderSteps(threads: seq<Thread>, i: nat, c: nat)
    requires Inv(threads) && i < |threads| && Write(c) in threads[i].held
    requires forall k :: 0 <= k < |threads| ==> Mutex !in threads[k].held
    ensures CanStep(threads, i)
  {
    assert Disciplined(threads[i].held, threads[i].rest);
    assert threads[i].rest != [] && !(threads[i].rest[0].Take? && threads[i].rest[0].lock.Write?);
  }

  /** As long as a disciplined procedure is not done, some procedure can go on. */
  lemma NoDeadlock(programs: seq<seq<Op>>, turns: seq<nat>, waiting: nat)
    requires forall i :: 0 <= i < |programs| ==> Disciplined({}, programs[i])
    requires var s := Run(Started(programs), turns); waiting < |s| && s[waiting].rest != []
    ensures var s := Run(Started(programs), turns);
            exists i :: 0 <= i < |s| && CanStep(s, i)
  {
    var start := Started(programs);
    assert Inv(start);
    RunKeeps(start, turns);
    var s := Run(start, turns);
    if i :| 0 <= i < |s| && Mutex in s[i].held {
      MutexHolderSteps(s, i);
    } else if !CanStep(s, waiting) {
      var l := s[waiting].rest[0].lock;
      var i :| 0 <= i < |s| && l in s[i].held;
      assert l.Write?;
      WriteHolderSteps(s, i, l.session);
    }
  }

  function Started(programs: seq<seq<Op>>): (threads: seq<Thread>)
    ensures |threads| == |programs|
    ensures forall i :: 0 <= i < |threads| ==> threads[i] == Thread({}, programs[i])
  {
    seq(|programs|, i requires 0 <= i < |programs| => Thread({}, programs[i]))
  }

  // ------------------------------------------------------ the relay's programs

  /** One critical section. */
  const SECTION := [Take(Mutex), Free(Mutex)]

  function Sections(n: nat): (p: seq<Op>) {
    if n == 0 then [] else SECTION + Sections(n - 1)
  }

  /** `openStream`: the section, the start of the worker, the open frame, and on
      failure the stream's close. */
  function OpenStream(owned: bool, worker: bool, sent: bool, c: nat): (p: seq<Op>) {
    if !owned then SECTION
    else if !worker then Sections(3)
    else if sent then Sections(2) + [Take(Write(c)), Free(Write(c))]
    else Sections(2) + [Take(Write(c)), Free(Write(c))] + SECTION
  }

  /** `streamRequest`: the claim, then the attach or the stream's close. */
  function StreamRequest(claimed: bool): (p: seq<Op>) {
    if claimed then Sections(2) else SECTION
  }

  /** `controlSession`: the write lock is taken before the session is published
      and given back after the registered frame; then the close of the session
      and of the streams found. */
  function ControlSession(published: bool, c: nat, streams: nat): (p: seq<Op>) {
    if !published then [Take(Write(c)), Take(Mutex), Free(Mutex), Free(Write(c))]
    else [Take(Write(c)), Take(Mutex), Free(Mutex), Free(Write(c))] + Sections(1 + streams)
  }

  lemma {:induction false} SectionsDisciplined(n: nat, rest: seq<Op>)
    requires Disciplined({}, rest)
    ensures Disciplined({}, Sections(n) + rest)
  {
    if n == 0 {
      assert Sections(0) + rest == rest;
    } else {
      SectionsDisciplined(n - 1, rest);
      var tail := Sections(n - 1) + rest;
      assert Sections(n) + rest == SECTION + tail;
      InSection({}, tail);
    }
  }

  lemma InSection(held: set<Lock>, tail: seq<Op>)
    requires Mutex !in held && Disciplined(held, tail)
    ensures Disciplined(held, SECTION + tail)
  {
    var p := SECTION + tail;
    assert p[1..] == [Free(Mutex)] + tail;
    assert p[1..][1..] == tail;
    assert held + {Mutex} - {Mutex} == held;
  }

  lemma SendDisciplined(c: nat, rest: seq<Op>)
    requires Disciplined({}, rest)
    ensures Disciplined({}, [Take(Write(c)), Free(Write(c))] + rest)
  {
    var p := [Take(Write(c)), Free(Write(c))] + rest;
    assert p[1..] == [Free(Write(c))] + rest && p[1..][1..] == rest;
    assert {Write(c)} - {Write(c)} == {};
  }

  /** All procedures of the relay keep the discipline, on every path. */
  lemma ProceduresDisciplined(a: bool, b: bool, sent: bool, c: nat, streams: nat)
    ensures Disciplined({}, OpenStream(a, b, sent, c))
    ensures Disciplined({}, StreamRequest(a))
    ensures Disciplined({}, ControlSession(a, c, streams))
    ensures Disciplined({}, Sections(streams))
  {
    assert forall p: seq<Op> :: p + [] == p;
    InSection({}, []);
    SectionsDisciplined(2, []);
    SectionsDisciplined(3, []);
    SectionsDisciplined(streams, []);
    SectionsDisciplined(1 + streams, []);
    SendDisciplined(c, []);
    SendDisciplined(c, SECTION);
    SectionsDisciplined(2, [Take(Write(c)), Free(Write(c))]);
    SectionsDisciplined(2, [Take(Write(c)), Free(Write(c))] + SECTION);
    assert Sections(2) + [Take(Write(c)), Free(Write(c))] + SECTION
        == Sections(2) + ([Take(Write(c)), Free(Write(c))] + SECTION);
    PublishDisciplined(c, []);
    PublishDisciplined(c, Sections(1 + streams));
  }

  lemma PublishDisciplined(c: nat, rest: seq<Op>)
    requires Disciplined({}, rest)
    ensures Disciplined({}, [Take(Write(c)), Take(Mutex), Free(Mutex), Free(Write(c))] + rest)
  {
    var p := [Take(Write(c)), Take(Mutex), Free(Mutex), Free(Write(c))] + rest;
    var q := [Free(Write(c))] + rest;
    assert q[1..] == rest && {Write(c)} - {Write(c)} == {};
    InSection({Write(c)}, q);
    assert p[1..] == SECTION + q;
  }
}
