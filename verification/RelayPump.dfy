/**
 The bounded byte pump of a relay stream: two copy loops that run at the same
 time and share one counter.  The client side is read in chunks of the 32 KiB
 buffer and starts with the replayed ClientHello; the node side is read in whole
 frames of at most 64 KiB.
 */
module RelayPump {
  import opened ClientHello

  const BUFFER := 32 * 1024
  const FRAME := 64 * 1024

  /** Where a copy loop is: reading, writing what is left of a chunk (and whether
      the read also reported an error), or returned. */
  datatype Loop = Reading | Writing(left: Bytes, last: bool) | Returned

  datatype Frame = Frame(binary: bool, body: Bytes)

  /** `client` and `frames` are all that the two sides will ever send; `taken` and
      `seen` how far they were read; `toNode` and `toClient` what was delivered. */
  datatype State = State(
    maximum: nat, client: Bytes, frames: seq<Frame>,
    taken: nat, seen: nat, counter: nat,
    up: Loop, down: Loop, toNode: Bytes, toClient: Bytes)

  datatype Step =
    | ClientRead(count: nat, fails: bool)
    | NodeWrite(n: nat, fails: bool)
    | NodeRead(fails: bool)
    | ClientWrite(n: nat, fails: bool)

  /** The client's bytes are the replayed prefix and then the rest. */
  function Init(maximum: nat, prefix: Bytes, rest: Bytes, frames: seq<Frame>): (s: State) {
    State(maximum, prefix + rest, frames, 0, 0, 0, Reading, Reading, [], [])
  }

  /** `copyTo(data, source)` up to its write. */
  function ApplyClientRead(s: State, count: nat, fails: bool): (t: State)
    requires s.taken <= |s.client|
  {
    if !s.up.Reading? || count > BUFFER || s.taken + count > |s.client| then s
    else if count == 0 then s.(up := if fails then Returned else Reading)
    else
      var counter := s.counter + count;
      var t := s.(counter := counter, taken := s.taken + count);
      if counter > s.maximum then t.(up := Returned)
      else t.(up := Writing(s.client[s.taken..s.taken + count], fails))
  }

  /** The node's loop up to its write: a frame that is too long or not binary
      ends it before it is counted. */
  function ApplyNodeRead(s: State, fails: bool): (t: State)
    requires s.seen <= |s.frames|
  {
    if !s.down.Reading? then s
    else if fails || s.seen == |s.frames| || !s.frames[s.seen].binary || |s.frames[s.seen].body| > FRAME then
      s.(down := Returned)
    else
      var body := s.frames[s.seen].body;
      var counter := s.counter + |body|;
      var t := s.(counter := counter, seen := s.seen + 1);
      if counter > s.maximum then t.(down := Returned) else t.(down := Writing(body, false))
  }

  /** One write of `writeFull`: `n` bytes go out; an error or an empty write ends
      the loop. */
  function AfterWrite(loop: Loop, n: nat, fails: bool): (r: (Loop, Bytes))
    requires loop.Writing?
  {
    if n > |loop.left| then (loop, [])
    else
      var left := loop.left[n..];
      var next :=
        if loop.left == [] then (if loop.last then Returned else Reading)
        else if fails || n == 0 then Returned
        else if left == [] then (if loop.last then Returned else Reading)
        else Writing(left, loop.last);
      (next, if loop.left == [] then [] else loop.left[..n])
  }

  ghost predicate Bounds(s: State) {
    s.taken <= |s.client| && s.seen <= |s.frames|
  }

  function Apply(s: State, step: Step): (t: State)
    requires Bounds(s)
    ensures Bounds(t)
  {
    match step
    case ClientRead(count, fails) => ApplyClientRead(s, count, fails)
    case NodeRead(fails) => ApplyNodeRead(s, fails)
    case NodeWrite(n, fails) =>
      if !s.up.Writing? then s
      else var (next, out) := AfterWrite(s.up, n, fails); s.(up := next, toNode := s.toNode + out)
    case ClientWrite(n, fails) =>
      if !s.down.Writing? then s
      else var (next, out) := AfterWrite(s.down, n, fails); s.(down := next, toClient := s.toClient + out)
  }

  function Run(s: State, steps: seq<Step>): (t: State)
    requires Bounds(s)
    ensures Bounds(t)
    decreases |steps|
  {
    if steps == [] then s else Apply(Run(s, steps[..|steps| - 1]), steps[|steps| - 1])
  }

  // --------------------------------------------------------------- invariant

  /** The bodies of the first frames, one after the other. */
  function Bodies(frames: seq<Frame>): (s: Bytes) {
    if frames == [] then [] else Bodies(frames[..|frames| - 1]) + frames[|frames| - 1].body
  }

  /** How a loop accounts for its input: `counted` was counted, `passed` of it
      admitted, `out` delivered; only a loop that returned may have counted a
      last piece of at most `most` bytes that it did not admit, or have left
      admitted bytes undelivered. */
  ghost predicate Accounts(loop: Loop, input: Bytes, counted: nat, passed: nat, out: Bytes, most: nat) {
    && passed <= counted <= |input| && counted - passed <= most
    && (loop.Reading? ==> passed == counted && out == input[..passed])
    && (loop.Writing? ==> passed == counted && out + loop.left == input[..passed])
    && out <= input && |out| <= passed
  }

  ghost predicate Inv(s: State, up: nat, down: nat) {
    && Bounds(s)
    && var bodies := Bodies(s.frames[..s.seen]);
       && Accounts(s.up, s.client, s.taken, up, s.toNode, BUFFER)
       && Accounts(s.down, bodies, |bodies|, down, s.toClient, FRAME)
       && s.counter == s.taken + |bodies|
       && up + down <= s.maximum
  }

  lemma WriteKeeps(loop: Loop, n: nat, fails: bool, input: Bytes, counted: nat, passed: nat, out: Bytes, most: nat)
    requires loop.Writing? && Accounts(loop, input, counted, passed, out, most)
    ensures Accounts(AfterWrite(loop, n, fails).0, input, counted, passed, out + AfterWrite(loop, n, fails).1, most)
  {
    var (next, piece) := AfterWrite(loop, n, fails);
    if n <= |loop.left| && loop.left != [] {
      assert loop.left == piece + loop.left[n..];
      assert out + loop.left == out + piece + loop.left[n..];
    }
    assert out + piece <= input[..passed];
  }

  lemma ClientReadKeeps(s: State, count: nat, fails: bool, up: nat, down: nat) returns (up': nat)
    requires Inv(s, up, down)
    ensures Inv(ApplyClientRead(s, count, fails), up', down)
  {
    var t := ApplyClientRead(s, count, fails);
    up' := if t.up.Writing? && s.up.Reading? then t.taken else up;
    if t.taken != s.taken {
      assert s.client[..t.taken] == s.client[..s.taken] + s.client[s.taken..t.taken];
    }
  }

  lemma NodeReadKeeps(s: State, fails: bool, up: nat, down: nat) returns (down': nat)
    requires Inv(s, up, down)
    ensures Inv(ApplyNodeRead(s, fails), up, down')
  {
    var t := ApplyNodeRead(s, fails);
    var bodies := Bodies(t.frames[..t.seen]);
    down' := if t.down.Writing? && s.down.Reading? then |bodies| else down;
    if t.seen != s.seen {
      assert t.frames[..t.seen][..s.seen] == s.frames[..s.seen];
      assert bodies == Bodies(s.frames[..s.seen]) + s.frames[s.seen].body;
    }
  }

  lemma StepKeeps(s: State, step: Step, up: nat, down: nat) returns (up': nat, down': nat)
    requires Inv(s, up, down)
    ensures Inv(Apply(s, step), up', down')
  {
    up', down' := up, down;
    match step
    case ClientRead(count, fails) => up' := ClientReadKeeps(s, count, fails, up, down);
    case NodeRead(fails) => down' := NodeReadKeeps(s, fails, up, down);
    case NodeWrite(n, fails) =>
      if s.up.Writing? { WriteKeeps(s.up, n, fails, s.client, s.taken, up, s.toNode, BUFFER); }
    case ClientWrite(n, fails) =>
      var bodies := Bodies(s.frames[..s.seen]);
      if s.down.Writing? { WriteKeeps(s.down, n, fails, bodies, |bodies|, down, s.toClient, FRAME); }
  }

  lemma {:induction false} RunKeeps(s: State, steps: seq<Step>, up: nat, down: nat) returns (up': nat, down': nat)
    requires Inv(s, up, down)
    ensures Inv(Run(s, steps), up', down')
    decreases |steps|
  {
    up', down' := up, down;
    if steps != [] {
      up', down' := RunKeeps(s, steps[..|steps| - 1], up, down);
      up', down' := StepKeeps(Run(s, steps[..|steps| - 1]), steps[|steps| - 1], up', down');
    }
  }

  // -------------------------------------------------------------- main results

  lemma {:induction false} BodiesGrow(frames: seq<Frame>, n: nat)
    requires n <= |frames|
    ensures Bodies(frames[..n]) <= Bodies(frames)
    decreases |frames|
  {
    if n < |frames| {
      BodiesGrow(frames[..|frames| - 1], n);
      assert frames[..|frames| - 1][..n] == frames[..n];
    } else {
      assert frames[..n] == frames;
    }
  }

  lemma {:induction false} SameInput(s: State, steps: seq<Step>)
    requires Bounds(s)
    ensures var t := Run(s, steps); t.maximum == s.maximum && t.client == s.client && t.frames == s.frames
    decreases |steps|
  {
    if steps != [] {
      SameInput(s, steps[..|steps| - 1]);
    }
  }

  /** In every interleaving each side receives a prefix of what the other sent,
      the client's stream beginning with the replayed prefix; together no more
      than the maximum is forwarded, and the counter passes it by at most one
      buffer and one frame. */
  lemma PumpIsBoundedPrefix(maximum: nat, prefix: Bytes, rest: Bytes, frames: seq<Frame>, steps: seq<Step>)
    ensures var s := Run(Init(maximum, prefix, rest, frames), steps);
            && s.toNode <= prefix + rest
            && s.toClient <= Bodies(frames)
            && |s.toNode| + |s.toClient| <= maximum
            && s.counter <= maximum + BUFFER + FRAME
  {
    var start := Init(maximum, prefix, rest, frames);
    assert start.frames[..0] == [];
    var up, down := RunKeeps(start, steps, 0, 0);
    SameInput(start, steps);
    BodiesGrow(frames, Run(start, steps).seen);
  }

  /** A loop that is reading has delivered everything it admitted. */
  lemma ReadingMeansDelivered(maximum: nat, prefix: Bytes, rest: Bytes, frames: seq<Frame>, steps: seq<Step>)
    ensures var s := Run(Init(maximum, prefix, rest, frames), steps);
            && (s.up.Reading? ==> s.client == prefix + rest && s.toNode == s.client[..s.taken])
            && (s.down.Reading? ==> s.frames == frames && s.toClient == Bodies(s.frames[..s.seen]))
  {
    var start := Init(maximum, prefix, rest, frames);
    assert start.frames[..0] == [];
    var up, down := RunKeeps(start, steps, 0, 0);
    SameInput(start, steps);
  }

  // --------------------------------------------------------------- writeFull

  /** One answer of a writer: at most this many bytes, and whether it failed. */
  datatype Answer = Answer(n: nat, fails: bool)

  class Writer {
    var written: Bytes
    var answers: seq<Answer>

    constructor (answers: seq<Answer>)
      ensures written == [] && this.answers == answers
    {
      written := [];
      this.answers := answers;
    }

    /** A writer without further answers fails. */
    method Write(data: Bytes) returns (n: nat, failed: bool)
      modifies this
      ensures n <= |data| && written == old(written) + data[..n]
      ensures old(answers) == [] ==> n == 0 && failed && answers == []
      ensures old(answers) != [] ==>
                && answers == old(answers)[1..] && failed == old(answers)[0].fails
                && n == if old(answers)[0].n < |data| then old(answers)[0].n else |data|
    {
      if answers == [] {
        return 0, true;
      }
      n := if answers[0].n < |data| then answers[0].n else |data|;
      failed := answers[0].fails;
      answers := answers[1..];
      written := written + data[..n];
    }
  }

  predicate Willing(answers: seq<Answer>) {
    forall i :: 0 <= i < |answers| ==> answers[i].n > 0 && !answers[i].fails
  }

  /** Exactly the reported number of bytes goes out, in order; success means all
      of them. */
  method WriteFull(writer: Writer, data: Bytes) returns (total: nat, ok: bool)
    modifies writer
    ensures total <= |data| && writer.written == old(writer.written) + data[..total]
    ensures ok ==> total == |data|
    ensures Willing(old(writer.answers)) && |old(writer.answers)| >= |data| ==> ok
  {
    total := 0;
    var left := data;
    ghost var used := 0;
    while |left| > 0
      invariant total <= |data| && left == data[total..]
      invariant writer.written == old(writer.written) + data[..total]
      invariant used <= |old(writer.answers)| && writer.answers == old(writer.answers)[used..]
      invariant Willing(old(writer.answers)) ==> used <= total
      decreases |left|
    {
      ghost var answers := writer.answers;
      var n, failed := writer.Write(left);
      assert data[..total] + left[..n] == data[..total + n];
      total := total + n;
      left := left[n..];
      if failed {
        assert answers != [] ==> answers[0] == old(writer.answers)[used];
        return total, false;
      }
      assert answers[0] == old(writer.answers)[used];
      if n == 0 {
        return total, false;
      }
      used := used + 1;
    }
    ok := true;
  }
}
