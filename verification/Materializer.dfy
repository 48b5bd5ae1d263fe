/**
 The materializer's resumable download of one pinned content into a staging
 directory.

 Being killed at some point leaves the same files as failing there, so an
 interrupted attempt is one whose environment makes it fail: a server that does
 not answer, a write of which only a prefix lands, a file operation that fails.
 A sequence of interrupted and resumed attempts is any sequence of calls.
 */
module Materializer {
  import opened Wrappers

  type Bytes = seq<nat>

  const CHUNK := 256 * 1024

  /** The digest is taken to be injective. */
  datatype Digest = Digest(bytes: Bytes)

  datatype Target = Target(name: nat, size: nat, digest: Digest)

  /** A file and whether it was made read-only. */
  datatype File = File(bytes: Bytes, locked: bool)

  datatype Range = Range(first: nat, last: nat)

  datatype Trouble = NoTrouble | AtLock | AtRename | AtSync | BeforeReceipt | AfterReceipt

  /** What the n-th request for a range is answered, how much of the n-th write
      lands when it does not land whole, and which file operation fails. */
  datatype Environment = Environment(serve: (nat, Range) -> Option<Bytes>, torn: nat -> Option<nat>, trouble: Trouble)

  predicate Matches(target: Target, bytes: Bytes) {
    |bytes| == target.size && Digest(bytes) == target.digest
  }

  /** The server answers, if at all, with the bytes of the content it was asked for. */
  ghost predicate Honest(env: Environment, content: Bytes) {
    forall n, r :: env.serve(n, r).Some? && r.first <= r.last < |content| ==>
      env.serve(n, r).value == content[r.first..r.last + 1]
  }

  /** Every request is answered and every write lands whole. */
  ghost predicate Served(env: Environment) {
    (forall n :: env.torn(n).None?) && (forall n, r :: env.serve(n, r).Some?)
  }

  ghost predicate Undisturbed(env: Environment) {
    env.trouble.NoTrouble? && Served(env)
  }

  /** The ranges lead from `from` to `to` without gap or overlap, in chunks. */
  predicate Tiles(ranges: seq<Range>, from: nat, to: nat) {
    if ranges == [] then from == to
    else
      var r := ranges[|ranges| - 1];
      r.first <= r.last && r.last + 1 == to && r.last - r.first < CHUNK && Tiles(ranges[..|ranges| - 1], from, r.first)
  }

  lemma TilesMore(ranges: seq<Range>, from: nat, r: Range)
    requires Tiles(ranges, from, r.first) && r.first <= r.last && r.last - r.first < CHUNK
    ensures Tiles(ranges + [r], from, r.last + 1)
  {
    assert (ranges + [r])[..|ranges|] == ranges;
  }

  /** Every byte of the rest is asked for in exactly one of the ranges. */
  lemma {:induction false} TilesCoverOnce(ranges: seq<Range>, from: nat, to: nat, at: nat)
    requires Tiles(ranges, from, to)
    ensures from <= to
    ensures from <= at < to <==> exists i :: 0 <= i < |ranges| && ranges[i].first <= at <= ranges[i].last
    ensures forall i, k :: 0 <= i < k < |ranges| ==> ranges[i].last < ranges[k].first
    ensures forall i :: 0 <= i < |ranges| ==> ranges[i].last < to
  {
    if ranges != [] {
      var (front, r) := (ranges[..|ranges| - 1], ranges[|ranges| - 1]);
      TilesCoverOnce(front, from, r.first, at);
      assert forall i :: 0 <= i < |front| ==> front[i] == ranges[i];
      if from <= at < r.first {
        var i :| 0 <= i < |front| && front[i].first <= at <= front[i].last;
        assert ranges[i].first <= at <= ranges[i].last;
      } else if r.first <= at < to {
        assert ranges[|ranges| - 1].first <= at <= ranges[|ranges| - 1].last;
      }
    }
  }

  /** Whatever part of the next piece of the content lands, a prefix remains. */
  lemma LandedIsPrefix(content: Bytes, stored: Bytes, piece: Bytes, landed: nat)
    requires landed <= |piece|
    ensures stored <= content && |stored| + |piece| <= |content| && piece == content[|stored|..|stored| + |piece|] ==>
              stored + piece[..landed] <= content
    ensures piece[..|piece|] == piece
  {
  }

  lemma Answered(env: Environment, content: Bytes, n: nat, r: Range)
    requires r.first <= r.last
    ensures Honest(env, content) && env.serve(n, r).Some? && r.last < |content| ==>
              env.serve(n, r).value == content[r.first..r.last + 1]
    ensures Served(env) ==> env.serve(n, r).Some? && env.torn(n).None?
  {
  }

  class Staging {
    var partial: Option<File>
    var installed: Option<File>
    var receipt: Option<Target>

    constructor ()
      ensures partial.None? && installed.None? && receipt.None?
    {
      partial, installed, receipt := None, None, None;
    }

    function Stored(): (n: nat)
      reads this
    {
      if partial.None? then 0 else |partial.value.bytes|
    }

    /** The partial file is a prefix of the content. */
    ghost predicate PrefixOf(content: Bytes)
      reads this
    {
      partial.Some? ==> partial.value.bytes <= content
    }

    /** An attempt can begin or go on downloading. */
    ghost predicate Resumable(target: Target)
      reads this
    {
      receipt.None? && installed.None? && Stored() <= target.size && (partial.Some? ==> !partial.value.locked)
    }

    /** The partial file was made read-only and not renamed. */
    predicate Stuck()
      reads this
    {
      receipt.None? && installed.None? && partial.Some? && partial.value.locked
    }

    /** Nothing but the content and its prefixes was ever stored. */
    ghost predicate Faithful(target: Target, content: Bytes)
      reads this
    {
      && PrefixOf(content) && (installed.Some? ==> installed.value.bytes == content)
      && (receipt.Some? ==> receipt == Some(target) && installed == Some(File(content, true)))
    }

    method WriteReceipt(target: Target, trouble: Trouble) returns (ok: bool)
      modifies this`receipt
      ensures ok <==> trouble != BeforeReceipt && trouble != AfterReceipt
      ensures receipt == if trouble == BeforeReceipt then old(receipt) else Some(target)
    {
      if trouble == BeforeReceipt {
        return false;
      }
      receipt := Some(target);
      ok := trouble != AfterReceipt;
    }

    /** `appendMaterialization`: the chunk lands whole, or a prefix of it. */
    method Append(chunk: Bytes, torn: Option<nat>, ghost content: Bytes) returns (ok: bool)
      requires partial.Some? ==> !partial.value.locked
      modifies this`partial
      ensures ok <==> torn.None?
      ensures partial.Some? && !partial.value.locked
      ensures Stored() <= old(Stored()) + |chunk| && (ok ==> Stored() == old(Stored()) + |chunk|)
      ensures (old(PrefixOf(content)) && old(Stored()) + |chunk| <= |content|
               && chunk == content[old(Stored())..old(Stored()) + |chunk|]) ==> PrefixOf(content)
    {
      var stored := if partial.None? then [] else partial.value.bytes;
      var landed := if torn.Some? && torn.value < |chunk| then torn.value else |chunk|;
      LandedIsPrefix(content, stored, chunk, landed);
      partial := Some(File(stored + chunk[..landed], false));
      ok := torn.None?;
    }

    /** The download loop. */
    method Download(target: Target, env: Environment, ghost content: Bytes) returns (ok: bool, ranges: seq<Range>)
      requires Resumable(target)
      modifies this`partial
      ensures Resumable(target)
      ensures exists to :: old(Stored()) <= to <= target.size && Tiles(ranges, old(Stored()), to)
      ensures ok ==> Stored() == target.size && Tiles(ranges, old(Stored()), target.size)
      ensures Honest(env, content) && |content| == target.size && old(PrefixOf(content)) ==> PrefixOf(content)
      ensures Honest(env, content) && |content| == target.size && Served(env) ==> ok
      ensures target.size > 0 && ok ==> partial.Some?
    {
      ranges := [];
      ghost var start := Stored();
      assert Tiles(ranges, start, start);
      hide Tiles, Honest, Served;
      var offset, n := Stored(), 0;
      while offset < target.size
        invariant offset == Stored() <= target.size && Resumable(target)
        invariant Tiles(ranges, start, offset)
        invariant Honest(env, content) && |content| == target.size && old(PrefixOf(content)) ==> PrefixOf(content)
        invariant partial.None? ==> offset == 0
        decreases target.size - offset
      {
        var end := (if offset + CHUNK < target.size then offset + CHUNK else target.size) - 1;
        TilesMore(ranges, start, Range(offset, end));
        ranges := ranges + [Range(offset, end)];
        assert start <= end + 1 by { TilesCoverOnce(ranges, start, end + 1, 0); }
        var chunk := env.serve(n, Range(offset, end));
        Answered(env, content, n, Range(offset, end));
        if chunk.None? || |chunk.value| != end - offset + 1 {
          return false, ranges;
        }
        var appended := Append(chunk.value, env.torn(n), content);
        if !appended {
          return false, ranges;
        }
        offset := offset + |chunk.value|;
        n := n + 1;
      }
      ok := true;
      assert start <= target.size by { TilesCoverOnce(ranges, start, target.size, 0); }
    }

    /** `materializeOne`.  `halted` when it stops between making the partial file
        read-only and renaming it. */
    method MaterializeOne(target: Target, env: Environment, ghost content: Bytes)
      returns (ok: bool, ranges: seq<Range>, halted: bool)
      modifies this
      // any server: success is only for the pinned size and digest
      ensures ok ==> installed.Some? && Matches(target, installed.value.bytes) && receipt == Some(target)
      ensures ok ==> installed.value.locked
      // the requests go on where the stored bytes end
      ensures ranges != [] ==> exists to: nat :: to <= target.size && Tiles(ranges, old(Stored()), to)
      // an honest server's partial file stays a prefix
      ensures Honest(env, content) && |content| == target.size && old(PrefixOf(content)) ==> PrefixOf(content)
      // whoever stops there has spoilt the directory, and nothing else does
      ensures halted <==> Stuck() && !old(Stuck())
      ensures halted ==> env.trouble == AtRename && !ok
      ensures old(Stuck()) ==> !ok && partial == old(partial) && installed == old(installed) && receipt == old(receipt)
      // an honest server: the content is installed exactly if nothing troubles this
      // attempt and the directory is not spoilt
      ensures Honest(env, content) && Matches(target, content) && target.size > 0 && old(Faithful(target, content)) ==>
                && Faithful(target, content)
                && (Undisturbed(env) ==> (ok <==> !old(Stuck())) && (ok ==> installed == Some(File(content, true))))
                && (Served(env) && env.trouble == AtRename && old(installed).None? && !old(Stuck()) ==> halted)
    {
      ranges, halted := [], false;
      if receipt.Some? {
        ok := && installed.Some? && receipt == Some(target)
              && Matches(target, installed.value.bytes) && installed.value.locked;
        return;
      }
      if installed.Some? {
        if !Matches(target, installed.value.bytes) || env.trouble == AtLock {
          ok := false;
          return;
        }
        installed := Some(installed.value.(locked := true));
        ok := WriteReceipt(target, env.trouble);
        return;
      }
      if partial.Some? && (|partial.value.bytes| > target.size || partial.value.locked) {
        ok := false;
        return;
      }
      ok, ranges := Download(target, env, content);
      if !ok {
        return;
      }
      if partial.None? || !Matches(target, partial.value.bytes) {
        partial := None;
        ok := false;
        return;
      }
      ok, halted := Install(target, env.trouble);
    }

    /** Lock, rename, sync the directory, write the receipt. */
    method Install(target: Target, trouble: Trouble) returns (ok: bool, halted: bool)
      requires partial.Some? && Matches(target, partial.value.bytes) && !partial.value.locked
      requires installed.None? && receipt.None?
      modifies this
      ensures ok <==> trouble.NoTrouble?
      ensures halted <==> trouble == AtRename
      ensures halted <==> Stuck()
      ensures installed.Some? ==> installed == Some(File(old(partial).value.bytes, true))
      ensures receipt.Some? ==> receipt == Some(target) && installed.Some?
      ensures ok ==> installed == Some(File(old(partial).value.bytes, true)) && receipt == Some(target)
      ensures partial.Some? ==> partial.value.bytes == old(partial).value.bytes
    {
      halted := false;
      if trouble == AtLock {
        return false, halted;
      }
      partial := Some(partial.value.(locked := true));
      if trouble == AtRename {
        return false, true;
      }
      installed, partial := partial, None;
      if trouble == AtSync {
        return false, halted;
      }
      ok := WriteReceipt(target, trouble);
    }
  }

  // ------------------------------------------------------- any number of attempts

  /** Any number of attempts, each with its own environment: an honest server's
      partial file is a prefix after every one of them. */
  method Attempts(staging: Staging, target: Target, envs: seq<Environment>, ghost content: Bytes) returns (ok: bool)
    requires staging.PrefixOf(content) && |content| == target.size
    requires forall i :: 0 <= i < |envs| ==> Honest(envs[i], content)
    modifies staging
    ensures staging.PrefixOf(content)
    ensures ok ==> staging.installed.Some? && Matches(target, staging.installed.value.bytes)
    ensures ok && Matches(target, content) ==> staging.installed.value.bytes == content
  {
    ok := false;
    for i := 0 to |envs|
      invariant staging.PrefixOf(content)
      invariant !ok
    {
      var ranges, halted;
      ok, ranges, halted := staging.MaterializeOne(target, envs[i], content);
      if ok {
        return;
      }
    }
  }

  /** From an empty directory, after any attempts against an honest server, an
      undisturbed attempt installs the content exactly when none of them stopped
      between making the partial file read-only and renaming it. */
  method Resumed(staging: Staging, target: Target, envs: seq<Environment>, last: Environment, ghost content: Bytes)
    returns (ok: bool, halts: seq<bool>)
    requires staging.partial.None? && staging.installed.None? && staging.receipt.None?
    requires Matches(target, content) && target.size > 0
    requires forall i :: 0 <= i < |envs| ==> Honest(envs[i], content)
    requires Honest(last, content) && Undisturbed(last)
    modifies staging
    ensures |halts| == |envs| && (ok <==> true !in halts)
    ensures forall i :: 0 <= i < |halts| && halts[i] ==> envs[i].trouble == AtRename
    ensures ok ==> staging.installed == Some(File(content, true)) && staging.receipt == Some(target)
  {
    halts := [];
    for i := 0 to |envs|
      invariant |halts| == i && staging.Faithful(target, content) && (staging.Stuck() <==> true in halts)
      invariant forall k :: 0 <= k < i && halts[k] ==> envs[k].trouble == AtRename
    {
      var done, ranges, halted := staging.MaterializeOne(target, envs[i], content);
      halts := halts + [halted];
    }
    var ranges, halted;
    ok, ranges, halted := staging.MaterializeOne(target, last, content);
  }
}
