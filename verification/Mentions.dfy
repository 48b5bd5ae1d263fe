/**
 Structured mentions: which agent names a message mentions.  A token is `@name`
 between boundaries; at each position the longest known token wins.
 */
module Mentions {
  import opened Wrappers

  type Text = seq<char>

  // --------------------------------------------------------------- boundaries

  /** ASCII brackets, quotes and stops and their full-width forms. */
  predicate IsPunctuation(c: char) {
    var n := c as int;
    n == 0x28 || n == 0x29 || n == 0x5B || n == 0x5D || n == 0x7B || n == 0x7D || n == 0x3C || n == 0x3E
    || n == 0x2C || n == 0x2E || n == 0x21 || n == 0x3F || n == 0x3B || n == 0x3A || n == 0x27 || n == 0x22
    || n == 0xFF0C || n == 0x3002 || n == 0xFF01 || n == 0xFF1F || n == 0xFF1B || n == 0xFF1A
    || n == 0xFF08 || n == 0xFF09 || n == 0x3010 || n == 0x3011 || n == 0x300A || n == 0x300B
  }

  predicate IsSpace(c: char) {
    var n := c as int;
    9 <= n <= 13 || n == 0x20 || n == 0xA0 || n == 0x1680 || 0x2000 <= n <= 0x200A
    || n == 0x2028 || n == 0x2029 || n == 0x202F || n == 0x205F || n == 0x3000 || n == 0xFEFF
  }

  predicate IsBoundary(c: char) {
    IsSpace(c) || IsPunctuation(c)
  }

  function Token(name: Text): (t: Text)
    ensures t != []
  {
    ['@'] + name
  }

  /** `token` stands at `i`. */
  predicate Stands(content: Text, token: Text, i: nat) {
    i + |token| <= |content| && content[i..i + |token|] == token
  }

  /** ... between boundaries: the start, the end, white space or punctuation. */
  predicate Bounded(content: Text, size: nat, i: nat) {
    && i + size <= |content|
    && (i > 0 ==> IsBoundary(content[i - 1]))
    && (i + size < |content| ==> IsBoundary(content[i + size]))
  }

  /** The message mentions `name` at `i`. */
  predicate Mentioned(content: Text, name: Text, i: nat) {
    Stands(content, Token(name), i) && Bounded(content, |Token(name)|, i)
  }

  // ------------------------------------------------------------------- search

  /** `indexOf`. */
  function IndexOf(content: Text, token: Text, from: nat): (r: Option<nat>)
    requires token != []
    ensures r.None? ==> forall i :: i >= from ==> !Stands(content, token, i)
    ensures r.Some? ==> r.value >= from && r.value + |token| <= |content| && Stands(content, token, r.value)
                        && forall i :: from <= i < r.value ==> !Stands(content, token, i)
    decreases |content| - from
  {
    if from + |token| > |content| then None
    else if Stands(content, token, from) then Some(from)
    else IndexOf(content, token, from + 1)
  }

  /** `findMentionToken`: a token that is not between boundaries is skipped over
      whole. */
  function Find(content: Text, name: Text, from: nat): (r: Option<nat>)
    ensures r.Some? ==> r.value >= from && r.value + |Token(name)| <= |content| && Mentioned(content, name, r.value)
    decreases |content| - from
  {
    var token := Token(name);
    match IndexOf(content, token, from)
    case None => None
    case Some(i) => if Bounded(content, |token|, i) then Some(i) else Find(content, name, i + |token|)
  }

  method FindMentionToken(content: Text, name: Text, from: nat) returns (r: Option<nat>)
    ensures r == Find(content, name, from)
  {
    hide Stands, Bounded, IndexOf;
    var token := Token(name);
    var index := IndexOf(content, token, from);
    while index.Some?
      invariant index.Some? ==> index.value + |token| <= |content|
      invariant Find(content, name, from) ==
                match index case None => None
                case Some(i) => if Bounded(content, |token|, i) then Some(i) else Find(content, name, i + |token|)
      decreases match index case None => 0 case Some(i) => 1 + |content| - i
    {
      var i := index.value;
      if Bounded(content, |token|, i) {
        return Some(i);
      }
      index := IndexOf(content, token, i + |token|);
    }
    return None;
  }

  /** All mentions of one name that the search finds. */
  function FindAll(content: Text, name: Text, from: nat): (r: seq<nat>)
    decreases |content| - from
  {
    match Find(content, name, from)
    case None => []
    case Some(i) => [i] + FindAll(content, name, i + |Token(name)|)
  }

  predicate Ascending(s: seq<nat>) {
    forall i, k :: 0 <= i < k < |s| ==> s[i] < s[k]
  }

  lemma {:induction false} FoundAreMentioned(content: Text, name: Text, from: nat)
    ensures forall k :: k in FindAll(content, name, from) ==> k >= from && Mentioned(content, name, k)
    ensures Ascending(FindAll(content, name, from))
    decreases |content| - from
  {
    hide Mentioned, Find;
    var first := Find(content, name, from);
    if first.Some? {
      FoundAreMentioned(content, name, first.value + |Token(name)|);
      var rest := FindAll(content, name, first.value + |Token(name)|);
      assert forall i :: 0 <= i < |rest| ==> rest[i] in rest;
    }
  }

  // ----------------------------------------------- when the search is complete

  /** The token can begin again inside itself, after a boundary. */
  predicate OverlapsAt(name: Text, p: nat) {
    && 0 < p < |Token(name)|
    && Token(name)[p..] == Token(name)[..|Token(name)| - p]
    && IsBoundary(Token(name)[p - 1])
  }

  predicate SelfOverlaps(name: Text) {
    exists p :: 0 < p < |Token(name)| && OverlapsAt(name, p)
  }

  /** A mention that begins inside an earlier token makes the name overlap. */
  lemma InsideOverlaps(content: Text, name: Text, i: nat, k: nat)
    requires Stands(content, Token(name), i) && Mentioned(content, name, k) && i < k < i + |Token(name)|
    ensures SelfOverlaps(name)
  {
    var (t, p) := (Token(name), k - i);
    assert t[p - 1] == content[i..i + |t|][p - 1];
    forall j | 0 <= j < |t| - p ensures t[p..][j] == t[..|t| - p][j] {
      assert t[p + j] == content[i..i + |t|][p + j] == content[k..k + |t|][j];
    }
    assert t[p..] == t[..|t| - p];
    assert OverlapsAt(name, p);
  }

  lemma {:induction false} FindMissesNothing(content: Text, name: Text, from: nat)
    requires !SelfOverlaps(name)
    ensures forall k :: k >= from && Mentioned(content, name, k) ==>
              Find(content, name, from).Some? && Find(content, name, from).value <= k
    decreases |content| - from
  {
    hide Stands, Bounded, IndexOf, SelfOverlaps;
    var token := Token(name);
    var index := IndexOf(content, token, from);
    if index.Some? && !Bounded(content, |token|, index.value) {
      var i := index.value;
      FindMissesNothing(content, name, i + |token|);
      forall k | k >= from && Mentioned(content, name, k) ensures k >= i + |token| {
        if i < k < i + |token| {
          InsideOverlaps(content, name, i, k);
        }
      }
    }
  }

  lemma MentionStands(content: Text, name: Text, i: nat)
    requires Mentioned(content, name, i)
    ensures Stands(content, Token(name), i)
  {
  }

  lemma {:induction false} FindAllMissesNothing(content: Text, name: Text, from: nat, k: nat)
    requires !SelfOverlaps(name) && k >= from && Mentioned(content, name, k)
    ensures k in FindAll(content, name, from)
    decreases |content| - from
  {
    hide Mentioned, Find, SelfOverlaps;
    FindMissesNothing(content, name, from);
    var i := Find(content, name, from).value;
    if k > i {
      if k < i + |Token(name)| {
        MentionStands(content, name, i);
        InsideOverlaps(content, name, i, k);
      }
      FindAllMissesNothing(content, name, i + |Token(name)|, k);
    }
  }

  ghost predicate Complete(name: Text) {
    forall content: Text, k: nat :: Mentioned(content, name, k) ==> k in FindAll(content, name, 0)
  }

  /** The text that hides a mention: the token, and then its end once more. */
  lemma OverlapHides(name: Text, p: nat) returns (content: Text)
    requires OverlapsAt(name, p)
    ensures Mentioned(content, name, p) && p !in FindAll(content, name, 0)
  {
    var t := Token(name);
    content := t + t[|t| - p..];
    assert content[..|t|] == t;
    assert Stands(content, t, 0);
    forall j | 0 <= j < |t| ensures content[p..p + |t|][j] == t[j] {
      if j < |t| - p {
        assert t[p..][j] == t[..|t| - p][j];
      } else {
        assert content[p + j] == t[|t| - p..][p + j - |t|];
      }
    }
    assert content[p..p + |t|] == t;
    assert Stands(content, t, p);
    assert content[p - 1] == t[p - 1];
    assert IndexOf(content, t, 0) == Some(0);
    FoundAreMentioned(content, name, |t|);
    if Bounded(content, |t|, 0) {
      assert FindAll(content, name, 0) == [0] + FindAll(content, name, |t|);
    } else {
      assert Find(content, name, 0) == Find(content, name, |t|);
    }
  }

  /** The search finds every mention in every text exactly for the names that do
      not overlap themselves. */
  lemma CompleteIff(name: Text)
    ensures Complete(name) <==> !SelfOverlaps(name)
  {
    if SelfOverlaps(name) {
      var p :| OverlapsAt(name, p);
      var content := OverlapHides(name, p);
    } else {
      forall content: Text, k: nat | Mentioned(content, name, k) ensures k in FindAll(content, name, 0) {
        FindAllMissesNothing(content, name, 0, k);
      }
    }
  }

  lemma OverlapNeedsAt(name: Text, p: nat)
    requires OverlapsAt(name, p)
    ensures '@' in name
  {
    var t := Token(name);
    assert t[p..][0] == t[..|t| - p][0];
    assert name[p - 1] == t[p];
  }

  /** Names without '@' are of that kind. */
  lemma PlainNamesDoNotOverlap(name: Text)
    requires '@' !in name
    ensures !SelfOverlaps(name)
  {
    if p :| 0 < p < |Token(name)| && OverlapsAt(name, p) {
      OverlapNeedsAt(name, p);
    }
  }

  /** A name with '@' whose second mention is overlooked. */
  lemma OverlappingName()
    ensures SelfOverlaps("x @x")
    ensures Mentioned("@x @x @x", "x @x", 3) && 3 !in FindAll("@x @x @x", "x @x", 0)
  {
    var (content, t) := ("@x @x @x", Token("x @x"));
    assert t == "@x @x" && t[3..] == "@x" == t[..2];
    assert OverlapsAt("x @x", 3);
    assert content[0..5] == t && content[3..8] == t;
    assert Stands(content, t, 0) && Stands(content, t, 3);
    assert IndexOf(content, t, 0) == Some(0) && Bounded(content, 5, 0);
    FoundAreMentioned(content, "x @x", 5);
    assert FindAll(content, "x @x", 0) == [0] + FindAll(content, "x @x", 5);
  }

  // ------------------------------------------------------------ longest tokens

  datatype Candidate = Candidate(index: nat, name: Text)

  function CandidatesOf(name: Text, found: seq<nat>): (r: seq<Candidate>)
    ensures |r| == |found| && forall i :: 0 <= i < |found| ==> r[i] == Candidate(found[i], name)
  {
    seq(|found|, i requires 0 <= i < |found| => Candidate(found[i], name))
  }

  function Candidates(content: Text, names: seq<Text>): (r: seq<Candidate>)
    ensures forall c :: c in r <==> c.name in names && c.index in FindAll(content, c.name, 0)
  {
    if names == [] then []
    else
      var (before, last) := (names[..|names| - 1], names[|names| - 1]);
      assert names == before + [last];
      CandidatesIn(last, FindAll(content, last, 0));
      Candidates(content, before) + CandidatesOf(last, FindAll(content, last, 0))
  }

  lemma CandidatesIn(name: Text, found: seq<nat>)
    ensures forall c :: c in CandidatesOf(name, found) <==> c.name == name && c.index in found
  {
    forall c: Candidate | c.name == name && c.index in found ensures c in CandidatesOf(name, found) {
      var i :| 0 <= i < |found| && found[i] == c.index;
      assert CandidatesOf(name, found)[i] == c;
    }
  }

  /** The greatest name length at each index. */
  function Lengths(cs: seq<Candidate>): (r: map<nat, nat>) {
    if cs == [] then map[]
    else
      var (before, c) := (Lengths(cs[..|cs| - 1]), cs[|cs| - 1]);
      var known := if c.index in before then before[c.index] else 0;
      before[c.index := if |c.name| > known then |c.name| else known]
  }

  ghost predicate HasLength(cs: seq<Candidate>, i: nat, n: nat) {
    exists c :: c in cs && c.index == i && |c.name| == n
  }

  lemma {:induction false} LengthsAreGreatest(cs: seq<Candidate>)
    ensures forall c :: c in cs ==> c.index in Lengths(cs) && |c.name| <= Lengths(cs)[c.index]
    ensures forall i :: i in Lengths(cs) ==> HasLength(cs, i, Lengths(cs)[i])
  {
    if cs != [] {
      var (front, c) := (cs[..|cs| - 1], cs[|cs| - 1]);
      assert cs == front + [c];
      LengthsAreGreatest(front);
      assert c in cs;
      forall i | i in Lengths(cs) ensures HasLength(cs, i, Lengths(cs)[i]) {
        if i in Lengths(front) && Lengths(cs)[i] == Lengths(front)[i] {
          var d :| d in front && d.index == i && |d.name| == Lengths(front)[i];
          assert d in cs;
        }
      }
    }
  }

  predicate IsLongest(lengths: map<nat, nat>, c: Candidate) {
    c.index in lengths && lengths[c.index] == |c.name|
  }

  /** The indexes kept for `name`, in candidate order. */
  function Collect(cs: seq<Candidate>, lengths: map<nat, nat>, name: Text): (r: seq<nat>)
    ensures forall i :: i in r <==> Candidate(i, name) in cs && IsLongest(lengths, Candidate(i, name))
  {
    if cs == [] then []
    else
      var (before, c) := (Collect(cs[..|cs| - 1], lengths, name), cs[|cs| - 1]);
      assert cs == cs[..|cs| - 1] + [c];
      if c.name == name && IsLongest(lengths, c) then before + [c.index] else before
  }

  function Indexes(content: Text, names: seq<Text>, name: Text): (r: seq<nat>) {
    var cs := Candidates(content, names);
    Collect(cs, Lengths(cs), name)
  }

  predicate Distinct(names: seq<Text>) {
    forall i, k :: 0 <= i < k < |names| ==> names[i] != names[k]
  }

  method GreatestLengths(cs: seq<Candidate>) returns (lengths: map<nat, nat>)
    ensures lengths == Lengths(cs)
  {
    lengths := map[];
    for k := 0 to |cs|
      invariant lengths == Lengths(cs[..k])
    {
      assert cs[..k + 1][..k] == cs[..k];
      var known := if cs[k].index in lengths then lengths[cs[k].index] else 0;
      lengths := lengths[cs[k].index := if |cs[k].name| > known then |cs[k].name| else known];
    }
    assert cs[..|cs|] == cs;
  }

  ghost predicate Groups(r: map<Text, seq<nat>>, cs: seq<Candidate>, lengths: map<nat, nat>) {
    && (forall name :: name in r <==> Collect(cs, lengths, name) != [])
    && (forall name :: name in r ==> r[name] == Collect(cs, lengths, name))
  }

  /** One more candidate. */
  lemma CollectMore(cs: seq<Candidate>, c: Candidate, lengths: map<nat, nat>, name: Text)
    ensures Collect(cs + [c], lengths, name) ==
            if c.name == name && IsLongest(lengths, c) then Collect(cs, lengths, name) + [c.index]
              else Collect(cs, lengths, name)
  {
    assert (cs + [c])[..|cs|] == cs;
  }

  lemma GroupsGrow(r: map<Text, seq<nat>>, cs: seq<Candidate>, c: Candidate, lengths: map<nat, nat>)
    requires Groups(r, cs, lengths)
    ensures Groups(if IsLongest(lengths, c) then r[c.name := (if c.name in r then r[c.name] else []) + [c.index]]
              else r,
                   cs + [c], lengths)
  {
    forall name ensures Collect(cs + [c], lengths, name) ==
            if c.name == name && IsLongest(lengths, c) then Collect(cs, lengths, name) + [c.index]
              else Collect(cs, lengths, name)
    {
      CollectMore(cs, c, lengths, name);
    }
    hide Collect;
  }

  method GroupByName(cs: seq<Candidate>, lengths: map<nat, nat>) returns (r: map<Text, seq<nat>>)
    ensures Groups(r, cs, lengths)
  {
    r := map[];
    for k := 0 to |cs|
      invariant Groups(r, cs[..k], lengths)
    {
      GroupsGrow(r, cs[..k], cs[k], lengths);
      assert cs[..k + 1] == cs[..k] + [cs[k]];
      hide Groups;
      if IsLongest(lengths, cs[k]) {
        var indexes := if cs[k].name in r then r[cs[k].name] else [];
        r := r[cs[k].name := indexes + [cs[k].index]];
      }
    }
    assert cs[..|cs|] == cs;
  }

  lemma {:induction false} FindAllNext(content: Text, name: Text, from: nat)
    ensures FindAll(content, name, from) ==
            match Find(content, name, from)
            case None => []
            case Some(i) => [i] + FindAll(content, name, i + |Token(name)|)
    ensures from > |content| ==> FindAll(content, name, from) == []
  {
    hide Find, Mentioned;
  }

  method SearchAll(content: Text, name: Text) returns (found: seq<nat>)
    ensures found == FindAll(content, name, 0)
  {
    hide Find, FindAll;
    found := [];
    var from := 0;
    ghost var rest := FindAll(content, name, 0);
    while from <= |content|
      invariant rest == FindAll(content, name, from) && found + rest == FindAll(content, name, 0)
      decreases |content| + 1 - from
    {
      FindAllNext(content, name, from);
      var index := FindMentionToken(content, name, from);
      if index.None? {
        return;
      }
      found := found + [index.value];
      from := index.value + |name| + 1;
      rest := FindAll(content, name, from);
    }
    FindAllNext(content, name, from);
  }

  method FindCandidates(content: Text, names: seq<Text>) returns (cs: seq<Candidate>)
    ensures cs == Candidates(content, names)
  {
    cs := [];
    for n := 0 to |names|
      invariant cs == Candidates(content, names[..n])
    {
      assert names[..n + 1][..n] == names[..n];
      var found := SearchAll(content, names[n]);
      cs := cs + CandidatesOf(names[n], found);
    }
    assert names[..|names|] == names;
  }

  /** `longestMentionIndexes`.  The lists come out ascending, so the last loop of
      sorts changes nothing. */
  method LongestMentionIndexes(content: Text, names: seq<Text>) returns (r: map<Text, seq<nat>>)
    ensures forall name :: name in r <==> Indexes(content, names, name) != []
    ensures forall name :: name in r ==> r[name] == Indexes(content, names, name)
  {
    var cs := FindCandidates(content, names);
    var lengths := GreatestLengths(cs);
    r := GroupByName(cs, lengths);
  }

  // -------------------------------------------------------- exactly the longest

  /** `name` is the longest known name mentioned at `i`. */
  predicate Longest(content: Text, names: seq<Text>, name: Text, i: nat) {
    && name in names && Mentioned(content, name, i)
    && forall other :: other in names && Mentioned(content, other, i) ==> |other| <= |name|
  }

  predicate Plain(names: seq<Text>) {
    forall name :: name in names ==> !SelfOverlaps(name)
  }

  lemma FoundIffMentioned(content: Text, names: seq<Text>, name: Text, i: nat)
    requires Plain(names) && name in names
    ensures i in FindAll(content, name, 0) <==> Mentioned(content, name, i)
  {
    FoundAreMentioned(content, name, 0);
    if Mentioned(content, name, i) {
      FindAllMissesNothing(content, name, 0, i);
    }
  }

  /** A position is listed under a name exactly when that name is the longest
      known token there. */
  lemma IndexesAreLongest(content: Text, names: seq<Text>, name: Text, i: nat)
    requires Plain(names)
    ensures i in Indexes(content, names, name) <==> Longest(content, names, name, i)
  {
    var cs := Candidates(content, names);
    forall other, k: nat ensures Candidate(k, other) in cs <==> other in names && Mentioned(content, other, k) {
      if other in names {
        FoundIffMentioned(content, names, other, k);
      }
    }
    LengthsAreGreatest(cs);
    hide Candidates, Lengths, Mentioned, Collect, Plain;
    var c := Candidate(i, name);
    if c in cs && IsLongest(Lengths(cs), c) {
      forall other | other in names && Mentioned(content, other, i) ensures |other| <= |name| {
        assert Candidate(i, other) in cs;
      }
    }
    if Longest(content, names, name, i) {
      assert c in cs;
      var d :| d in cs && d.index == i && |d.name| == Lengths(cs)[i];
      assert d == Candidate(i, d.name);
    }
  }

  /** At most one name is listed for a position, for all names whatever. */
  lemma OneNamePerPosition(content: Text, names: seq<Text>, a: Text, b: Text, i: nat)
    requires i in Indexes(content, names, a) && i in Indexes(content, names, b)
    ensures a == b
  {
    FoundAreMentioned(content, a, 0);
    FoundAreMentioned(content, b, 0);
    assert Mentioned(content, a, i) && Mentioned(content, b, i);
    assert |a| == |b|;
    assert Token(a) == Token(b);
    assert a == Token(a)[1..] && b == Token(b)[1..];
  }

  /** Candidates for `name` come in ascending order. */
  predicate AscendingFor(cs: seq<Candidate>, name: Text) {
    forall i, k :: 0 <= i < k < |cs| && cs[i].name == name && cs[k].name == name ==> cs[i].index < cs[k].index
  }

  lemma {:induction false} CollectAscends(cs: seq<Candidate>, lengths: map<nat, nat>, name: Text)
    requires AscendingFor(cs, name)
    ensures Ascending(Collect(cs, lengths, name))
  {
    if cs != [] {
      var (front, c) := (cs[..|cs| - 1], cs[|cs| - 1]);
      CollectAscends(front, lengths, name);
      var before := Collect(front, lengths, name);
      if c.name == name {
        forall j | 0 <= j < |before| ensures before[j] < c.index {
          assert before[j] in before;
          var k :| 0 <= k < |front| && front[k] == Candidate(before[j], name);
          assert cs[k] == front[k];
        }
      }
    }
  }

  lemma AppendAscends(a: seq<Candidate>, b: seq<Candidate>, name: Text)
    requires AscendingFor(a, name) && AscendingFor(b, name)
    requires (forall i :: 0 <= i < |a| ==> a[i].name != name) || (forall i :: 0 <= i < |b| ==> b[i].name != name)
    ensures AscendingFor(a + b, name)
  {
  }

  lemma {:induction false} CandidatesAscend(content: Text, names: seq<Text>, name: Text)
    requires Distinct(names)
    ensures AscendingFor(Candidates(content, names), name)
  {
    if names != [] {
      var (front, last) := (names[..|names| - 1], names[|names| - 1]);
      CandidatesAscend(content, front, name);
      var (a, found) := (Candidates(content, front), FindAll(content, last, 0));
      forall i | 0 <= i < |a| ensures a[i].name != last {
        assert a[i] in a;
      }
      hide FindAll;
      FoundAreMentioned(content, last, 0);
      assert AscendingFor(CandidatesOf(last, found), name);
      AppendAscends(a, CandidatesOf(last, found), name);
    }
  }

  /** Every list of positions is strictly ascending. */
  lemma IndexesAscend(content: Text, names: seq<Text>, name: Text)
    requires Distinct(names)
    ensures Ascending(Indexes(content, names, name))
  {
    hide Candidates, Lengths, AscendingFor, Ascending, Collect;
    CandidatesAscend(content, names, name);
    CollectAscends(Candidates(content, names), Lengths(Candidates(content, names)), name);
  }
}
