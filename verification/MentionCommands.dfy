/**
 What mentions are used for: resolving the agents a message commands, and
 keeping selected agents only while their mentions stay visible.
 */
module MentionCommands {
  import opened Wrappers
  import opened Mentions

  datatype Agent = Agent(id: nat, name: Text)

  /** The names in order of first appearance. */
  function Names(agents: seq<Agent>): (names: seq<Text>)
    ensures Distinct(names)
  {
    if agents == [] then []
    else
      var (front, last) := (Names(agents[..|agents| - 1]), agents[|agents| - 1]);
      if last.name in front then front else front + [last.name]
  }

  /** The agents that share a name, in order. */
  function Group(agents: seq<Agent>, name: Text): (r: seq<Agent>) {
    if agents == [] then []
    else
      var (front, last) := (Group(agents[..|agents| - 1], name), agents[|agents| - 1]);
      if last.name == name then front + [last] else front
  }

  predicate Eligible(agents: seq<Agent>, id: nat) {
    exists i :: 0 <= i < |agents| && agents[i].id == id
  }

  predicate SomeEligible(agents: seq<Agent>, group: seq<Agent>) {
    exists i :: 0 <= i < |group| && Eligible(agents, group[i].id)
  }

  datatype Match = Match(index: nat, name: Text)

  /** `m.index` is the first position at which `m.name` is listed. */
  predicate FirstMention(content: Text, known: seq<Agent>, m: Match) {
    && Indexes(content, Names(known), m.name) != []
    && m.index == Indexes(content, Names(known), m.name)[0]
  }

  /** For names that do not overlap themselves this is the least position where
      the name is the longest one mentioned. */
  lemma FirstMentionIsLeast(content: Text, known: seq<Agent>, m: Match)
    requires Plain(Names(known))
    ensures FirstMention(content, known, m) <==>
              && Longest(content, Names(known), m.name, m.index)
              && forall k: nat :: k < m.index ==> !Longest(content, Names(known), m.name, k)
  {
    var found := Indexes(content, Names(known), m.name);
    forall k: nat ensures k in found <==> Longest(content, Names(known), m.name, k) {
      IndexesAreLongest(content, Names(known), m.name, k);
    }
    IndexesAscend(content, Names(known), m.name);
    LeastIsFirst(found, m.index, iset k: nat | Longest(content, Names(known), m.name, k));
  }

  lemma LeastIsFirst(found: seq<nat>, i: nat, good: iset<nat>)
    requires Ascending(found) && forall k: nat :: k in found <==> k in good
    ensures (found != [] && i == found[0]) <==> (i in good && forall k: nat :: k < i ==> k !in good)
  {
    if found != [] {
      assert found[0] in found;
    }
    if i in good {
      var n :| 0 <= n < |found| && found[n] == i;
    }
  }

  /** The name belongs to one known agent and that agent is eligible. */
  predicate Resolves(content: Text, agents: seq<Agent>, known: seq<Agent>, m: Match) {
    && m.name in Names(known) && FirstMention(content, known, m)
    && |Group(known, m.name)| == 1 && Eligible(agents, Group(known, m.name)[0].id)
  }

  /** The name belongs to several known agents, one of them eligible. */
  predicate Doubtful(content: Text, agents: seq<Agent>, known: seq<Agent>, m: Match) {
    && m.name in Names(known) && FirstMention(content, known, m)
    && |Group(known, m.name)| > 1 && SomeEligible(agents, Group(known, m.name))
  }

  // ------------------------------------------------------------------ sorting

  predicate Rising(ms: seq<Match>) {
    forall i, k :: 0 <= i < k < |ms| ==> ms[i].index < ms[k].index
  }

  predicate Apart(ms: seq<Match>) {
    forall i, k :: 0 <= i < k < |ms| ==> ms[i].index != ms[k].index
  }

  function Insert(m: Match, ms: seq<Match>): (r: seq<Match>)
    ensures |r| == |ms| + 1 && forall x :: x in r <==> x == m || x in ms
  {
    if ms == [] || m.index < ms[0].index then [m] + ms else [ms[0]] + Insert(m, ms[1..])
  }

  lemma {:induction false} InsertRises(m: Match, ms: seq<Match>)
    requires Rising(ms) && forall i :: 0 <= i < |ms| ==> ms[i].index != m.index
    ensures Rising(Insert(m, ms))
  {
    if ms != [] && m.index >= ms[0].index {
      InsertRises(m, ms[1..]);
      var rest := Insert(m, ms[1..]);
      forall i | 0 <= i < |rest| ensures ms[0].index < rest[i].index {
        assert rest[i] in rest;
        assert rest[i] == m || rest[i] in ms[1..];
      }
    }
  }

  /** The sort by index. */
  function Sort(ms: seq<Match>): (r: seq<Match>)
    ensures |r| == |ms| && forall x :: x in r <==> x in ms
  {
    if ms == [] then [] else Insert(ms[|ms| - 1], Sort(ms[..|ms| - 1]))
  }

  lemma {:induction false} SortRises(ms: seq<Match>)
    requires Apart(ms)
    ensures Rising(Sort(ms))
  {
    if ms != [] {
      var (front, last) := (ms[..|ms| - 1], ms[|ms| - 1]);
      SortRises(front);
      forall i | 0 <= i < |Sort(front)| ensures Sort(front)[i].index != last.index {
        assert Sort(front)[i] in front;
      }
      InsertRises(last, Sort(front));
    }
  }

  // ------------------------------------------------------------------ resolve

  /** Different names are first listed at different positions. */
  lemma {:induction false} FirstsDiffer(content: Text, known: seq<Agent>, a: Match, b: Match)
    requires FirstMention(content, known, a) && FirstMention(content, known, b) && a.name != b.name
    ensures a.index != b.index
  {
    if a.index == b.index {
      OneNamePerPosition(content, Names(known), a.name, b.name, a.index);
    }
  }

  function Ids(agents: seq<Agent>): (ids: seq<nat>)
    ensures forall i, k :: 0 <= i < k < |ids| ==> ids[i] != ids[k]
    ensures forall id :: id in ids <==> Eligible(agents, id)
  {
    if agents == [] then []
    else
      var (front, last) := (Ids(agents[..|agents| - 1]), agents[|agents| - 1]);
      assert forall id :: Eligible(agents, id) <==> id == last.id || Eligible(agents[..|agents| - 1], id) by {
        EligibleFront(agents);
      }
      if last.id in front then front else front + [last.id]
  }

  lemma EligibleFront(agents: seq<Agent>)
    requires agents != []
    ensures forall id :: Eligible(agents, id) <==> id == agents[|agents| - 1].id || Eligible(agents[..|agents| - 1], id)
  {
    var front := agents[..|agents| - 1];
    assert forall i :: 0 <= i < |front| ==> front[i] == agents[i];
    forall id | Eligible(agents, id) && id != agents[|agents| - 1].id ensures Eligible(front, id) {
      var i :| 0 <= i < |agents| && agents[i].id == id;
      assert front[i].id == id;
    }
  }

  /** The matches among the names in `done`. */
  ghost predicate Matched(content: Text, agents: seq<Agent>, known: seq<Agent>, done: seq<Text>, ms: seq<Match>) {
    Apart(ms) && forall m :: m in ms <==> m.name in done && Resolves(content, agents, known, m)
  }

  /** The ambiguous ones among the names in `done`. */
  ghost predicate Doubted(content: Text, agents: seq<Agent>, known: seq<Agent>, done: seq<Text>, ms: seq<Match>) {
    Apart(ms) && forall m :: m in ms <==> m.name in done && Doubtful(content, agents, known, m)
  }

  lemma {:induction false} FirstIsUnique(content: Text, known: seq<Agent>, a: Match, b: Match)
    requires FirstMention(content, known, a) && FirstMention(content, known, b) && a.name == b.name
    ensures a == b
  {
  }

  /** One more name: at most its one match joins the list. */
  lemma Extend(ms: seq<Match>, m: Match, done: seq<Text>, good: iset<Match>)
    requires Apart(ms) && (forall x :: x in ms <==> x.name in done && x in good) && m.name !in done
    requires forall x :: x in good && x.name == m.name ==> x == m
    requires forall x :: x in ms ==> x.index != m.index
    ensures var next := if m in good then ms + [m] else ms;
            Apart(next) && forall x :: x in next <==> x.name in done + [m.name] && x in good
  {
    assert forall i :: 0 <= i < |ms| ==> ms[i] in ms;
  }

  lemma {:induction false} MatchMore(content: Text, agents: seq<Agent>, known: seq<Agent>, done: seq<Text>,
      ms: seq<Match>, m: Match)
    requires Matched(content, agents, known, done, ms)
    requires m.name !in done && m.name in Names(known) && FirstMention(content, known, m)
    ensures var group := Group(known, m.name);
            Matched(content, agents, known, done + [m.name],
                if |group| == 1 && Eligible(agents, group[0].id) then ms + [m] else ms)
  {
    GroupOf(known, m.name);
    hide Names, Group, Eligible, SomeEligible, FirstMention;
    forall x: Match | Resolves(content, agents, known, x) ensures x.name == m.name ==> x == m {
      if x.name == m.name { FirstIsUnique(content, known, x, m); }
    }
    forall x | x in ms ensures x.index != m.index {
      FirstsDiffer(content, known, x, m);
    }
    Extend(ms, m, done, iset x | Resolves(content, agents, known, x));
  }

  lemma {:induction false} DoubtMore(content: Text, agents: seq<Agent>, known: seq<Agent>, done: seq<Text>,
      ms: seq<Match>, m: Match)
    requires Doubted(content, agents, known, done, ms)
    requires m.name !in done && m.name in Names(known) && FirstMention(content, known, m)
    ensures var group := Group(known, m.name);
            Doubted(content, agents, known, done + [m.name],
                if |group| > 1 && SomeEligible(agents, group) then ms + [m] else ms)
  {
    GroupOf(known, m.name);
    hide Names, Group, Eligible, SomeEligible, FirstMention;
    forall x: Match | Doubtful(content, agents, known, x) ensures x.name == m.name ==> x == m {
      if x.name == m.name { FirstIsUnique(content, known, x, m); }
    }
    forall x | x in ms ensures x.index != m.index {
      FirstsDiffer(content, known, x, m);
    }
    Extend(ms, m, done, iset x | Doubtful(content, agents, known, x));
  }

  lemma {:induction false} NoneMore(content: Text, agents: seq<Agent>, known: seq<Agent>, done: seq<Text>, name: Text,
                 matches: seq<Match>, doubts: seq<Match>)
    requires Matched(content, agents, known, done, matches) && Doubted(content, agents, known, done, doubts)
    requires Indexes(content, Names(known), name) == []
    ensures Matched(content, agents, known, done + [name], matches)
    ensures Doubted(content, agents, known, done + [name], doubts)
  {
    hide Names, Indexes, Group, Eligible, SomeEligible;
  }

  /** `resolveExactMentionCommands`.  Unless `@all` is mentioned, `picked` lists
      the names that resolve, by their first position, and the answer their one
      agent each; likewise `doubtful` for the ambiguous names. */
  method ResolveExactMentionCommands(content: Text, agents: seq<Agent>, known: seq<Agent>)
    returns (ids: seq<nat>, ambiguous: seq<Text>, usesAll: bool, ghost picked: seq<Match>, ghost doubtful: seq<Match>)
    ensures usesAll <==> Find(content, "all", 0).Some?
    ensures usesAll ==> ids == Ids(agents) && ambiguous == []
    ensures !usesAll ==> Rising(picked) && Rising(doubtful)
    ensures !usesAll ==> forall m :: m in picked <==> Resolves(content, agents, known, m)
    ensures !usesAll ==> forall m :: m in doubtful <==> Doubtful(content, agents, known, m)
    ensures !usesAll ==> |ids| == |picked| && forall i :: 0 <= i < |picked| ==>
              |Group(known, picked[i].name)| == 1 && ids[i] == Group(known, picked[i].name)[0].id
    ensures !usesAll ==>
              |ambiguous| == |doubtful| && forall i :: 0 <= i < |doubtful| ==> ambiguous[i] == doubtful[i].name
  {
    hide Find, Indexes;
    picked, doubtful := [], [];
    var all := FindMentionToken(content, "all", 0);
    if all.Some? {
      return Ids(agents), [], true, [], [];
    }
    var names := Names(known);
    var indexes := LongestMentionIndexes(content, names);
    var matches, doubts := Classify(content, agents, known, names, indexes);
    SortRises(matches);
    SortRises(doubts);
    var sorted, sortedDoubts := Sort(matches), Sort(doubts);
    forall i | 0 <= i < |sorted| ensures Resolves(content, agents, known, sorted[i]) {
      assert sorted[i] in matches;
    }
    ids := seq(
      |sorted|,
      i requires 0 <= i < |sorted| && |Group(known, sorted[i].name)| == 1 => Group(known, sorted[i].name)[0].id);
    ambiguous := seq(|sortedDoubts|, i requires 0 <= i < |sortedDoubts| => sortedDoubts[i].name);
    usesAll, picked, doubtful := false, sorted, sortedDoubts;
  }

  method Classify(content: Text, agents: seq<Agent>, known: seq<Agent>, names: seq<Text>, indexes: map<Text, seq<nat>>)
    returns (matches: seq<Match>, doubts: seq<Match>)
    requires names == Names(known)
    requires forall name :: name in indexes <==> Indexes(content, names, name) != []
    requires forall name :: name in indexes ==> indexes[name] == Indexes(content, names, name)
    ensures Matched(content, agents, known, names, matches) && Doubted(content, agents, known, names, doubts)
  {
    matches, doubts := [], [];
    hide Indexes, Names, Matched, Doubted, Group, Eligible, SomeEligible;
    NothingYet(content, agents, known);
    for k := 0 to |names|
      invariant Matched(content, agents, known, names[..k], matches)
      invariant Doubted(content, agents, known, names[..k], doubts)
    {
      var name := names[k];
      NewName(names, k);
      if name !in indexes {
        NoneMore(content, agents, known, names[..k], name, matches, doubts);
        continue;
      }
      var m := Match(indexes[name][0], name);
      MatchMore(content, agents, known, names[..k], matches, m);
      DoubtMore(content, agents, known, names[..k], doubts, m);
      var group := Group(known, name);
      GroupOf(known, name);
      if |group| > 1 {
        if SomeEligible(agents, group) {
          doubts := doubts + [m];
        }
        continue;
      }
      if Eligible(agents, group[0].id) {
        matches := matches + [m];
      }
    }
    assert names[..|names|] == names;
  }

  lemma {:induction false} NothingYet(content: Text, agents: seq<Agent>, known: seq<Agent>)
    ensures Matched(content, agents, known, [], []) && Doubted(content, agents, known, [], [])
  {
  }

  lemma NewName(names: seq<Text>, k: nat)
    requires Distinct(names) && k < |names|
    ensures names[k] !in names[..k] && names[..k + 1] == names[..k] + [names[k]]
  {
  }

  lemma {:induction false} GroupOf(agents: seq<Agent>, name: Text)
    requires name in Names(agents)
    ensures Group(agents, name) != []
  {
    if agents[|agents| - 1].name != name {
      GroupOf(agents[..|agents| - 1], name);
    }
  }

  // ------------------------------------------------------------------- retain

  function NameFor(agents: seq<Agent>, id: nat): (r: Option<Text>) {
    if agents == [] then None else if agents[0].id == id then Some(agents[0].name) else NameFor(agents[1..], id)
  }

  /** How many of the ids stand for `name`. */
  function Requests(agents: seq<Agent>, ids: seq<nat>, name: Text): (n: nat) {
    if ids == [] then 0
    else Requests(agents, ids[..|ids| - 1], name) + if NameFor(agents, ids[|ids| - 1]) == Some(name) then 1 else 0
  }

  function Visible(content: Text, agents: seq<Agent>, name: Text): (n: nat) {
    |Indexes(content, Names(agents), name)|
  }

  /** A requested id stays exactly when fewer ids before it asked for its name
      than mentions of that name are visible. */
  function Retained(content: Text, agents: seq<Agent>, ids: seq<nat>): (kept: seq<nat>) {
    if ids == [] then []
    else
      var (front, id) := (ids[..|ids| - 1], ids[|ids| - 1]);
      match NameFor(agents, id)
      case None => Retained(content, agents, front)
      case Some(name) =>
        if Requests(agents, front, name) < Visible(content, agents, name)
        then Retained(content, agents, front) + [id] else Retained(content, agents, front)
  }

  predicate Subsequence(a: seq<nat>, b: seq<nat>)
    decreases |b|
  {
    if a == [] then true
    else if b == [] then false
    else if a[|a| - 1] == b[|b| - 1] then Subsequence(a[..|a| - 1], b[..|b| - 1])
    else Subsequence(a, b[..|b| - 1])
  }

  /** The kept ids are exactly as many per name as are both requested and
      visible. */
  lemma {:induction false} RetainedCounts(content: Text, agents: seq<Agent>, ids: seq<nat>, name: Text)
    ensures var (wanted, seen) := (Requests(agents, ids, name), Visible(content, agents, name));
            Requests(agents, Retained(content, agents, ids), name) == if wanted < seen then wanted else seen
  {
    hide Visible;
    if ids != [] {
      var (front, id) := (ids[..|ids| - 1], ids[|ids| - 1]);
      RetainedCounts(content, agents, front, name);
      var kept := Retained(content, agents, front);
      assert (kept + [id])[..|kept|] == kept;
    }
  }

  lemma {:induction false} SubsequenceShrinks(a: seq<nat>, b: seq<nat>)
    requires Subsequence(a, b) && a != []
    ensures Subsequence(a[..|a| - 1], b)
    decreases |b|
  {
    if a[|a| - 1] == b[|b| - 1] {
      var (c, d) := (a[..|a| - 1], b[..|b| - 1]);
      if c != [] && c[|c| - 1] == b[|b| - 1] {
        SubsequenceShrinks(c, d);
      }
    } else {
      SubsequenceShrinks(a, b[..|b| - 1]);
      var (c, d) := (a[..|a| - 1], b[..|b| - 1]);
      if c != [] && c[|c| - 1] == b[|b| - 1] {
        SubsequenceShrinks(c, d);
      }
    }
  }

  lemma SubsequenceGrows(a: seq<nat>, b: seq<nat>, id: nat)
    requires Subsequence(a, b)
    ensures Subsequence(a + [id], b + [id]) && Subsequence(a, b + [id])
  {
    assert (a + [id])[..|a|] == a && (b + [id])[..|b|] == b;
    if a != [] && a[|a| - 1] == id {
      SubsequenceShrinks(a, b);
    }
  }

  /** The kept ids are some of the requested ones, in the same order. */
  lemma {:induction false} RetainedIsSubsequence(content: Text, agents: seq<Agent>, ids: seq<nat>)
    ensures Subsequence(Retained(content, agents, ids), ids)
  {
    if ids != [] {
      var (front, id) := (ids[..|ids| - 1], ids[|ids| - 1]);
      RetainedIsSubsequence(content, agents, front);
      SubsequenceGrows(Retained(content, agents, front), front, id);
      assert front + [id] == ids;
    }
  }

  /** What is left for a name after `done` requests. */
  ghost predicate LeftOver(content: Text, agents: seq<Agent>, visible: map<Text, seq<nat>>, remaining: map<Text, nat>,
                           done: seq<nat>, name: Text)
  {
    var left := if name in remaining then remaining[name] else if name in visible then |visible[name]| else 0;
    var (asked, seen) := (Requests(agents, done, name), Visible(content, agents, name));
    left == if asked < seen then seen - asked else 0
  }

  /** `retainVisibleMentionIds`. */
  method RetainVisibleMentionIds(content: Text, ids: seq<nat>, agents: seq<Agent>) returns (kept: seq<nat>)
    ensures kept == Retained(content, agents, ids)
  {
    hide Indexes;
    var visible := LongestMentionIndexes(content, Names(agents));
    var remaining: map<Text, nat> := map[];
    kept := [];
    for k := 0 to |ids|
      invariant kept == Retained(content, agents, ids[..k])
      invariant forall name :: LeftOver(content, agents, visible, remaining, ids[..k], name)
    {
      ghost var done := ids[..k + 1];
      assert done[..k] == ids[..k];
      var named := NameFor(agents, ids[k]);
      ghost var before := remaining;
      if named.Some? {
        var name := named.value;
        assert LeftOver(content, agents, visible, remaining, ids[..k], name);
        var left := if name in remaining then remaining[name] else if name in visible then |visible[name]| else 0;
        if left != 0 {
          remaining := remaining[name := left - 1];
          kept := kept + [ids[k]];
        }
      }
      forall name ensures LeftOver(content, agents, visible, remaining, done, name) {
        assert LeftOver(content, agents, visible, before, ids[..k], name);
      }
    }
    assert ids[..|ids|] == ids;
  }
}
