/** The bounded breadth-first search of a window's control tree, against level order. */
module UiaSearch {

  const MAX_TREE_CONTROLS := 500
  const MAX_TREE_DEPTH := 8

  /** A control and its children, in the order the automation tree lists them. */
  datatype Control<!C> = Control(info: C, children: seq<Control<C>>)

  /** A queued control with the child indices that lead to it from the root. */
  datatype Visit<!C> = Visit(control: Control<C>, path: seq<nat>)

  function Depth<C>(v: Visit<C>): nat { |v.path| }

  function Kids<C>(v: Visit<C>): (r: seq<Visit<C>>) {
    if Depth(v) >= MAX_TREE_DEPTH then []
    else seq(|v.control.children|, i requires 0 <= i < |v.control.children| =>
               Visit(v.control.children[i], v.path + [i]))
  }

  function AllKids<C>(vs: seq<Visit<C>>): seq<Visit<C>> {
    if vs == [] then [] else Kids(vs[0]) + AllKids(vs[1..])
  }

  /** Level order from one level down: the level, then the level of its children, and so on. */
  function LevelsFrom<C>(level: seq<Visit<C>>, depth: nat): seq<Visit<C>>
    requires depth <= MAX_TREE_DEPTH
    decreases MAX_TREE_DEPTH - depth
  {
    if depth == MAX_TREE_DEPTH then level else level + LevelsFrom(AllKids(level), depth + 1)
  }

  /** The tree cut at the maximum depth, level by level, each level left to right. */
  function LevelOrder<C>(root: Control<C>): seq<Visit<C>> {
    LevelsFrom([Visit(root, [])], 0)
  }

  function Take<T>(s: seq<T>, n: nat): seq<T> { if n <= |s| then s[..n] else s }

  function Matching<C>(vs: seq<Visit<C>>, matches: C -> bool): seq<Visit<C>> {
    if vs == [] then []
    else (if matches(vs[0].control.info) then [vs[0]] else []) + Matching(vs[1..], matches)
  }

  /** The control the path leads to, if every index exists. */
  ghost predicate LeadsTo<C>(root: Control<C>, path: seq<nat>, target: Control<C>)
    decreases path
  {
    if path == [] then root == target
    else path[0] < |root.children| && LeadsTo(root.children[path[0]], path[1..], target)
  }

  // ---- Level order is what an unbounded queue visits ----

  /** `s` can be visited front to back by a queue that starts as `queue`: each control's children go to
      the back as it leaves. */
  ghost predicate QueueOrder<C>(queue: seq<Visit<C>>, s: seq<Visit<C>>)
    decreases |s|
  {
    if queue == [] then s == []
    else s != [] && s[0] == queue[0] && QueueOrder(queue[1..] + Kids(queue[0]), s[1..])
  }

  lemma {:induction false} AllKidsAppend<C>(a: seq<Visit<C>>, b: seq<Visit<C>>)
    ensures AllKids(a + b) == AllKids(a) + AllKids(b)
  {
    if a == [] {
      assert a + b == b;
    } else {
      assert (a + b)[1..] == a[1..] + b;
      AllKidsAppend(a[1..], b);
    }
  }

  lemma QueueOrderStep<C>(queue: seq<Visit<C>>, s: seq<Visit<C>>, queue': seq<Visit<C>>, s': seq<Visit<C>>)
    requires queue != [] && s != [] && queue' == queue[1..] + Kids(queue[0]) && s' == s[1..]
    ensures QueueOrder(queue, s) <==> s[0] == queue[0] && QueueOrder(queue', s')
  {}

  /** A queue holding the rest of one level and the children met so far goes through the level. */
  lemma {:induction false} QueueThroughLevel<C>(level: seq<Visit<C>>, next: seq<Visit<C>>, rest: seq<Visit<C>>)
    requires QueueOrder(next + AllKids(level), rest)
    ensures QueueOrder(level + next, level + rest)
    decreases |level|
  {
    hide Kids, QueueOrder;
    if level == [] {
      assert level + next == next + AllKids(level) && level + rest == rest;
    } else {
      var kids := Kids(level[0]);
      var deeper := next + kids;
      assert next + AllKids(level) == deeper + AllKids(level[1..]);
      QueueThroughLevel(level[1..], deeper, rest);
      var queue, s := level + next, level + rest;
      assert queue[0] == level[0] == s[0];
      assert queue[1..] + kids == level[1..] + deeper;
      assert s[1..] == level[1..] + rest;
      QueueOrderStep(queue, s, level[1..] + deeper, level[1..] + rest);
    }
  }

  ghost predicate AtDepth<C>(vs: seq<Visit<C>>, depth: nat) {
    forall i | 0 <= i < |vs| :: Depth(vs[i]) == depth
  }

  lemma {:induction false} KidsOneDeeper<C>(vs: seq<Visit<C>>, depth: nat)
    requires AtDepth(vs, depth)
    ensures AtDepth(AllKids(vs), depth + 1)
    ensures depth >= MAX_TREE_DEPTH ==> AllKids(vs) == []
  {
    if vs != [] { KidsOneDeeper(vs[1..], depth); }
  }

  lemma {:induction false} LevelsAreQueueOrder<C>(level: seq<Visit<C>>, depth: nat)
    requires depth <= MAX_TREE_DEPTH && AtDepth(level, depth)
    ensures QueueOrder(level, LevelsFrom(level, depth))
    decreases MAX_TREE_DEPTH - depth
  {
    hide Kids, AllKids, AtDepth;
    KidsOneDeeper(level, depth);
    var rest := if depth == MAX_TREE_DEPTH then [] else LevelsFrom(AllKids(level), depth + 1);
    if depth < MAX_TREE_DEPTH { LevelsAreQueueOrder(AllKids(level), depth + 1); }
    assert [] + AllKids(level) == AllKids(level);
    assert QueueOrder([] + AllKids(level), rest);
    hide QueueOrder;
    QueueThroughLevel(level, [], rest);
    assert level + [] == level && level + rest == LevelsFrom(level, depth);
  }

  /** What is queued comes next, in queue order. */
  lemma {:induction false} QueuedComeFirst<C>(queue: seq<Visit<C>>, s: seq<Visit<C>>)
    requires QueueOrder(queue, s)
    ensures queue <= s
    decreases |s|
  {
    if queue != [] {
      QueuedComeFirst(queue[1..] + Kids(queue[0]), s[1..]);
      var tail := queue[1..] + Kids(queue[0]);
      assert queue[1..] <= tail <= s[1..];
      assert queue == [queue[0]] + queue[1..] && s == [s[0]] + s[1..];
    }
  }

  // ---- The search ----

  lemma MatchingPush<C>(vs: seq<Visit<C>>, v: Visit<C>, matches: C -> bool)
    ensures Matching(vs + [v], matches) == Matching(vs, matches) + (if matches(v.control.info) then [v] else [])
    decreases |vs|
  {
    if vs == [] {
      assert vs + [v] == [v];
    } else {
      MatchingPush(vs[1..], v, matches);
      assert (vs + [v])[1..] == vs[1..] + [v];
    }
  }

  lemma {:induction false} MatchingPrefix<C>(a: seq<Visit<C>>, b: seq<Visit<C>>, matches: C -> bool)
    requires a <= b
    ensures Matching(a, matches) <= Matching(b, matches)
    decreases |a|
  {
    if a != [] {
      assert a[1..] <= b[1..] && a[0] == b[0];
      MatchingPrefix(a[1..], b[1..], matches);
      var head := if matches(a[0].control.info) then [a[0]] else [];
      assert Matching(a, matches) == head + Matching(a[1..], matches);
      assert Matching(b, matches) == head + Matching(b[1..], matches);
    } else {
      assert Matching(a, matches) == [];
    }
  }

  /** The bounded search keeps the queue a window of level order: everything, until the cap fills. */
  ghost predicate Window<C>(root: Control<C>, seen: seq<Visit<C>>, queue: seq<Visit<C>>) {
    var all := LevelOrder(root);
    && seen + queue <= all
    && |seen| + |queue| <= MAX_TREE_CONTROLS
    && (|seen| + |queue| == MAX_TREE_CONTROLS || QueueOrder(queue, all[|seen|..]))
  }

  lemma WindowStarts<C>(root: Control<C>)
    ensures Window(root, [], [Visit(root, [])])
  {
    var queue := [Visit(root, [])];
    LevelsAreQueueOrder(queue, 0);
    QueuedComeFirst(queue, LevelOrder(root));
    assert [] + queue == queue && LevelOrder(root)[0..] == LevelOrder(root);
  }

  lemma WindowStep<C>(root: Control<C>, seen: seq<Visit<C>>, queue: seq<Visit<C>>)
    requires Window(root, seen, queue) && queue != []
    ensures var capacity := MAX_TREE_CONTROLS - (|seen| + 1) - |queue[1..]|;
            && capacity >= 0
            && Window(root, seen + [queue[0]], queue[1..] + Take(Kids(queue[0]), capacity))
  {
    hide LevelOrder, Kids;
    var all := LevelOrder(root);
    var capacity := MAX_TREE_CONTROLS - (|seen| + 1) - |queue[1..]|;
    assert seen + queue == seen + [queue[0]] + queue[1..];
    if capacity == 0 {
      assert queue[1..] + Take(Kids(queue[0]), capacity) == queue[1..];
    } else {
      WindowRoom(all, seen, queue, capacity);
    }
  }

  lemma WindowRoom<C>(all: seq<Visit<C>>, seen: seq<Visit<C>>, queue: seq<Visit<C>>, capacity: nat)
    requires queue != [] && seen + queue <= all && QueueOrder(queue, all[|seen|..])
    ensures var seen', queue' := seen + [queue[0]], queue[1..] + Take(Kids(queue[0]), capacity);
            && seen' + queue' <= all
            && (|Kids(queue[0])| <= capacity ==> QueueOrder(queue', all[|seen'|..]))
  {
    hide Kids;
    QueuedComeFirst(queue, all[|seen|..]);
    var kids := Kids(queue[0]);
    var seen', queue' := seen + [queue[0]], queue[1..] + Take(kids, capacity);
    var rest := all[|seen'|..];
    assert rest == all[|seen|..][1..];
    QueueOrderStep(queue, all[|seen|..], queue[1..] + kids, rest);
    hide QueueOrder;
    QueuedComeFirst(queue[1..] + kids, rest);
    assert queue' <= queue[1..] + kids <= rest;
    assert seen' <= seen + queue <= all;
    assert all == seen' + rest;
    if |kids| <= capacity { assert queue' == queue[1..] + kids; }
  }

  lemma WindowPrefix<C>(root: Control<C>, seen: seq<Visit<C>>, queue: seq<Visit<C>>)
    requires Window(root, seen, queue)
    ensures seen <= Take(LevelOrder(root), MAX_TREE_CONTROLS)
  {
    assert seen <= seen + queue <= LevelOrder(root);
  }

  lemma WindowDone<C>(root: Control<C>, seen: seq<Visit<C>>, queue: seq<Visit<C>>)
    requires Window(root, seen, queue) && (queue == [] || |seen| >= MAX_TREE_CONTROLS)
    ensures seen == Take(LevelOrder(root), MAX_TREE_CONTROLS)
  {
    var all := LevelOrder(root);
    assert seen <= seen + queue <= all;
    if queue == [] && |seen| < MAX_TREE_CONTROLS {
      assert all[|seen|..] == [];
    } else {
      assert queue == [];
      assert seen == all[..MAX_TREE_CONTROLS];
    }
  }

  /** The loop that appends as many children as fit, with the path to each. */
  method Enqueue<C>(queue: seq<Visit<C>>, v: Visit<C>, capacity: nat) returns (queue': seq<Visit<C>>)
    requires Depth(v) < MAX_TREE_DEPTH
    ensures queue' == queue + Take(Kids(v), capacity)
  {
    var children := Take(v.control.children, capacity);
    queue' := queue;
    var i := 0;
    while i < |children|
      invariant 0 <= i <= |children|
      invariant queue' == queue + Kids(v)[..i]
    {
      queue' := queue' + [Visit(children[i], v.path + [i])];
      i := i + 1;
    }
  }

  /** `resolve`: exactly the first `limit` matching controls among the first 500 in level order of the
      tree cut at depth 8. */
  method Resolve<C>(root: Control<C>, matches: C -> bool, limit: int) returns (found: seq<Visit<C>>)
    ensures found == Take(Matching(Take(LevelOrder(root), MAX_TREE_CONTROLS), matches), if limit < 0 then 0 else limit)
  {
    hide LevelOrder, Window;
    var queue := [Visit(root, [])];
    var visited := 0;
    found := [];
    ghost var seen: seq<Visit<C>> := [];
    WindowStarts(root);
    while queue != [] && visited < MAX_TREE_CONTROLS && |found| < limit
      invariant visited == |seen| && visited + |queue| <= MAX_TREE_CONTROLS && Window(root, seen, queue)
      invariant found == Matching(seen, matches)
      invariant |found| <= if limit < 0 then 0 else limit
      decreases MAX_TREE_CONTROLS - visited
    {
      var v := queue[0];
      WindowStep(root, seen, queue);
      MatchingPush(seen, v, matches);
      seen := seen + [v];
      queue := queue[1..];
      visited := visited + 1;
      if matches(v.control.info) {
        found := found + [v];
      }
      var capacity := MAX_TREE_CONTROLS - visited - |queue|;
      if Depth(v) < MAX_TREE_DEPTH && capacity > 0 {
        queue := Enqueue(queue, v, capacity);
      } else {
        assert queue == queue + Take(Kids(v), capacity);
      }
    }
    var first := Take(LevelOrder(root), MAX_TREE_CONTROLS);
    if queue == [] || visited >= MAX_TREE_CONTROLS {
      WindowDone(root, seen, queue);
    } else {
      WindowPrefix(root, seen, queue);
      MatchingPrefix(seen, first, matches);
    }
  }

  // ---- Paths ----

  lemma {:induction false} LeadsToChild<C>(root: Control<C>, path: seq<nat>, parent: Control<C>, i: nat)
    requires LeadsTo(root, path, parent) && i < |parent.children|
    ensures LeadsTo(root, path + [i], parent.children[i])
    decreases path
  {
    if path == [] {
      assert path + [i] == [i] && [i][1..] == [];
    } else {
      LeadsToChild(root.children[path[0]], path[1..], parent, i);
      assert (path + [i])[1..] == path[1..] + [i];
    }
  }

  ghost predicate PathsLead<C>(root: Control<C>, vs: seq<Visit<C>>) {
    forall i | 0 <= i < |vs| :: LeadsTo(root, vs[i].path, vs[i].control) && Depth(vs[i]) <= MAX_TREE_DEPTH
  }

  lemma {:induction false} KidsPathsLead<C>(root: Control<C>, vs: seq<Visit<C>>)
    requires PathsLead(root, vs)
    ensures PathsLead(root, AllKids(vs))
  {
    if vs != [] {
      var v := vs[0];
      forall i | 0 <= i < |Kids(v)| ensures LeadsTo(root, Kids(v)[i].path, Kids(v)[i].control) {
        LeadsToChild(root, v.path, v.control, i);
      }
      KidsPathsLead(root, vs[1..]);
    }
  }

  lemma {:induction false} LevelsPathsLead<C>(root: Control<C>, level: seq<Visit<C>>, depth: nat)
    requires depth <= MAX_TREE_DEPTH && PathsLead(root, level)
    ensures PathsLead(root, LevelsFrom(level, depth))
    decreases MAX_TREE_DEPTH - depth
  {
    if depth < MAX_TREE_DEPTH {
      KidsPathsLead(root, level);
      LevelsPathsLead(root, AllKids(level), depth + 1);
    }
  }

  lemma {:induction false} MatchingFrom<C>(vs: seq<Visit<C>>, matches: C -> bool, v: Visit<C>)
    ensures v in Matching(vs, matches) <==> v in vs && matches(v.control.info)
    decreases |vs|
  {
    if vs != [] { MatchingFrom(vs[1..], matches, v); }
  }

  /** Every control the search returns matches, and its path navigates to it from the root in at most
      eight steps. */
  lemma FoundPathsLead<C>(root: Control<C>, matches: C -> bool, limit: nat)
    ensures forall v | v in Take(Matching(Take(LevelOrder(root), MAX_TREE_CONTROLS), matches), limit) ::
              matches(v.control.info) && LeadsTo(root, v.path, v.control) && |v.path| <= MAX_TREE_DEPTH
  {
    LevelsPathsLead(root, [Visit(root, [])], 0);
    var first := Take(LevelOrder(root), MAX_TREE_CONTROLS);
    forall v | v in Take(Matching(first, matches), limit)
      ensures matches(v.control.info) && LeadsTo(root, v.path, v.control) && |v.path| <= MAX_TREE_DEPTH
    {
      assert v in Matching(first, matches);
      MatchingFrom(first, matches, v);
      var i :| 0 <= i < |first| && first[i] == v;
      assert first[i] == LevelOrder(root)[i];
    }
  }

  // ---- Level order, without the queue ----

  /** First by length, then by the first index that differs. */
  predicate PathBefore(a: seq<nat>, b: seq<nat>) { |a| < |b| || (|a| == |b| && LexBefore(a, b)) }

  predicate LexBefore(a: seq<nat>, b: seq<nat>) {
    a != [] && b != [] && (a[0] < b[0] || (a[0] == b[0] && LexBefore(a[1..], b[1..])))
  }

  ghost predicate Ordered<C>(vs: seq<Visit<C>>) {
    forall i, j | 0 <= i < j < |vs| :: PathBefore(vs[i].path, vs[j].path)
  }

  lemma {:induction false} LexExtends(a: seq<nat>, b: seq<nat>, i: nat, j: nat)
    requires |a| == |b| && (LexBefore(a, b) || (a == b && i < j))
    ensures LexBefore(a + [i], b + [j])
  {
    if a != [] {
      assert (a + [i])[1..] == a[1..] + [i] && (b + [j])[1..] == b[1..] + [j];
      if a[0] == b[0] { LexExtends(a[1..], b[1..], i, j); }
    }
  }

  lemma {:induction false} KidHasParent<C>(vs: seq<Visit<C>>, k: nat) returns (n: nat, i: nat)
    requires k < |AllKids(vs)|
    ensures n < |vs| && i < |vs[n].control.children|
    ensures AllKids(vs)[k] == Visit(vs[n].control.children[i], vs[n].path + [i])
  {
    var first := Kids(vs[0]);
    if k < |first| {
      n, i := 0, k;
    } else {
      n, i := KidHasParent(vs[1..], k - |first|);
      n := n + 1;
    }
  }

  lemma {:induction false} KidsOrdered<C>(vs: seq<Visit<C>>, depth: nat)
    requires AtDepth(vs, depth) && Ordered(vs)
    ensures Ordered(AllKids(vs))
  {
    if vs != [] {
      var first, rest := Kids(vs[0]), AllKids(vs[1..]);
      var all: seq<Visit<C>> := first + rest;
      KidsOrdered(vs[1..], depth);
      forall i, j | 0 <= i < j < |all| ensures PathBefore(all[i].path, all[j].path) {
        if j < |first| {
          LexExtends(vs[0].path, vs[0].path, i, j);
        } else if i < |first| {
          var n, c := KidHasParent(vs[1..], j - |first|);
          assert PathBefore(vs[0].path, vs[n + 1].path);
          LexExtends(vs[0].path, vs[n + 1].path, i, c);
        }
      }
    }
  }

  lemma {:induction false} LevelsOrdered<C>(level: seq<Visit<C>>, depth: nat)
    requires depth <= MAX_TREE_DEPTH && AtDepth(level, depth) && Ordered(level)
    ensures Ordered(LevelsFrom(level, depth))
    ensures forall v | v in LevelsFrom(level, depth) :: Depth(v) >= depth
    decreases MAX_TREE_DEPTH - depth
  {
    if depth < MAX_TREE_DEPTH {
      KidsOneDeeper(level, depth);
      KidsOrdered(level, depth);
      LevelsOrdered(AllKids(level), depth + 1);
      var deeper := LevelsFrom(AllKids(level), depth + 1);
      var all: seq<Visit<C>> := level + deeper;
      assert LevelsFrom(level, depth) == all;
      hide LevelsFrom, AllKids, Kids;
      forall i, j | 0 <= i < j < |all| ensures PathBefore(all[i].path, all[j].path) {
        if j >= |level| && i < |level| { assert deeper[j - |level|] in deeper && Depth(level[i]) == depth; }
      }
    }
  }

  lemma {:induction false} KidIn<C>(vs: seq<Visit<C>>, v: Visit<C>, i: nat)
    requires v in vs && Depth(v) < MAX_TREE_DEPTH && i < |v.control.children|
    ensures Visit(v.control.children[i], v.path + [i]) in AllKids(vs)
  {
    if vs[0] == v {
      assert Kids(v)[i] == Visit(v.control.children[i], v.path + [i]);
    } else {
      KidIn(vs[1..], v, i);
    }
  }

  /** What a path leads to from a control of this level is in this level or below. */
  lemma {:induction false} Descends<C>(level: seq<Visit<C>>, depth: nat, u: Visit<C>, rest: seq<nat>, v: Visit<C>)
    requires u in level && Depth(u) == depth && depth + |rest| <= MAX_TREE_DEPTH
    requires LeadsTo(u.control, rest, v.control) && v.path == u.path + rest
    ensures v in LevelsFrom(level, depth)
    decreases rest
  {
    if rest == [] {
      assert v == u;
    } else {
      var kid := Visit(u.control.children[rest[0]], u.path + [rest[0]]);
      KidIn(level, u, rest[0]);
      assert v.path == kid.path + rest[1..];
      Descends(AllKids(level), depth + 1, kid, rest[1..], v);
    }
  }

  /** Level order holds exactly what paths of at most eight indices lead to, each once, by length of the path
      and then left to right: there is only one such sequence. */
  lemma LevelOrderExact<C(!new)>(root: Control<C>)
    ensures forall v: Visit<C> :: v in LevelOrder(root) <==> |v.path| <= MAX_TREE_DEPTH && LeadsTo(root, v.path, v.control)
    ensures Ordered(LevelOrder(root))
  {
    var level := [Visit(root, [])];
    LevelsPathsLead(root, level, 0);
    LevelsOrdered(level, 0);
    forall v: Visit<C> | v in LevelOrder(root) ensures |v.path| <= MAX_TREE_DEPTH && LeadsTo(root, v.path, v.control) {
      var i :| 0 <= i < |LevelOrder(root)| && LevelOrder(root)[i] == v;
    }
    forall v: Visit<C> | |v.path| <= MAX_TREE_DEPTH && LeadsTo(root, v.path, v.control) ensures v in LevelOrder(root) {
      Descends(level, 0, level[0], v.path, v);
    }
  }

  lemma {:induction false} LexAsymmetric(a: seq<nat>, b: seq<nat>)
    requires LexBefore(a, b)
    ensures !LexBefore(b, a) && a != b
  {
    if a[0] == b[0] { LexAsymmetric(a[1..], b[1..]); }
  }

  lemma {:induction false} MatchingOrdered<C>(vs: seq<Visit<C>>, matches: C -> bool)
    requires Ordered(vs)
    ensures Ordered(Matching(vs, matches))
    decreases |vs|
  {
    if vs != [] {
      assert Ordered(vs[1..]);
      MatchingOrdered(vs[1..], matches);
      var rest := Matching(vs[1..], matches);
      forall k | 0 <= k < |rest| ensures PathBefore(vs[0].path, rest[k].path) {
        MatchingFrom(vs[1..], matches, rest[k]);
        var i :| 0 <= i < |vs[1..]| && vs[1..][i] == rest[k];
        assert vs[i + 1] == rest[k];
      }
    }
  }

  lemma Taken<T>(s: seq<T>, n: nat, i: nat)
    requires i < |s|
    ensures i < n ==> s[i] in Take(s, n)
  {
    if i < n && n <= |s| { assert s[..n][i] == s[i]; }
  }

  /** What `resolve` returns, of the tree alone: matching controls in level order; and a matching control within
      reach is missing only if the limit was used up by controls before it, or 500 controls come before it. */
  lemma FoundExactly<C(!new)>(root: Control<C>, matches: C -> bool, limit: nat, v: Visit<C>)
    requires |v.path| <= MAX_TREE_DEPTH && LeadsTo(root, v.path, v.control) && matches(v.control.info)
    ensures var found := Take(Matching(Take(LevelOrder(root), MAX_TREE_CONTROLS), matches), limit);
            && Ordered(found)
            && (v !in found ==>
                  || (|found| == limit && forall i | 0 <= i < |found| :: PathBefore(found[i].path, v.path))
                  || (|LevelOrder(root)| > MAX_TREE_CONTROLS
                      && forall i | 0 <= i < MAX_TREE_CONTROLS :: PathBefore(LevelOrder(root)[i].path, v.path)))
  {
    LevelOrderExact(root);
    hide LevelOrder, LeadsTo, PathBefore, Ordered;
    FirstFound(LevelOrder(root), matches, limit, v);
  }

  lemma FirstFound<C(!new)>(all: seq<Visit<C>>, matches: C -> bool, limit: nat, v: Visit<C>)
    requires Ordered(all) && v in all && matches(v.control.info)
    ensures var found := Take(Matching(Take(all, MAX_TREE_CONTROLS), matches), limit);
            && Ordered(found)
            && (v !in found ==>
                  || (|found| == limit && forall i | 0 <= i < |found| :: PathBefore(found[i].path, v.path))
                  || (|all| > MAX_TREE_CONTROLS
                      && forall i | 0 <= i < MAX_TREE_CONTROLS :: PathBefore(all[i].path, v.path)))
  {
    var first := Take(all, MAX_TREE_CONTROLS);
    hide PathBefore;
    MatchingOrdered(first, matches);
    var hits := Matching(first, matches);
    var i :| 0 <= i < |all| && all[i] == v;
    if i < MAX_TREE_CONTROLS {
      Taken(all, MAX_TREE_CONTROLS, i);
      MatchingFrom(first, matches, v);
      var k :| 0 <= k < |hits| && hits[k] == v;
      if k < limit { Taken(hits, limit, k); }
    }
  }
}
