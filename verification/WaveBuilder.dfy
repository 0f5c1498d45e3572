/** The compiler's own wave construction: Kahn's algorithm by in-degree counters, which gives
    up where `_rebuild_waves` would break a cycle. */
module WaveBuilder {
  import opened Ids
  import opened Graphs
  import opened Plan
  import opened WaveScheduler
  import opened WaveTheorems
  import opened FanOutTheorems

  // ------------------------------------------------------------------
  // Levels by raw dependencies
  // ------------------------------------------------------------------

  /** How many entries of a dependency list are not in `done`; repeated entries count again. */
  function Missing(deps: seq<string>, done: set<string>): nat {
    if deps == [] then 0 else (if deps[0] in done then 0 else 1) + Missing(deps[1..], done)
  }

  function MissingOf(nodes: Nodes, n: string, done: set<string>): nat
    requires n in nodes
  {
    Missing(nodes[n].dependsOn, done)
  }

  /** The nodes that become ready when `done` is done. */
  function NextRaw(nodes: Nodes, done: set<string>): set<string> {
    set n | n in nodes && n !in done && MissingOf(nodes, n, done) == 0
  }

  function RawLevels(nodes: Nodes, done: set<string>): seq<set<string>>
    decreases nodes.Keys - done
  {
    var next := NextRaw(nodes, done);
    if next == {} then [] else [next] + RawLevels(nodes, done + next)
  }

  /** Everything that ever becomes ready. */
  function RawDone(nodes: Nodes, done: set<string>): set<string>
    decreases nodes.Keys - done
  {
    var next := NextRaw(nodes, done);
    if next == {} then done else RawDone(nodes, done + next)
  }

  lemma {:induction false} MissingZero(deps: seq<string>, done: set<string>)
    ensures Missing(deps, done) == 0 <==> forall d | d in deps :: d in done
  {
    if deps != [] {
      MissingZero(deps[1..], done);
    }
  }

  lemma {:induction false} MissingLess(deps: seq<string>, done: set<string>, d: string)
    requires d !in done
    ensures Missing(deps, done) == Missing(deps, done + {d}) + multiset(deps)[d]
  {
    if deps != [] {
      MissingLess(deps[1..], done, d);
      assert deps == [deps[0]] + deps[1..];
    }
  }

  lemma {:induction false} MissingShrinks(deps: seq<string>, done: set<string>, more: set<string>)
    ensures Missing(deps, done + more) <= Missing(deps, done)
  {
    if deps != [] {
      MissingShrinks(deps[1..], done, more);
    }
  }

  // ------------------------------------------------------------------
  // The order inside a wave
  // ------------------------------------------------------------------

  function Pos(order: seq<string>, n: string): (i: nat)
    requires n in order
    ensures i < |order| && order[i] == n
  {
    if order[0] == n then 0 else 1 + Pos(order[1..], n)
  }

  lemma {:induction false} PosOf(order: seq<string>, k: nat)
    requires Distinct(order) && k < |order|
    ensures Pos(order, order[k]) == k
  {
    if k > 0 {
      PosOf(order[1..], k - 1);
    }
  }

  /** The last place in `wave` of a dependency, or -1. */
  function LastDep(deps: seq<string>, wave: seq<string>): int {
    if wave == [] then -1
    else if wave[|wave| - 1] in deps then |wave| - 1
    else LastDep(deps, wave[..|wave| - 1])
  }

  /** `a` is queued before `b`: its last dependency in the wave finishes first or, when one node
      frees both, it comes first in iteration order. */
  predicate Earlier(nodes: Nodes, order: seq<string>, wave: seq<string>, a: string, b: string)
    requires a in nodes && b in nodes && a in order && b in order
  {
    var i, j := LastDep(nodes[a].dependsOn, wave), LastDep(nodes[b].dependsOn, wave);
    i < j || (i == j && Pos(order, a) < Pos(order, b))
  }

  lemma {:induction false} LastDepIs(deps: seq<string>, wave: seq<string>)
    ensures var k := LastDep(deps, wave);
            && -1 <= k < |wave| && (k >= 0 ==> wave[k] in deps)
            && forall m | k < m < |wave| :: wave[m] !in deps
  {
    if wave != [] {
      LastDepIs(deps, wave[..|wave| - 1]);
    }
  }

  /** A member of the wave that `later` waits for, with none after it that `sooner` waits for. */
  predicate Outlasts(wave: seq<string>, later: seq<string>, sooner: seq<string>) {
    exists k | 0 <= k < |wave| :: wave[k] in later && forall m | k <= m < |wave| :: wave[m] !in sooner
  }

  /** The order of a queue: by the dependency that finishes last, then by iteration order. */
  lemma EarlierIff(nodes: Nodes, order: seq<string>, wave: seq<string>, i: nat, j: nat)
    requires Distinct(order) && i < |order| && j < |order| && order[i] in nodes && order[j] in nodes
    ensures var a, b := nodes[order[i]].dependsOn, nodes[order[j]].dependsOn;
            Earlier(nodes, order, wave, order[i], order[j]) <==>
            Outlasts(wave, b, a) || (!Outlasts(wave, a, b) && i < j)
  {
    var a, b := nodes[order[i]].dependsOn, nodes[order[j]].dependsOn;
    PosOf(order, i);
    PosOf(order, j);
    OutlastsIff(wave, a, b);
    OutlastsIff(wave, b, a);
  }

  lemma OutlastsIff(wave: seq<string>, later: seq<string>, sooner: seq<string>)
    ensures Outlasts(wave, later, sooner) <==> LastDep(sooner, wave) < LastDep(later, wave)
  {
    LastDepIs(later, wave);
    LastDepIs(sooner, wave);
  }

  ghost predicate InOrder(nodes: Nodes, order: seq<string>, wave: seq<string>, queue: seq<string>) {
    && (forall n | n in queue :: n in nodes && n in order)
    && forall i, j | 0 <= i < j < |queue| :: Earlier(nodes, order, wave, queue[i], queue[j])
  }

  /** Entries in iteration order, repetitions allowed. */
  ghost predicate Follows(order: seq<string>, kids: seq<string>) {
    && (forall c | c in kids :: c in order)
    && forall i, j | 0 <= i < j < |kids| :: Pos(order, kids[i]) <= Pos(order, kids[j])
  }

  /** What was freed by one node: some of its children, in iteration order. */
  ghost predicate FreedFrom(order: seq<string>, kids: seq<string>, freed: seq<string>) {
    && (forall c | c in freed :: c in kids && c in order)
    && forall i, j | 0 <= i < j < |freed| :: Pos(order, freed[i]) < Pos(order, freed[j])
  }

  /** Nothing freed so far comes after a child at `j` or later. */
  ghost predicate NotAfter(order: seq<string>, kids: seq<string>, j: nat, freed: seq<string>)
    requires Follows(order, kids) && FreedFrom(order, kids, freed)
  {
    forall i, t | 0 <= i < |freed| && j <= t < |kids| :: Pos(order, freed[i]) <= Pos(order, kids[t])
  }

  lemma FreeOne(order: seq<string>, kids: seq<string>, freed: seq<string>, j: nat)
    requires Follows(order, kids) && j < |kids| && FreedFrom(order, kids, freed) && NotAfter(order, kids, j, freed)
    requires kids[j] !in freed
    ensures FreedFrom(order, kids, freed + [kids[j]])
  {
    var more, child := freed + [kids[j]], kids[j];
    forall i, k | 0 <= i < k < |more|
      ensures Pos(order, more[i]) < Pos(order, more[k])
    {
      if k == |freed| {
        assert freed[i] in freed && Pos(order, freed[i]) <= Pos(order, kids[j]);
        assert order[Pos(order, freed[i])] == freed[i] && order[Pos(order, child)] == child;
      }
    }
  }

  lemma FreedNotAfter(order: seq<string>, kids: seq<string>, freed: seq<string>, j: nat)
    requires Follows(order, kids) && j < |kids| && FreedFrom(order, kids, freed) && NotAfter(order, kids, j, freed)
    requires FreedFrom(order, kids, freed + [kids[j]])
    ensures NotAfter(order, kids, j + 1, freed + [kids[j]])
  {
    var more := freed + [kids[j]];
    forall i, t | 0 <= i < |more| && j + 1 <= t < |kids|
      ensures Pos(order, more[i]) <= Pos(order, kids[t])
    {
      if i < |freed| {
        assert more[i] == freed[i];
      }
    }
  }

  /** Finishing one more node of the wave: what it frees goes behind what was freed before. */
  lemma InOrderNext(nodes: Nodes, order: seq<string>, wave: seq<string>, i: nat, queue: seq<string>, freed: seq<string>,
                    kids: seq<string>)
    requires i < |wave| && InOrder(nodes, order, wave[..i], queue)
    requires forall n | n in queue :: wave[i] !in nodes[n].dependsOn
    requires FreedFrom(order, kids, freed) && forall c | c in kids :: c in nodes && wave[i] in nodes[c].dependsOn
    ensures InOrder(nodes, order, wave[..i + 1], queue + freed)
  {
    var longer, all := wave[..i + 1], queue + freed;
    assert longer[..i] == wave[..i];
    forall n | n in all
      ensures n in nodes && n in order && LastDep(nodes[n].dependsOn, longer)
              == if n in queue then LastDep(nodes[n].dependsOn, wave[..i]) else i
    {
    }
    forall a, b | 0 <= a < b < |all|
      ensures Earlier(nodes, order, longer, all[a], all[b])
    {
      if b < |queue| {
        assert Earlier(nodes, order, wave[..i], queue[a], queue[b]);
      } else if a < |queue| {
        LastDepIs(nodes[all[a]].dependsOn, wave[..i]);
        assert freed[b - |queue|] in freed;
      } else {
        assert freed[a - |queue|] in freed && freed[b - |queue|] in freed;
      }
    }
  }

  // ------------------------------------------------------------------
  // The counters
  // ------------------------------------------------------------------

  type Children = map<string, seq<string>>

  function KidsOf(children: Children, d: string): seq<string> {
    if d in children then children[d] else []
  }

  /** How often `n` is listed under `d`. */
  ghost function Listed(children: Children, d: string, n: string): nat {
    multiset(KidsOf(children, d))[n]
  }

  /** A node is listed under a dependency as often as it names it. */
  ghost predicate ChildrenMatch(nodes: Nodes, children: Children) {
    forall d, n :: Listed(children, d, n) == if n in nodes then multiset(nodes[n].dependsOn)[d] else 0
  }

  ghost predicate ChildrenFollow(order: seq<string>, children: Children) {
    forall d :: Follows(order, KidsOf(children, d))
  }

  /** The counters count what is missing. */
  ghost predicate Counting(nodes: Nodes, inDegree: map<string, int>, done: set<string>) {
    inDegree.Keys == nodes.Keys && forall n | n in nodes :: inDegree[n] == MissingOf(nodes, n, done)
  }

  /** `queue` lists, once each, the nodes whose counter has come down to zero since `done`. */
  ghost predicate Freed(nodes: Nodes, inDegree: map<string, int>, done: set<string>, queue: seq<string>) {
    && Distinct(queue) && inDegree.Keys == nodes.Keys
    && forall n :: n in queue <==> n in nodes && inDegree[n] == 0 && MissingOf(nodes, n, done) > 0
  }

  /** The counters are behind by the occurrences in `kids`. */
  ghost predicate Behind(nodes: Nodes, inDegree: map<string, int>, done: set<string>, kids: seq<string>) {
    inDegree.Keys == nodes.Keys && forall n | n in nodes :: inDegree[n] == MissingOf(nodes, n, done) + multiset(kids)[n]
  }

  lemma BehindNext(nodes: Nodes, inDegree: map<string, int>, done: set<string>, kids: seq<string>)
    requires Behind(nodes, inDegree, done, kids) && kids != [] && kids[0] in nodes
    ensures Behind(nodes, inDegree[kids[0] := inDegree[kids[0]] - 1], done, kids[1..])
    ensures inDegree[kids[0]] > 0
  {
    assert kids == [kids[0]] + kids[1..];
  }

  /** Within a wave: the counters are behind by `kids`, and `queue` holds what fell to zero. */
  ghost predicate Lowering(nodes: Nodes, inDegree: map<string, int>, queue: seq<string>, kids: seq<string>,
                           start: set<string>, done: set<string>)
  {
    && Behind(nodes, inDegree, done, kids) && Freed(nodes, inDegree, start, queue)
    && (forall c | c in kids :: c in nodes)
    && forall n | n in nodes :: inDegree[n] <= MissingOf(nodes, n, start)
  }

  /** What one step of the innermost loop does to the queue. */
  lemma FreedNext(nodes: Nodes, inDegree: map<string, int>, start: set<string>, queue: seq<string>, child: string)
    requires child in nodes && Freed(nodes, inDegree, start, queue)
    requires 0 < inDegree[child] <= MissingOf(nodes, child, start)
    ensures var left := inDegree[child] - 1;
            Freed(nodes, inDegree[child := left], start, if left == 0 then queue + [child] else queue)
  {
  }

  /** One step of the innermost loop. */
  lemma LoweringNext(nodes: Nodes, inDegree: map<string, int>, queue: seq<string>, kids: seq<string>, j: nat,
                     start: set<string>, done: set<string>)
    requires j < |kids| && Lowering(nodes, inDegree, queue, kids[j..], start, done)
    ensures kids[j] in inDegree
    ensures var left := inDegree[kids[j]] - 1;
            Lowering(nodes, inDegree[kids[j] := left], if left == 0 then queue + [kids[j]] else queue, kids[j + 1..], start, done)
  {
    assert kids[j..][1..] == kids[j + 1..];
    BehindNext(nodes, inDegree, done, kids[j..]);
    FreedNext(nodes, inDegree, start, queue, kids[j]);
  }

  lemma LoweringDone(nodes: Nodes, inDegree: map<string, int>, queue: seq<string>, start: set<string>, done: set<string>)
    requires Lowering(nodes, inDegree, queue, [], start, done)
    ensures Counting(nodes, inDegree, done) && Freed(nodes, inDegree, start, queue)
  {
  }

  /** The queue as it was, followed by the children freed so far, in order. */
  ghost predicate Grown(order: seq<string>, kids: seq<string>, j: nat, before: seq<string>, freed: seq<string>, queue: seq<string>)
  {
    queue == before + freed && Follows(order, kids) && FreedFrom(order, kids, freed) && NotAfter(order, kids, j, freed)
  }

  lemma GrownNext(order: seq<string>, kids: seq<string>, j: nat, before: seq<string>, freed: seq<string>, queue: seq<string>)
    requires Grown(order, kids, j, before, freed, queue) && j < |kids|
    ensures Grown(order, kids, j + 1, before, freed, queue)
    ensures Distinct(queue + [kids[j]]) ==> Grown(order, kids, j + 1, before, freed + [kids[j]], queue + [kids[j]])
  {
    if Distinct(queue + [kids[j]]) {
      NewlyFreed(before, freed, kids[j]);
      FreeOne(order, kids, freed, j);
      FreedNotAfter(order, kids, freed, j);
    }
  }

  lemma NewlyFreed(before: seq<string>, freed: seq<string>, child: string)
    requires Distinct((before + freed) + [child])
    ensures child !in freed && (before + freed) + [child] == before + (freed + [child])
  {
    var all := (before + freed) + [child];
    forall i | 0 <= i < |freed|
      ensures freed[i] != child
    {
      assert all[|before| + i] == freed[i] && all[|before| + |freed|] == child;
    }
  }

  /** The innermost loop has lowered the counters of the first `j` children. */
  ghost predicate Lowered(nodes: Nodes, inDegree: map<string, int>, order: seq<string>, kids: seq<string>, j: nat,
                          before: seq<string>, freed: seq<string>, queue: seq<string>, start: set<string>, done: set<string>)
    requires j <= |kids|
  {
    Lowering(nodes, inDegree, queue, kids[j..], start, done) && Grown(order, kids, j, before, freed, queue)
  }

  lemma LoweredNext(nodes: Nodes, inDegree: map<string, int>, order: seq<string>, kids: seq<string>, j: nat,
                    before: seq<string>, freed: seq<string>, queue: seq<string>, start: set<string>, done: set<string>)
    requires j < |kids| && Lowered(nodes, inDegree, order, kids, j, before, freed, queue, start, done)
    ensures kids[j] in inDegree
    ensures var left := inDegree[kids[j]] - 1;
            var next := inDegree[kids[j] := left];
            && (left == 0 ==> Lowered(nodes, next, order, kids, j + 1, before, freed + [kids[j]], queue + [kids[j]], start, done))
            && (left != 0 ==> Lowered(nodes, next, order, kids, j + 1, before, freed, queue, start, done))
  {
    LoweringNext(nodes, inDegree, queue, kids, j, start, done);
    GrownNext(order, kids, j, before, freed, queue);
  }

  lemma LoweredAll(nodes: Nodes, inDegree: map<string, int>, order: seq<string>, kids: seq<string>,
                   before: seq<string>, freed: seq<string>, queue: seq<string>, start: set<string>, done: set<string>)
    requires Lowered(nodes, inDegree, order, kids, |kids|, before, freed, queue, start, done)
    ensures Counting(nodes, inDegree, done) && Freed(nodes, inDegree, start, queue)
    ensures queue == before + freed && FreedFrom(order, kids, freed)
  {
    assert kids[|kids|..] == [];
    LoweringDone(nodes, inDegree, queue, start, done);
  }

  lemma LoweredNone(nodes: Nodes, inDegree: map<string, int>, order: seq<string>, kids: seq<string>, queue: seq<string>,
                    start: set<string>, done: set<string>)
    requires Lowering(nodes, inDegree, queue, kids, start, done) && Follows(order, kids)
    ensures Lowered(nodes, inDegree, order, kids, 0, queue, [], queue, start, done)
  {
    assert kids[0..] == kids && queue + [] == queue;
  }

  /** The innermost loop: one finished node lowers the counter of each of its children. */
  method LowerChildren(nodes: Nodes, kids: seq<string>, inDegree0: map<string, int>, queue0: seq<string>,
                       ghost order: seq<string>, ghost start: set<string>, ghost done: set<string>)
    returns (inDegree: map<string, int>, queue: seq<string>, ghost freed: seq<string>)
    requires Lowering(nodes, inDegree0, queue0, kids, start, done) && Follows(order, kids)
    ensures Counting(nodes, inDegree, done) && Freed(nodes, inDegree, start, queue)
    ensures queue == queue0 + freed && FreedFrom(order, kids, freed)
  {
    inDegree, queue := inDegree0, queue0;
    freed := [];
    var j := 0;
    LoweredNone(nodes, inDegree, order, kids, queue, start, done);
    while j < |kids|
      invariant 0 <= j <= |kids|
      invariant Lowered(nodes, inDegree, order, kids, j, queue0, freed, queue, start, done)
    {
      LoweredNext(nodes, inDegree, order, kids, j, queue0, freed, queue, start, done);
      inDegree := inDegree[kids[j] := inDegree[kids[j]] - 1];
      if inDegree[kids[j]] == 0 {
        queue := queue + [kids[j]];
        freed := freed + [kids[j]];
      }
      j := j + 1;
    }
    LoweredAll(nodes, inDegree, order, kids, queue0, freed, queue, start, done);
  }

  lemma BehindAfter(nodes: Nodes, children: Children, inDegree: map<string, int>, done: set<string>, nid: string)
    requires ChildrenMatch(nodes, children) && Counting(nodes, inDegree, done) && nid !in done
    ensures Behind(nodes, inDegree, done + {nid}, KidsOf(children, nid))
    ensures forall c | c in KidsOf(children, nid) :: c in nodes && nid in nodes[c].dependsOn
  {
    forall n | n in nodes
      ensures inDegree[n] == MissingOf(nodes, n, done + {nid}) + multiset(KidsOf(children, nid))[n]
    {
      MissingLess(nodes[n].dependsOn, done, nid);
      assert Listed(children, nid, n) == multiset(nodes[n].dependsOn)[nid];
    }
    forall c | c in KidsOf(children, nid)
      ensures c in nodes && nid in nodes[c].dependsOn
    {
      assert Listed(children, nid, c) > 0;
    }
  }

  lemma ElementsStep(s: seq<string>, k: nat)
    requires k < |s|
    ensures Elements(s[..k + 1]) == Elements(s[..k]) + {s[k]}
  {
    assert s[..k + 1] == s[..k] + [s[k]];
  }

  /** What was freed earlier in the wave has no dependency left to finish. */
  lemma FreedAreReady(nodes: Nodes, inDegree: map<string, int>, start: set<string>, now: set<string>, queue: seq<string>,
                      nid: string)
    requires Counting(nodes, inDegree, now) && Freed(nodes, inDegree, start, queue) && nid !in now
    ensures forall n | n in queue :: n in nodes && nid !in nodes[n].dependsOn
  {
    forall n | n in queue
      ensures n in nodes && nid !in nodes[n].dependsOn
    {
      MissingZero(nodes[n].dependsOn, now);
    }
  }

  /** One wave: all its nodes are finished, and the nodes this frees form the next queue. */
  method FinishWave(nodes: Nodes, children: Children, wave: seq<string>, inDegree0: map<string, int>,
                    ghost order: seq<string>, ghost done: set<string>)
    returns (inDegree: map<string, int>, queue: seq<string>)
    requires ChildrenMatch(nodes, children) && ChildrenFollow(order, children) && Counting(nodes, inDegree0, done)
    requires Distinct(wave) && forall n | n in wave :: n !in done
    ensures Counting(nodes, inDegree, done + Elements(wave)) && Freed(nodes, inDegree, done, queue)
    ensures InOrder(nodes, order, wave, queue)
  {
    inDegree, queue := inDegree0, [];
    var i := 0;
    assert done + Elements(wave[..0]) == done;
    while i < |wave|
      invariant 0 <= i <= |wave|
      invariant Counting(nodes, inDegree, done + Elements(wave[..i]))
      invariant Freed(nodes, inDegree, done, queue)
      invariant InOrder(nodes, order, wave[..i], queue)
    {
      ghost var now, before := done + Elements(wave[..i]), queue;
      var nid := wave[i];
      ElementsStep(wave, i);
      NotYetDone(wave, i, done);
      BehindAfter(nodes, children, inDegree, now, nid);
      CountersOnlyFall(nodes, inDegree, done, Elements(wave[..i]));
      FreedAreReady(nodes, inDegree, done, now, queue, nid);
      ghost var freed: seq<string>;
      inDegree, queue, freed := LowerChildren(nodes, KidsOf(children, nid), inDegree, queue, order, done, now + {nid});
      InOrderNext(nodes, order, wave, i, before, freed, KidsOf(children, nid));
      assert now + {nid} == done + Elements(wave[..i + 1]);
      i := i + 1;
    }
    assert wave[..|wave|] == wave;
  }

  lemma NotYetDone(wave: seq<string>, i: nat, done: set<string>)
    requires Distinct(wave) && i < |wave| && forall n | n in wave :: n !in done
    ensures wave[i] !in done + Elements(wave[..i])
  {
  }

  lemma CountersOnlyFall(nodes: Nodes, inDegree: map<string, int>, done: set<string>, more: set<string>)
    requires Counting(nodes, inDegree, done + more)
    ensures forall n | n in nodes :: inDegree[n] <= MissingOf(nodes, n, done)
  {
    forall n | n in nodes
      ensures inDegree[n] <= MissingOf(nodes, n, done)
    {
      MissingShrinks(nodes[n].dependsOn, done, more);
    }
  }

  // ------------------------------------------------------------------
  // Setting up
  // ------------------------------------------------------------------

  /** The dependency lists of the first `k` nodes in iteration order have been entered. */
  ghost predicate Entered(nodes: Nodes, order: seq<string>, k: nat, inDegree: map<string, int>, children: Children)
    requires k <= |order| && forall n | n in order :: n in nodes
  {
    && inDegree.Keys == Elements(order[..k])
    && (forall n | n in inDegree :: inDegree[n] == |nodes[n].dependsOn|)
    && forall d, n :: Listed(children, d, n) == if n in order[..k] then multiset(nodes[n].dependsOn)[d] else 0
  }

  /** `nid` has been entered under each entry of `deps`. */
  ghost predicate EnteredUnder(before: Children, after: Children, nid: string, deps: seq<string>) {
    forall d, n :: Listed(after, d, n) == Listed(before, d, n) + if n == nid then multiset(deps)[d] else 0
  }

  lemma ListOnce(children: Children, dep: string, nid: string, d: string, n: string)
    ensures Listed(children[dep := KidsOf(children, dep) + [nid]], d, n)
         == Listed(children, d, n) + if d == dep && n == nid then 1 else 0
  {
  }

  lemma EnterOne(before: Children, after: Children, nid: string, deps: seq<string>, dep: string)
    requires EnteredUnder(before, after, nid, deps)
    ensures EnteredUnder(before, after[dep := KidsOf(after, dep) + [nid]], nid, deps + [dep])
  {
    var next := after[dep := KidsOf(after, dep) + [nid]];
    forall d, n
      ensures Listed(next, d, n) == Listed(before, d, n) + if n == nid then multiset(deps + [dep])[d] else 0
    {
      ListOnce(after, dep, nid, d, n);
    }
  }

  /** In iteration order, and none beyond `bound`. */
  ghost predicate FollowsTo(order: seq<string>, kids: seq<string>, bound: nat) {
    Follows(order, kids) && forall c | c in kids :: Pos(order, c) <= bound
  }

  ghost predicate ChildrenFollowTo(order: seq<string>, children: Children, bound: nat) {
    forall d :: FollowsTo(order, KidsOf(children, d), bound)
  }

  lemma AppendFollows(order: seq<string>, kids: seq<string>, nid: string)
    requires nid in order && FollowsTo(order, kids, Pos(order, nid))
    ensures FollowsTo(order, kids + [nid], Pos(order, nid))
  {
    var more := kids + [nid];
    forall i, j | 0 <= i < j < |more|
      ensures more[i] in order && more[j] in order && Pos(order, more[i]) <= Pos(order, more[j])
    {
      if j == |kids| {
        assert kids[i] in kids;
      } else {
        assert kids[i] in kids && kids[j] in kids;
      }
    }
  }

  lemma AppendChild(order: seq<string>, children: Children, dep: string, nid: string)
    requires nid in order && ChildrenFollowTo(order, children, Pos(order, nid))
    ensures ChildrenFollowTo(order, children[dep := KidsOf(children, dep) + [nid]], Pos(order, nid))
  {
    var next := children[dep := KidsOf(children, dep) + [nid]];
    forall d
      ensures FollowsTo(order, KidsOf(next, d), Pos(order, nid))
    {
      assert FollowsTo(order, KidsOf(children, d), Pos(order, nid));
      AppendFollows(order, KidsOf(children, d), nid);
    }
  }

  method EnterChildren(nid: string, deps: seq<string>, children0: Children, ghost order: seq<string>) returns (children: Children)
    requires nid in order && ChildrenFollowTo(order, children0, Pos(order, nid))
    ensures EnteredUnder(children0, children, nid, deps)
    ensures ChildrenFollowTo(order, children, Pos(order, nid))
  {
    children := children0;
    var i := 0;
    while i < |deps|
      invariant 0 <= i <= |deps|
      invariant EnteredUnder(children0, children, nid, deps[..i])
      invariant ChildrenFollowTo(order, children, Pos(order, nid))
    {
      assert deps[..i + 1] == deps[..i] + [deps[i]];
      EnterOne(children0, children, nid, deps[..i], deps[i]);
      AppendChild(order, children, deps[i], nid);
      children := children[deps[i] := KidsOf(children, deps[i]) + [nid]];
      i := i + 1;
    }
    assert deps[..|deps|] == deps;
  }

  lemma ListedNext(nodes: Nodes, order: seq<string>, k: nat, children: Children, after: Children, d: string, n: string)
    requires Distinct(order) && k < |order| && forall m | m in order :: m in nodes
    requires Listed(children, d, n) == if n in order[..k] then multiset(nodes[n].dependsOn)[d] else 0
    requires Listed(after, d, n) == Listed(children, d, n) + if n == order[k] then multiset(nodes[order[k]].dependsOn)[d] else 0
    ensures Listed(after, d, n) == if n in order[..k + 1] then multiset(nodes[n].dependsOn)[d] else 0
  {
    assert order[..k + 1] == order[..k] + [order[k]];
    assert order[k] !in order[..k];
  }

  lemma EnteredNext(nodes: Nodes, order: seq<string>, k: nat, inDegree: map<string, int>, children: Children, after: Children)
    requires Distinct(order) && k < |order| && forall n | n in order :: n in nodes
    requires Entered(nodes, order, k, inDegree, children)
    requires EnteredUnder(children, after, order[k], nodes[order[k]].dependsOn)
    ensures Entered(nodes, order, k + 1, inDegree[order[k] := |nodes[order[k]].dependsOn|], after)
  {
    ElementsStep(order, k);
    forall d, n
      ensures Listed(after, d, n) == if n in order[..k + 1] then multiset(nodes[n].dependsOn)[d] else 0
    {
      ListedNext(nodes, order, k, children, after, d, n);
    }
  }

  lemma AllEntered(nodes: Nodes, order: seq<string>, inDegree: map<string, int>, children: Children)
    requires forall n :: n in order <==> n in nodes
    requires Entered(nodes, order, |order|, inDegree, children)
    ensures ChildrenMatch(nodes, children) && Counting(nodes, inDegree, {})
  {
    assert order[..|order|] == order;
    forall n | n in nodes
      ensures inDegree[n] == MissingOf(nodes, n, {})
    {
      MissingAll(nodes[n].dependsOn);
    }
  }

  lemma FollowsFurther(order: seq<string>, children: Children, k: nat, bound: nat)
    requires ChildrenFollowTo(order, children, k) && k <= bound
    ensures ChildrenFollowTo(order, children, bound) && ChildrenFollow(order, children)
  {
    forall d
      ensures FollowsTo(order, KidsOf(children, d), bound) && Follows(order, KidsOf(children, d))
    {
      assert FollowsTo(order, KidsOf(children, d), k);
    }
  }

  method EnterAll(nodes: Nodes, order: seq<string>) returns (inDegree: map<string, int>, children: Children)
    requires Distinct(order) && forall n :: n in order <==> n in nodes
    ensures ChildrenMatch(nodes, children) && ChildrenFollow(order, children) && Counting(nodes, inDegree, {})
  {
    inDegree, children := map[], map[];
    var k := 0;
    while k < |order|
      invariant 0 <= k <= |order|
      invariant Entered(nodes, order, k, inDegree, children) && ChildrenFollowTo(order, children, k)
    {
      var nid := order[k];
      PosOf(order, k);
      var after := EnterChildren(nid, nodes[nid].dependsOn, children, order);
      EnteredNext(nodes, order, k, inDegree, children, after);
      FollowsFurther(order, after, k, k + 1);
      inDegree, children := inDegree[nid := |nodes[nid].dependsOn|], after;
      k := k + 1;
    }
    AllEntered(nodes, order, inDegree, children);
    FollowsFurther(order, children, k, k);
  }

  lemma {:induction false} MissingAll(deps: seq<string>)
    ensures Missing(deps, {}) == |deps|
  {
    if deps != [] {
      MissingAll(deps[1..]);
    }
  }

  /** The ids of `order` whose counter is zero. */
  function Roots(order: seq<string>, inDegree: map<string, int>): (roots: seq<string>)
    requires forall n | n in order :: n in inDegree
    ensures forall n :: n in roots <==> n in order && inDegree[n] == 0
  {
    if order == [] then [] else
      (if inDegree[order[0]] == 0 then [order[0]] else []) + Roots(order[1..], inDegree)
  }

  lemma {:induction false} RootsFollow(order: seq<string>, inDegree: map<string, int>, k: nat)
    requires Distinct(order) && k <= |order| && forall n | n in order :: n in inDegree
    ensures var roots := Roots(order[k..], inDegree);
            && (forall n | n in roots :: n in order && k <= Pos(order, n))
            && forall i, j | 0 <= i < j < |roots| :: Pos(order, roots[i]) < Pos(order, roots[j])
    decreases |order| - k
  {
    if k < |order| {
      RootsFollow(order, inDegree, k + 1);
      PosOf(order, k);
      assert order[k..] == [order[k]] + order[k + 1..];
      var rest := Roots(order[k + 1..], inDegree);
      assert forall i | 0 <= i < |rest| :: rest[i] in rest;
    }
  }

  /** The first queue is in iteration order. */
  lemma RootsInOrder(nodes: Nodes, order: seq<string>, inDegree: map<string, int>)
    requires Distinct(order) && (forall n :: n in order <==> n in nodes) && inDegree.Keys == nodes.Keys
    ensures InOrder(nodes, order, [], Roots(order, inDegree)) && Distinct(Roots(order, inDegree))
  {
    RootsFollow(order, inDegree, 0);
    assert order[0..] == order;
  }

  // ------------------------------------------------------------------
  // The builder
  // ------------------------------------------------------------------

  datatype Built = Built(waves: seq<seq<string>>) | CycleDetected(unreachable: nat)

  function SetsOf(waves: seq<seq<string>>): seq<set<string>> {
    seq(|waves|, i requires 0 <= i < |waves| => Elements(waves[i]))
  }

  function TotalLength(waves: seq<seq<string>>): nat {
    if waves == [] then 0 else TotalLength(waves[..|waves| - 1]) + |waves[|waves| - 1]|
  }

  /** `waves` are the first raw levels and `done` is what they hold. */
  ghost predicate Finished(nodes: Nodes, waves: seq<seq<string>>, done: set<string>) {
    && SetsOf(waves) + RawLevels(nodes, done) == RawLevels(nodes, {})
    && RawDone(nodes, done) == RawDone(nodes, {})
    && TotalLength(waves) == |done|
    && forall k | 0 <= k < |waves| :: Distinct(waves[k])
  }

  ghost predicate Settled(nodes: Nodes, done: set<string>) {
    forall n | n in done :: n in nodes && MissingOf(nodes, n, done) == 0
  }

  function LastWave(waves: seq<seq<string>>, k: nat): seq<string>
    requires k <= |waves|
  {
    if k == 0 then [] else waves[k - 1]
  }

  ghost predicate WaveInOrder(nodes: Nodes, order: seq<string>, waves: seq<seq<string>>, k: nat)
    requires k < |waves|
  {
    InOrder(nodes, order, LastWave(waves, k), waves[k])
  }

  /** Each wave is in the order in which the wave before it frees its members. */
  ghost predicate WavesInOrder(nodes: Nodes, order: seq<string>, waves: seq<seq<string>>) {
    forall k: nat | k < |waves| :: WaveInOrder(nodes, order, waves, k)
  }

  lemma WavesInOrderNext(nodes: Nodes, order: seq<string>, waves: seq<seq<string>>, wave: seq<string>)
    requires WavesInOrder(nodes, order, waves) && InOrder(nodes, order, LastWave(waves, |waves|), wave)
    ensures WavesInOrder(nodes, order, waves + [wave]) && LastWave(waves + [wave], |waves| + 1) == wave
  {
    var more := waves + [wave];
    forall k: nat | k < |more|
      ensures WaveInOrder(nodes, order, more, k)
    {
      if k < |waves| {
        assert LastWave(more, k) == LastWave(waves, k) && WaveInOrder(nodes, order, waves, k);
      }
    }
  }

  lemma HeadFirst(nodes: Nodes, order: seq<string>, wave: seq<string>, a: seq<string>, n: string)
    requires InOrder(nodes, order, wave, a) && n in a
    ensures n == a[0] || Earlier(nodes, order, wave, a[0], n)
  {
    var i :| 0 <= i < |a| && a[i] == n;
  }

  lemma SameHead(nodes: Nodes, order: seq<string>, wave: seq<string>, a: seq<string>, b: seq<string>)
    requires InOrder(nodes, order, wave, a) && InOrder(nodes, order, wave, b) && forall n :: n in a <==> n in b
    requires a != []
    ensures b != [] && a[0] == b[0]
  {
    assert a[0] in b;
    HeadFirst(nodes, order, wave, a, b[0]);
    HeadFirst(nodes, order, wave, b, a[0]);
  }

  lemma {:induction false} OneOrder(nodes: Nodes, order: seq<string>, wave: seq<string>, a: seq<string>, b: seq<string>)
    requires InOrder(nodes, order, wave, a) && InOrder(nodes, order, wave, b) && forall n :: n in a <==> n in b
    ensures a == b
  {
    if a != [] {
      SameHead(nodes, order, wave, a, b);
      OneOrderTail(nodes, order, wave, a, b);
      OneOrder(nodes, order, wave, a[1..], b[1..]);
    } else if b != [] {
      SameHead(nodes, order, wave, b, a);
    }
  }

  lemma OneOrderTail(nodes: Nodes, order: seq<string>, wave: seq<string>, a: seq<string>, b: seq<string>)
    requires a != [] && b != [] && a[0] == b[0] && forall n :: n in a <==> n in b
    requires InOrder(nodes, order, wave, a) && InOrder(nodes, order, wave, b)
    ensures InOrder(nodes, order, wave, a[1..]) && InOrder(nodes, order, wave, b[1..])
    ensures forall n :: n in a[1..] <==> n in b[1..]
  {
    HeadOnce(nodes, order, wave, a);
    HeadOnce(nodes, order, wave, b);
    assert forall n :: n in a <==> n == a[0] || n in a[1..];
    assert forall n :: n in b <==> n == b[0] || n in b[1..];
  }

  lemma HeadOnce(nodes: Nodes, order: seq<string>, wave: seq<string>, a: seq<string>)
    requires a != [] && InOrder(nodes, order, wave, a)
    ensures a[0] !in a[1..] && InOrder(nodes, order, wave, a[1..])
  {
    var tail := a[1..];
    assert forall i | 0 <= i < |tail| :: tail[i] == a[i + 1];
    forall i | 0 <= i < |tail|
      ensures tail[i] != a[0]
    {
      assert Earlier(nodes, order, wave, a[0], a[i + 1]);
    }
    forall i, j | 0 <= i < j < |tail|
      ensures Earlier(nodes, order, wave, tail[i], tail[j])
    {
      assert Earlier(nodes, order, wave, a[i + 1], a[j + 1]);
    }
  }

  lemma SameWave(nodes: Nodes, order: seq<string>, wave: seq<string>, a: seq<string>, b: seq<string>)
    requires InOrder(nodes, order, wave, a) && InOrder(nodes, order, wave, b) && Elements(a) == Elements(b)
    ensures a == b
  {
    forall n
      ensures n in a <==> n in b
    {
      assert n in a <==> n in Elements(a);
      assert n in b <==> n in Elements(b);
    }
    OneOrder(nodes, order, wave, a, b);
  }

  lemma {:induction false} SameWaves(nodes: Nodes, order: seq<string>, v: seq<seq<string>>, w: seq<seq<string>>, k: nat)
    requires |v| == |w| && SetsOf(v) == SetsOf(w) && k < |v|
    requires WavesInOrder(nodes, order, v) && WavesInOrder(nodes, order, w)
    ensures v[k] == w[k]
  {
    var before := LastWave(v, k);
    assert before == LastWave(w, k) by {
      if k > 0 {
        SameWaves(nodes, order, v, w, k - 1);
      }
    }
    assert WaveInOrder(nodes, order, v, k) && WaveInOrder(nodes, order, w, k);
    assert SetsOf(v)[k] == SetsOf(w)[k];
    SameWave(nodes, order, before, v[k], w[k]);
  }

  /** The contents of the waves and the order inside each leave only one possible result. */
  lemma WavesDetermined(nodes: Nodes, order: seq<string>, v: seq<seq<string>>, w: seq<seq<string>>)
    requires SetsOf(v) == SetsOf(w) && WavesInOrder(nodes, order, v) && WavesInOrder(nodes, order, w)
    ensures v == w
  {
    assert |SetsOf(v)| == |v| && |SetsOf(w)| == |w|;
    forall k | 0 <= k < |v|
      ensures v[k] == w[k]
    {
      SameWaves(nodes, order, v, w, k);
    }
  }

  lemma {:induction false} ElementsCount(s: seq<string>)
    requires Distinct(s)
    ensures |Elements(s)| == |s|
  {
    if s != [] {
      var n := |s| - 1;
      ElementsCount(s[..n]);
      ElementsStep(s, n);
      assert s[..n + 1] == s;
      assert s[n] !in Elements(s[..n]);
    }
  }

  lemma NextQueue(nodes: Nodes, inDegree: map<string, int>, done: set<string>, wave: set<string>, queue: seq<string>)
    requires wave == NextRaw(nodes, done) && Settled(nodes, done)
    requires Counting(nodes, inDegree, done + wave) && Freed(nodes, inDegree, done, queue)
    ensures Elements(queue) == NextRaw(nodes, done + wave)
    ensures Settled(nodes, done + wave)
  {
    forall n | n in done + wave
      ensures n in nodes && MissingOf(nodes, n, done + wave) == 0
    {
      MissingShrinks(nodes[n].dependsOn, done, wave);
    }
  }

  lemma UnfoldNext(nodes: Nodes, done: set<string>)
    requires NextRaw(nodes, done) != {}
    ensures RawLevels(nodes, done) == [NextRaw(nodes, done)] + RawLevels(nodes, done + NextRaw(nodes, done))
    ensures RawDone(nodes, done) == RawDone(nodes, done + NextRaw(nodes, done))
    ensures |done + NextRaw(nodes, done)| == |done| + |NextRaw(nodes, done)|
  {
  }

  lemma WavesNext(waves: seq<seq<string>>, wave: seq<string>)
    ensures SetsOf(waves + [wave]) == SetsOf(waves) + [Elements(wave)]
    ensures TotalLength(waves + [wave]) == TotalLength(waves) + |wave|
  {
    assert (waves + [wave])[..|waves|] == waves;
  }

  lemma DistinctNext(waves: seq<seq<string>>, wave: seq<string>)
    requires Distinct(wave) && forall k | 0 <= k < |waves| :: Distinct(waves[k])
    ensures forall k | 0 <= k < |waves + [wave]| :: Distinct((waves + [wave])[k])
  {
  }

  lemma FinishedNext(nodes: Nodes, waves: seq<seq<string>>, done: set<string>, wave: seq<string>)
    requires Finished(nodes, waves, done) && wave != [] && Distinct(wave) && Elements(wave) == NextRaw(nodes, done)
    ensures Finished(nodes, waves + [wave], done + Elements(wave))
  {
    assert wave[0] in Elements(wave);
    ElementsCount(wave);
    UnfoldNext(nodes, done);
    WavesNext(waves, wave);
    DistinctNext(waves, wave);
    Regroup(SetsOf(waves), Elements(wave), RawLevels(nodes, done + Elements(wave)));
  }

  lemma Regroup<T>(a: seq<T>, x: T, b: seq<T>)
    ensures a + [x] + b == a + ([x] + b)
  {
  }

  // ------------------------------------------------------------------
  // What is reached
  // ------------------------------------------------------------------

  /** `ids` holds every node whose dependencies it holds. */
  ghost predicate HoldsReady(nodes: Nodes, ids: set<string>) {
    forall n | n in nodes && (forall d | d in nodes[n].dependsOn :: d in ids) :: n in ids
  }

  /** Every dependency names a node. */
  ghost predicate Closed(nodes: Nodes) {
    forall n | n in nodes :: forall d | d in nodes[n].dependsOn :: d in nodes
  }

  lemma {:induction false} RawDoneGrows(nodes: Nodes, done: set<string>)
    requires Settled(nodes, done)
    ensures Settled(nodes, RawDone(nodes, done)) && NextRaw(nodes, RawDone(nodes, done)) == {}
    decreases nodes.Keys - done
  {
    var next := NextRaw(nodes, done);
    if next != {} {
      forall n | n in done + next
        ensures n in nodes && MissingOf(nodes, n, done + next) == 0
      {
        MissingShrinks(nodes[n].dependsOn, done, next);
      }
      RawDoneGrows(nodes, done + next);
    }
  }

  lemma {:induction false} RawDoneWithin(nodes: Nodes, done: set<string>, ids: set<string>)
    requires HoldsReady(nodes, ids) && done <= ids
    ensures RawDone(nodes, done) <= ids
    decreases nodes.Keys - done
  {
    var next := NextRaw(nodes, done);
    if next != {} {
      forall n | n in next
        ensures n in ids
      {
        MissingZero(nodes[n].dependsOn, done);
      }
      RawDoneWithin(nodes, done + next, ids);
    }
  }

  /** What is reached is the least set of ids that holds every node whose dependencies it holds. */
  lemma ReachedIsLeast(nodes: Nodes)
    ensures RawDone(nodes, {}) <= nodes.Keys && HoldsReady(nodes, RawDone(nodes, {}))
    ensures forall ids | HoldsReady(nodes, ids) :: RawDone(nodes, {}) <= ids
  {
    var reached := RawDone(nodes, {});
    RawDoneGrows(nodes, {});
    forall n | n in nodes && forall d | d in nodes[n].dependsOn :: d in reached
      ensures n in reached
    {
      MissingZero(nodes[n].dependsOn, reached);
      assert n !in NextRaw(nodes, reached);
    }
    forall ids | HoldsReady(nodes, ids)
      ensures reached <= ids
    {
      RawDoneWithin(nodes, {}, ids);
    }
  }

  /** The ids outside a ring hold every node whose dependencies they hold. */
  lemma RingIsNeverReached(nodes: Nodes, ring: set<string>)
    requires Ring(Edges(nodes), ring)
    ensures HoldsReady(nodes, nodes.Keys - ring)
  {
    forall n | n in ring
      ensures exists d :: d in nodes[n].dependsOn && d !in nodes.Keys - ring
    {
      assert Waits(Edges(nodes), ring, n);
      var d :| d in ring && DependsOn(Edges(nodes), n, d);
    }
  }

  lemma RingBlocks(nodes: Nodes, ring: set<string>)
    requires Ring(Edges(nodes), ring)
    ensures RawDone(nodes, {}) != nodes.Keys
  {
    RingIsNeverReached(nodes, ring);
    RawDoneWithin(nodes, {}, nodes.Keys - ring);
    var n :| n in ring;
    assert n in nodes.Keys && n !in RawDone(nodes, {});
  }

  lemma CycleBlocks(nodes: Nodes)
    requires RawDone(nodes, {}) == nodes.Keys
    ensures Acyclic(Edges(nodes))
  {
    if !Acyclic(Edges(nodes)) {
      CycleHasRing(Edges(nodes));
      var ring :| Ring(Edges(nodes), ring);
      RingBlocks(nodes, ring);
    }
  }

  lemma SettledIsClosed(nodes: Nodes)
    requires Settled(nodes, nodes.Keys)
    ensures Closed(nodes)
  {
    forall n | n in nodes
      ensures forall d | d in nodes[n].dependsOn :: d in nodes
    {
      MissingZero(nodes[n].dependsOn, nodes.Keys);
    }
  }

  lemma NoneReadyIsStuck(nodes: Nodes, done: set<string>)
    requires Closed(nodes) && NextRaw(nodes, done) == {} && nodes.Keys - done != {}
    ensures Stuck(Edges(nodes), nodes.Keys - done)
  {
    NextIsReady(nodes, done);
    forall n | n in nodes.Keys - done
      ensures Waits(Edges(nodes), nodes.Keys - done, n)
    {
      assert n !in ReadyIn(Edges(nodes), nodes.Keys - done);
    }
  }

  lemma UnreachedIsStuck(nodes: Nodes, reached: set<string>)
    requires Closed(nodes) && reached <= nodes.Keys && reached != nodes.Keys && NextRaw(nodes, reached) == {}
    ensures !Acyclic(Edges(nodes))
  {
    var rest := nodes.Keys - reached;
    assert reached + rest == nodes.Keys;
    NoneReadyIsStuck(nodes, reached);
    StuckIsCyclic(Edges(nodes), rest);
  }

  /** Every node is reached exactly when all dependencies name nodes and there is no cycle. */
  lemma AllReachedIff(nodes: Nodes)
    ensures RawDone(nodes, {}) == nodes.Keys <==> Closed(nodes) && Acyclic(Edges(nodes))
  {
    RawDoneGrows(nodes, {});
    if RawDone(nodes, {}) == nodes.Keys {
      SettledIsClosed(nodes);
      CycleBlocks(nodes);
    } else if Closed(nodes) {
      ReachedIsLeast(nodes);
      UnreachedIsStuck(nodes, RawDone(nodes, {}));
    }
  }

  /** With every dependency a node, counting raw entries and counting in-graph ones agree. */
  lemma NextIsReady(nodes: Nodes, done: set<string>)
    requires Closed(nodes)
    ensures NextRaw(nodes, done) == ReadyIn(Edges(nodes), nodes.Keys - done)
  {
    var rest := nodes.Keys - done;
    forall n | n in rest
      ensures MissingOf(nodes, n, done) == 0 <==> !Waits(Edges(nodes), rest, n)
    {
      MissingZero(nodes[n].dependsOn, done);
      assert forall d | d in nodes[n].dependsOn :: d in nodes;
      assert forall d | d in rest :: DependsOn(Edges(nodes), n, d) <==> d in nodes[n].dependsOn;
    }
  }

  lemma {:induction false} RawLevelsAreLevels(nodes: Nodes, done: set<string>)
    requires Closed(nodes) && Acyclic(Edges(nodes))
    ensures RawLevels(nodes, done) == Levels(Edges(nodes), nodes.Keys - done)
    decreases nodes.Keys - done
  {
    var g, rest, next := Edges(nodes), nodes.Keys - done, NextRaw(nodes, done);
    NextIsReady(nodes, done);
    if rest != {} {
      if next == {} {
        NoneReadyIsStuck(nodes, done);
        StuckIsCyclic(g, rest);
        assert false;
      }
      RawLevelsAreLevels(nodes, done + next);
      assert nodes.Keys - (done + next) == rest - next;
    }
  }

  method BuildWaves(nodes: Nodes, order: seq<string>) returns (r: Built)
    requires Distinct(order) && forall n :: n in order <==> n in nodes
    ensures r.Built? <==> Closed(nodes) && Acyclic(Edges(nodes))
    ensures r.Built? ==> SetsOf(r.waves) == Levels(Edges(nodes), nodes.Keys)
    ensures r.Built? ==> WavesInOrder(nodes, order, r.waves) && forall k | 0 <= k < |r.waves| :: Distinct(r.waves[k])
    ensures r.CycleDetected? ==> r.unreachable == |nodes| - |RawDone(nodes, {})| > 0
  {
    var inDegree, children := EnterAll(nodes, order);
    var queue := Roots(order, inDegree);
    var waves: seq<seq<string>> := [];
    ghost var done: set<string> := {};
    ReadyToStart(nodes, order, inDegree);
    while queue != []
      invariant Ready(nodes, order, waves, done, queue) && Counting(nodes, inDegree, done)
      decreases nodes.Keys - done
    {
      var wave := queue;
      ReadyProgress(nodes, order, waves, done, wave);
      waves := waves + [wave];
      inDegree, queue := FinishWave(nodes, children, wave, inDegree, order, done);
      ReadyNext(nodes, order, waves, done, wave, inDegree, queue);
      done := done + Elements(wave);
    }
    AllFinished(nodes, waves, done);
    var processed := TotalLength(waves);
    if processed < |nodes| {
      return CycleDetected(|nodes| - processed);
    }
    return Built(waves);
  }

  /** Between two waves: `waves` is what is done and `queue` the next wave, both in order. */
  ghost predicate Ready(nodes: Nodes, order: seq<string>, waves: seq<seq<string>>, done: set<string>, queue: seq<string>) {
    && Finished(nodes, waves, done) && Settled(nodes, done)
    && Distinct(queue) && Elements(queue) == NextRaw(nodes, done)
    && WavesInOrder(nodes, order, waves) && InOrder(nodes, order, LastWave(waves, |waves|), queue)
  }

  lemma ReadyToStart(nodes: Nodes, order: seq<string>, inDegree: map<string, int>)
    requires Distinct(order) && (forall n :: n in order <==> n in nodes) && Counting(nodes, inDegree, {})
    ensures Ready(nodes, order, [], {}, Roots(order, inDegree))
  {
    RootsInOrder(nodes, order, inDegree);
    assert Elements(Roots(order, inDegree)) == NextRaw(nodes, {});
    assert SetsOf([]) + RawLevels(nodes, {}) == RawLevels(nodes, {});
  }

  lemma ReadyProgress(nodes: Nodes, order: seq<string>, waves: seq<seq<string>>, done: set<string>, wave: seq<string>)
    requires Ready(nodes, order, waves, done, wave) && wave != []
    ensures Distinct(wave) && forall n | n in wave :: n in nodes && n !in done
  {
    forall n | n in wave
      ensures n in nodes && n !in done
    {
      assert n in Elements(wave);
    }
  }

  lemma ReadyNext(nodes: Nodes, order: seq<string>, waves: seq<seq<string>>, done: set<string>, wave: seq<string>,
                  inDegree: map<string, int>, queue: seq<string>)
    requires waves != [] && waves[|waves| - 1] == wave != []
    requires Ready(nodes, order, waves[..|waves| - 1], done, wave)
    requires Counting(nodes, inDegree, done + Elements(wave)) && Freed(nodes, inDegree, done, queue)
    requires InOrder(nodes, order, wave, queue)
    ensures Ready(nodes, order, waves, done + Elements(wave), queue)
  {
    var before := waves[..|waves| - 1];
    assert waves == before + [wave];
    FinishedNext(nodes, before, done, wave);
    WavesInOrderNext(nodes, order, before, wave);
    NextQueue(nodes, inDegree, done, Elements(wave), queue);
  }

  /** When no further node becomes ready, the count of finished nodes tells success. */
  lemma AllFinished(nodes: Nodes, waves: seq<seq<string>>, done: set<string>)
    requires Finished(nodes, waves, done) && NextRaw(nodes, done) == {}
    ensures TotalLength(waves) == |RawDone(nodes, {})| <= |nodes|
    ensures TotalLength(waves) == |nodes| <==> Closed(nodes) && Acyclic(Edges(nodes))
    ensures Closed(nodes) && Acyclic(Edges(nodes)) ==> SetsOf(waves) == Levels(Edges(nodes), nodes.Keys)
  {
    assert RawLevels(nodes, done) == [] && RawDone(nodes, done) == done;
    assert SetsOf(waves) + [] == SetsOf(waves);
    AllReachedIff(nodes);
    ReachedIsLeast(nodes);
    PartIsSmaller(done, nodes.Keys);
    assert nodes.Keys - {} == nodes.Keys;
    if Closed(nodes) && Acyclic(Edges(nodes)) {
      RawLevelsAreLevels(nodes, {});
    }
  }

  lemma PartIsSmaller(part: set<string>, whole: set<string>)
    requires part <= whole
    ensures |part| <= |whole| && (|part| < |whole| <==> part != whole)
  {
    assert whole == part + (whole - part);
  }

  // ------------------------------------------------------------------
  // What the executor may rely on
  // ------------------------------------------------------------------

  lemma {:induction false} SameContents(v: seq<seq<string>>, w: seq<seq<string>>)
    requires |v| == |w| && forall k | 0 <= k < |v| :: multiset(v[k]) == multiset(w[k])
    ensures multiset(Flatten(v)) == multiset(Flatten(w))
  {
    if v != [] {
      SameContents(v[1..], w[1..]);
    }
  }

  lemma AddOne(ids: set<string>, x: string)
    requires x !in ids
    ensures multiset(ids + {x}) == multiset(ids) + multiset{x}
  {
  }

  lemma {:induction false} DistinctContents(s: seq<string>)
    requires Distinct(s)
    ensures multiset(s) == multiset(Elements(s))
  {
    if s != [] {
      var front, x := s[..|s| - 1], s[|s| - 1];
      DistinctContents(front);
      assert s == front + [x] && x !in front;
      AddOne(Elements(front), x);
      assert Elements(s) == Elements(front) + {x};
    }
  }

  /** Waves the compiler ships meet what the executor's fan-out needs of them, and are wave by
      wave the ones it would have rebuilt, up to the order inside a wave. */
  lemma ShippedWavesAreValid(nodes: Nodes, waves: seq<seq<string>>)
    requires Acyclic(Edges(nodes))
    requires SetsOf(waves) == Levels(Edges(nodes), nodes.Keys)
    requires forall k | 0 <= k < |waves| :: Distinct(waves[k])
    ensures |waves| == |Schedule(nodes)|
    ensures forall k | 0 <= k < |waves| :: multiset(waves[k]) == multiset(Schedule(nodes)[k])
    ensures Partition(nodes, waves) && Ordered(nodes, waves)
  {
    var levels, own := Levels(Edges(nodes), nodes.Keys), Schedule(nodes);
    assert |SetsOf(waves)| == |levels|;
    forall k | 0 <= k < |waves|
      ensures multiset(waves[k]) == multiset(own[k]) && forall n :: n in waves[k] <==> n in own[k]
    {
      DistinctContents(waves[k]);
      SortedContents(levels[k]);
      assert SetsOf(waves)[k] == levels[k];
      assert forall n :: n in waves[k] <==> n in Elements(waves[k]);
    }
    SameContents(waves, own);
    ScheduleIsValid(nodes);
  }
}
