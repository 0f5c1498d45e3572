/** What fan-out keeps: every task is scheduled exactly once, and dependencies stay ordered,
    exactly when no node id collides with a generated one. */
module FanOutTheorems {
  import opened Options
  import opened Ids
  import opened Graphs
  import opened Plan
  import opened WaveScheduler
  import opened WaveTheorems
  import opened RetryPatch
  import opened FanOut

  /** A node that is not itself fanned out carries the id of somebody's item task. */
  ghost predicate Clash(nodes: Nodes, collections: Collections) {
    exists n, m, i: nat :: ClashAt(nodes, collections, n, m, i)
  }

  ghost predicate ClashAt(nodes: Nodes, collections: Collections, n: string, m: string, i: nat) {
    && n in nodes && !FansOut(nodes, collections, n)
    && FansOut(nodes, collections, m) && i < |ItemsOf(collections, nodes[m])|
    && n == ItemId(m, i)
  }

  /** Such a node has a task of its own, so that two tasks carry one id. */
  ghost predicate Doubled(nodes: Nodes, collections: Collections) {
    exists n, m, i: nat :: ClashAt(nodes, collections, n, m, i) && RunsOnce(nodes, collections, n)
  }

  /** `waves` hold every node once. */
  ghost predicate Partition(nodes: Nodes, waves: seq<seq<string>>) {
    multiset(Flatten(waves)) == multiset(nodes.Keys)
  }

  /** Every dependency sits in a strictly earlier wave. */
  ghost predicate Ordered(nodes: Nodes, waves: seq<seq<string>>) {
    forall n, d, i, j | DependsOn(Edges(nodes), n, d) && 0 <= i < |waves| && 0 <= j < |waves|
                        && d in waves[i] && n in waves[j] :: i < j
  }

  lemma ScheduleIsValid(nodes: Nodes)
    requires Acyclic(Edges(nodes))
    ensures Partition(nodes, Schedule(nodes)) && Ordered(nodes, Schedule(nodes))
  {
    var g := Edges(nodes);
    assert g.Keys == nodes.Keys;
    WavesPartitionNodes(nodes);
    LevelMapRespects(g);
    forall n, d, i, j | DependsOn(g, n, d) && 0 <= i < |Schedule(nodes)| && 0 <= j < |Schedule(nodes)|
                        && d in Schedule(nodes)[i] && n in Schedule(nodes)[j]
      ensures i < j
    {
      LevelIs(g, i, d);
      LevelIs(g, j, n);
      assert LevelMap(g)[d] < LevelMap(g)[n];
    }
  }

  // ------------------------------------------------------------------
  // Ids and their owners
  // ------------------------------------------------------------------

  function OwnIds(nodes: Nodes, collections: Collections, n: string): seq<string> {
    if FansOut(nodes, collections, n) then ItemIds(n, |ItemsOf(collections, nodes[n])|)
    else if RunsOnce(nodes, collections, n) then [n]
    else []
  }

  ghost predicate Enumerates(order: seq<string>, nodes: Nodes) {
    Distinct(order) && forall n :: n in order <==> n in nodes
  }

  function TaskMap(nodes: Nodes, collections: Collections, order: seq<string>): map<string, Task>
    requires forall n | n in order :: n in nodes
  {
    Index(AllTasks(nodes, collections, order, |order|))
  }

  lemma {:induction false} IndexKeys(tasks: seq<Task>, x: string)
    ensures x in Index(tasks) <==> exists t :: t in tasks && t.id == x
    ensures x in Index(tasks) ==> Index(tasks)[x] in tasks && Index(tasks)[x].id == x
  {
    if tasks != [] {
      var k := |tasks| - 1;
      IndexKeys(tasks[..k], x);
      assert tasks == tasks[..k] + [tasks[k]];
    }
  }

  lemma TasksOfIds(nodes: Nodes, collections: Collections, n: string, x: string)
    requires n in nodes
    ensures x in OwnIds(nodes, collections, n) <==> exists t :: t in TasksOf(nodes, collections, n) && t.id == x
  {
    var own, tasks := OwnIds(nodes, collections, n), TasksOf(nodes, collections, n);
    assert |own| == |tasks| && forall i | 0 <= i < |own| :: own[i] == tasks[i].id;
    if x in own {
      var i :| 0 <= i < |own| && own[i] == x;
      assert tasks[i] in tasks;
    }
  }

  lemma {:induction false} AllTasksOwned(nodes: Nodes, collections: Collections, order: seq<string>, k: nat, t: Task)
    requires k <= |order| && forall n | n in order :: n in nodes
    ensures t in AllTasks(nodes, collections, order, k) <==>
              exists i | 0 <= i < k :: t in TasksOf(nodes, collections, order[i])
  {
    if k > 0 {
      AllTasksOwned(nodes, collections, order, k - 1, t);
      var before, last := AllTasks(nodes, collections, order, k - 1), TasksOf(nodes, collections, order[k - 1]);
      assert t in AllTasks(nodes, collections, order, k) <==> t in before || t in last;
    }
  }

  /** A task id in the map belongs to some node, and every node's ids are there. */
  lemma MapIdsOwned(nodes: Nodes, collections: Collections, order: seq<string>, x: string)
    requires forall n :: n in order <==> n in nodes
    ensures x in TaskMap(nodes, collections, order) <==>
              exists n :: n in nodes && x in OwnIds(nodes, collections, n)
  {
    var all := AllTasks(nodes, collections, order, |order|);
    IndexKeys(all, x);
    if x in TaskMap(nodes, collections, order) {
      var t :| t in all && t.id == x;
      AllTasksOwned(nodes, collections, order, |order|, t);
      var i :| 0 <= i < |order| && t in TasksOf(nodes, collections, order[i]);
      TasksOfIds(nodes, collections, order[i], x);
    }
    if n :| n in nodes && x in OwnIds(nodes, collections, n) {
      TasksOfIds(nodes, collections, n, x);
      var t :| t in TasksOf(nodes, collections, n) && t.id == x;
      var i :| 0 <= i < |order| && order[i] == n;
      AllTasksOwned(nodes, collections, order, |order|, t);
    }
  }

  lemma {:induction false} FanOutEntries(nodes: Nodes, collections: Collections, order: seq<string>, k: nat, n: string)
    requires k <= |order| && forall m | m in order :: m in nodes
    ensures n in FanOutOf(nodes, collections, order, k) <==> FansOut(nodes, collections, n) && n in order[..k]
    ensures n in FanOutOf(nodes, collections, order, k) ==>
              FanOutOf(nodes, collections, order, k)[n] == OwnIds(nodes, collections, n)
  {
    if k > 0 {
      FanOutEntries(nodes, collections, order, k - 1, n);
      assert order[..k] == order[..k - 1] + [order[k - 1]];
    }
  }

  /** What stands for node `n` in the rewritten waves. */
  function Stands(nodes: Nodes, collections: Collections, order: seq<string>, n: string): seq<string>
    requires forall m | m in order :: m in nodes
  {
    Replacement(TaskMap(nodes, collections, order), FanOutOf(nodes, collections, order, |order|), n)
  }

  lemma StandsIs(nodes: Nodes, collections: Collections, order: seq<string>, n: string)
    requires n in nodes && forall m :: m in order <==> m in nodes
    ensures Stands(nodes, collections, order, n) ==
            if FansOut(nodes, collections, n) then OwnIds(nodes, collections, n)
            else if exists o :: o in nodes && n in OwnIds(nodes, collections, o) then [n]
            else []
    ensures !Clash(nodes, collections) ==> Stands(nodes, collections, order, n) == OwnIds(nodes, collections, n)
  {
    FanOutEntries(nodes, collections, order, |order|, n);
    assert order[..|order|] == order;
    MapIdsOwned(nodes, collections, order, n);
    if !FansOut(nodes, collections, n) && !Clash(nodes, collections) {
      OwnIdOnly(nodes, collections, n);
    }
  }

  lemma OwnIdOnly(nodes: Nodes, collections: Collections, n: string)
    requires n in nodes && !FansOut(nodes, collections, n) && !Clash(nodes, collections)
    ensures forall o | o in nodes && n in OwnIds(nodes, collections, o) :: o == n
  {
    forall o | o in nodes && n in OwnIds(nodes, collections, o)
      ensures o == n
    {
      if FansOut(nodes, collections, o) {
        var i: nat :| i < |OwnIds(nodes, collections, o)| && OwnIds(nodes, collections, o)[i] == n;
        assert ClashAt(nodes, collections, n, o, i);
      }
    }
  }

  /** Unless some id is doubled, an id has one owner. */
  lemma OneOwner(nodes: Nodes, collections: Collections, a: string, b: string, x: string)
    requires !Doubled(nodes, collections)
    requires a in nodes && b in nodes && x in OwnIds(nodes, collections, a) && x in OwnIds(nodes, collections, b)
    ensures a == b
  {
    var i: nat :| i < |OwnIds(nodes, collections, a)| && OwnIds(nodes, collections, a)[i] == x;
    var j: nat :| j < |OwnIds(nodes, collections, b)| && OwnIds(nodes, collections, b)[j] == x;
    assert !(ClashAt(nodes, collections, b, a, i) && RunsOnce(nodes, collections, b));
    assert !(ClashAt(nodes, collections, a, b, j) && RunsOnce(nodes, collections, a));
    if FansOut(nodes, collections, a) && FansOut(nodes, collections, b) {
      ItemIdInjective(a, i, b, j);
    }
  }

  // ------------------------------------------------------------------
  // Counting occurrences
  // ------------------------------------------------------------------

  /** How often `x` occurs in all of `f(n)` together. */
  function Occurrences(f: string -> seq<string>, ns: seq<string>, x: string): nat {
    if ns == [] then 0 else multiset(f(ns[0]))[x] + Occurrences(f, ns[1..], x)
  }

  lemma {:induction false} OccursNowhere(f: string -> seq<string>, ns: seq<string>, x: string)
    requires forall n | n in ns :: x !in f(n)
    ensures Occurrences(f, ns, x) == 0
  {
    if ns != [] {
      OccursNowhere(f, ns[1..], x);
    }
  }

  lemma {:induction false} OccursAtOwner(f: string -> seq<string>, ns: seq<string>, x: string, owner: string)
    requires Distinct(ns) && owner in ns
    requires forall n | n in ns && n != owner :: x !in f(n)
    ensures Occurrences(f, ns, x) == multiset(f(owner))[x]
  {
    if ns[0] == owner {
      OccursNowhere(f, ns[1..], x);
    } else {
      OccursAtOwner(f, ns[1..], x, owner);
    }
  }

  lemma {:induction false} OccursAtLeast(f: string -> seq<string>, ns: seq<string>, x: string, a: string)
    requires a in ns
    ensures Occurrences(f, ns, x) >= multiset(f(a))[x]
  {
    if ns[0] != a {
      OccursAtLeast(f, ns[1..], x, a);
    }
  }

  lemma {:induction false} OccursTwice(f: string -> seq<string>, ns: seq<string>, x: string, a: string, b: string)
    requires a in ns && b in ns && a != b && x in f(a) && x in f(b)
    ensures Occurrences(f, ns, x) >= 2
  {
    if ns[0] == a {
      OccursAtLeast(f, ns[1..], x, b);
    } else if ns[0] == b {
      OccursAtLeast(f, ns[1..], x, a);
    } else {
      OccursTwice(f, ns[1..], x, a, b);
    }
  }

  lemma {:induction false} ItemIdOccursOnce(m: string, count: nat, i: nat)
    requires i < count
    ensures multiset(ItemIds(m, count))[ItemId(m, i)] == 1
  {
    var last := count - 1;
    assert ItemIds(m, count) == ItemIds(m, last) + [ItemId(m, last)];
    if i == last {
      if ItemId(m, i) in ItemIds(m, last) {
        var j: nat :| j < last && ItemIds(m, last)[j] == ItemId(m, i);
        ItemIdInjective(m, i, m, j);
      }
    } else {
      ItemIdOccursOnce(m, last, i);
      if ItemId(m, i) == ItemId(m, last) {
        ItemIdInjective(m, i, m, last);
      }
    }
  }

  lemma OwnIdOccursOnce(nodes: Nodes, collections: Collections, n: string, x: string)
    requires x in OwnIds(nodes, collections, n)
    ensures multiset(OwnIds(nodes, collections, n))[x] == 1
  {
    var i: nat :| i < |OwnIds(nodes, collections, n)| && OwnIds(nodes, collections, n)[i] == x;
    if FansOut(nodes, collections, n) {
      ItemIdOccursOnce(n, |ItemsOf(collections, nodes[n])|, i);
    }
  }

  // ------------------------------------------------------------------
  // The rewritten waves
  // ------------------------------------------------------------------

  function TaskIds(tasks: seq<Task>): seq<string> {
    seq(|tasks|, i requires 0 <= i < |tasks| => tasks[i].id)
  }

  /** The rewritten waves, as `BuildTasks` computes them. */
  function Rewritten(nodes: Nodes, collections: Collections, order: seq<string>, waves: seq<seq<string>>): seq<seq<Task>>
    requires forall n | n in order :: n in nodes
  {
    seq(|waves|, k requires 0 <= k < |waves| => TasksInWave(nodes, collections, order, waves[k]))
  }

  lemma {:induction false} SelectAll(taskMap: map<string, Task>, ids: seq<string>)
    requires forall x | x in ids :: x in taskMap && taskMap[x].id == x
    ensures TaskIds(Select(taskMap, ids)) == ids
    ensures forall t | t in Select(taskMap, ids) :: t.id in taskMap && taskMap[t.id] == t
  {
    if ids != [] {
      SelectAll(taskMap, ids[1..]);
      assert Select(taskMap, ids) == [taskMap[ids[0]]] + Select(taskMap, ids[1..]);
    }
  }

  lemma {:induction false} ExpandedIn(taskMap: map<string, Task>, fanOut: map<string, seq<string>>, wave: seq<string>, k: nat, x: string)
    requires k <= |wave|
    ensures x in Expanded(taskMap, fanOut, wave, k) <==>
              exists i | 0 <= i < k :: x in Replacement(taskMap, fanOut, wave[i])
  {
    if k > 0 {
      ExpandedIn(taskMap, fanOut, wave, k - 1, x);
    }
  }

  /** A wave of nodes becomes the tasks whose ids stand for its members. */
  lemma WaveIds(nodes: Nodes, collections: Collections, order: seq<string>, wave: seq<string>)
    requires forall n :: n in order <==> n in nodes
    requires forall n | n in wave :: n in nodes
    ensures var taskMap := TaskMap(nodes, collections, order);
            && TaskIds(TasksInWave(nodes, collections, order, wave)) ==
               Expanded(taskMap, FanOutOf(nodes, collections, order, |order|), wave, |wave|)
            && forall t | t in TasksInWave(nodes, collections, order, wave) :: t.id in taskMap && taskMap[t.id] == t
  {
    var taskMap, fanOut := TaskMap(nodes, collections, order), FanOutOf(nodes, collections, order, |order|);
    var ids := Expanded(taskMap, fanOut, wave, |wave|);
    forall x | x in ids
      ensures x in taskMap && taskMap[x].id == x
    {
      ExpandedIn(taskMap, fanOut, wave, |wave|, x);
      var i :| 0 <= i < |wave| && x in Replacement(taskMap, fanOut, wave[i]);
      StandsIs(nodes, collections, order, wave[i]);
      MapIdsOwned(nodes, collections, order, x);
      IndexKeys(AllTasks(nodes, collections, order, |order|), x);
    }
    SelectAll(taskMap, ids);
  }

  /** Every task of a dependency runs in a strictly earlier wave than every task of its consumer. */
  lemma TaskOrderFollowsDependencies(
      nodes: Nodes, collections: Collections, order: seq<string>, waves: seq<seq<string>>,
      n: string, d: string, i: nat, j: nat, t: Task, u: Task)
    requires forall m :: m in order <==> m in nodes
    requires forall k, m | 0 <= k < |waves| && m in waves[k] :: m in nodes
    requires Ordered(nodes, waves) && !Clash(nodes, collections)
    requires DependsOn(Edges(nodes), n, d)
    requires i < |waves| && t in Rewritten(nodes, collections, order, waves)[i] && t.id in OwnIds(nodes, collections, d)
    requires j < |waves| && u in Rewritten(nodes, collections, order, waves)[j] && u.id in OwnIds(nodes, collections, n)
    ensures i < j
  {
    TaskComesFromOwner(nodes, collections, order, waves[i], t, d);
    TaskComesFromOwner(nodes, collections, order, waves[j], u, n);
  }

  lemma TaskComesFromOwner(nodes: Nodes, collections: Collections, order: seq<string>, wave: seq<string>, t: Task, owner: string)
    requires forall m :: m in order <==> m in nodes
    requires forall m | m in wave :: m in nodes
    requires !Clash(nodes, collections) && owner in nodes
    requires t in TasksInWave(nodes, collections, order, wave) && t.id in OwnIds(nodes, collections, owner)
    ensures owner in wave
  {
    var taskMap, fanOut := TaskMap(nodes, collections, order), FanOutOf(nodes, collections, order, |order|);
    var tasks := TasksInWave(nodes, collections, order, wave);
    WaveIds(nodes, collections, order, wave);
    var k :| 0 <= k < |tasks| && tasks[k] == t;
    assert TaskIds(tasks)[k] == t.id;
    ExpandedIn(taskMap, fanOut, wave, |wave|, t.id);
    var i :| 0 <= i < |wave| && t.id in Replacement(taskMap, fanOut, wave[i]);
    StandsIs(nodes, collections, order, wave[i]);
    OneOwner(nodes, collections, owner, wave[i], t.id);
  }

  lemma OccurrencesOfOne(f: string -> seq<string>, n: string, x: string)
    ensures Occurrences(f, [n], x) == multiset(f(n))[x]
  {
    assert [n][1..] == [];
  }

  /** The same for the first `k` entries. */
  function OccurrencesTo(f: string -> seq<string>, ns: seq<string>, k: nat, x: string): nat
    requires k <= |ns|
  {
    if k == 0 then 0 else OccurrencesTo(f, ns, k - 1, x) + multiset(f(ns[k - 1]))[x]
  }

  lemma {:induction false} OccurrencesToIs(f: string -> seq<string>, ns: seq<string>, k: nat, x: string)
    requires k <= |ns|
    ensures OccurrencesTo(f, ns, k, x) == Occurrences(f, ns[..k], x)
  {
    if k > 0 {
      OccurrencesToIs(f, ns, k - 1, x);
      var init, n := ns[..k - 1], ns[k - 1];
      assert ns[..k] == init + [n];
      OccurrencesAppend(f, init, [n], x);
      OccurrencesOfOne(f, n, x);
    }
  }

  lemma CountOfTwo(a: seq<string>, b: seq<string>, x: string)
    ensures multiset(a + b)[x] == multiset(a)[x] + multiset(b)[x]
  {
  }

  lemma {:induction false} ExpandedOccurrencesTo(
      f: string -> seq<string>, taskMap: map<string, Task>, fanOut: map<string, seq<string>>, wave: seq<string>, k: nat, x: string)
    requires k <= |wave|
    requires forall n | n in wave :: f(n) == Replacement(taskMap, fanOut, n)
    ensures multiset(Expanded(taskMap, fanOut, wave, k))[x] == OccurrencesTo(f, wave, k, x)
  {
    if k > 0 {
      ExpandedOccurrencesTo(f, taskMap, fanOut, wave, k - 1, x);
      CountOfTwo(Expanded(taskMap, fanOut, wave, k - 1), f(wave[k - 1]), x);
    }
  }

  lemma ExpandedOccurrences(
      f: string -> seq<string>, taskMap: map<string, Task>, fanOut: map<string, seq<string>>, wave: seq<string>, k: nat, x: string)
    requires k <= |wave|
    requires forall n | n in wave :: f(n) == Replacement(taskMap, fanOut, n)
    ensures multiset(Expanded(taskMap, fanOut, wave, k))[x] == Occurrences(f, wave[..k], x)
  {
    ExpandedOccurrencesTo(f, taskMap, fanOut, wave, k, x);
    OccurrencesToIs(f, wave, k, x);
  }

  lemma {:induction false} OccurrencesAppend(f: string -> seq<string>, a: seq<string>, b: seq<string>, x: string)
    ensures Occurrences(f, a + b, x) == Occurrences(f, a, x) + Occurrences(f, b, x)
  {
    if a == [] {
      assert a + b == b;
    } else {
      OccurrencesAppend(f, a[1..], b, x);
      assert (a + b)[1..] == a[1..] + b;
    }
  }

  lemma WaveOccurrences(
      nodes: Nodes, collections: Collections, order: seq<string>, wave: seq<string>, f: string -> seq<string>, x: string)
    requires forall n :: n in order <==> n in nodes
    requires forall n | n in wave :: n in nodes
    requires forall n :: f(n) == Stands(nodes, collections, order, n)
    ensures multiset(TaskIds(TasksInWave(nodes, collections, order, wave)))[x] == Occurrences(f, wave, x)
  {
    WaveIds(nodes, collections, order, wave);
    var taskMap, fanOut := TaskMap(nodes, collections, order), FanOutOf(nodes, collections, order, |order|);
    ExpandedOccurrences(f, taskMap, fanOut, wave, |wave|, x);
    assert wave[..|wave|] == wave;
  }

  /** How often a task id is scheduled is how often it occurs in what stands for the nodes. */
  lemma {:induction false} ScheduledOccurrences(
      nodes: Nodes, collections: Collections, order: seq<string>, waves: seq<seq<string>>, f: string -> seq<string>, x: string)
    requires forall n :: n in order <==> n in nodes
    requires forall k, n | 0 <= k < |waves| && n in waves[k] :: n in nodes
    requires forall n :: f(n) == Stands(nodes, collections, order, n)
    ensures multiset(TaskIds(Flatten(Rewritten(nodes, collections, order, waves))))[x] == Occurrences(f, Flatten(waves), x)
  {
    if waves != [] {
      var first := TasksInWave(nodes, collections, order, waves[0]);
      var rest := Rewritten(nodes, collections, order, waves[1..]);
      ScheduledOccurrences(nodes, collections, order, waves[1..], f, x);
      assert Rewritten(nodes, collections, order, waves) == [first] + rest;
      FlattenCons(first, rest);
      TaskIdsAppend(first, Flatten(rest));
      WaveOccurrences(nodes, collections, order, waves[0], f, x);
      OccurrencesAppend(f, waves[0], Flatten(waves[1..]), x);
    }
  }

  ghost predicate EachTaskOnce(nodes: Nodes, collections: Collections, order: seq<string>, waves: seq<seq<string>>)
    requires forall n | n in order :: n in nodes
  {
    forall x | x in TaskMap(nodes, collections, order) ::
      multiset(TaskIds(Flatten(Rewritten(nodes, collections, order, waves))))[x] == 1
  }

  lemma RepeatCounts(s: seq<string>, i: nat, j: nat)
    requires i < j < |s| && s[i] == s[j]
    ensures multiset(s)[s[i]] >= 2
  {
    assert s == s[..j] + s[j..];
    assert s[i] in s[..j] && s[j] in s[j..];
  }

  lemma PartitionFacts(nodes: Nodes, waves: seq<seq<string>>)
    requires Partition(nodes, waves)
    ensures Distinct(Flatten(waves))
    ensures forall n :: n in Flatten(waves) <==> n in nodes
    ensures forall k, n | 0 <= k < |waves| && n in waves[k] :: n in nodes
  {
    var flat := Flatten(waves);
    forall n
      ensures n in flat <==> n in nodes
    {
      assert n in flat <==> n in multiset(flat);
      assert n in nodes <==> n in multiset(nodes.Keys);
    }
    forall i, j | 0 <= i < j < |flat|
      ensures flat[i] != flat[j]
    {
      if flat[i] == flat[j] {
        RepeatCounts(flat, i, j);
      }
    }
    forall k, n | 0 <= k < |waves| && n in waves[k]
      ensures n in nodes
    {
      FlattenHas(waves, k, n);
    }
  }

  lemma {:induction false} FlattenHas(waves: seq<seq<string>>, k: nat, n: string)
    requires k < |waves| && n in waves[k]
    ensures n in Flatten(waves)
  {
    if k > 0 {
      FlattenHas(waves[1..], k - 1, n);
    }
  }

  /** Fan-out schedules every task exactly once if, and only if, no node that is not itself
      fanned out carries a generated id. */
  lemma EachTaskOnceIffNoClash(nodes: Nodes, collections: Collections, order: seq<string>, waves: seq<seq<string>>)
    requires forall n :: n in order <==> n in nodes
    requires Partition(nodes, waves)
    ensures EachTaskOnce(nodes, collections, order, waves) <==> !Clash(nodes, collections)
  {
    PartitionFacts(nodes, waves);
    var flat := Flatten(waves);
    var f := (n: string) => Stands(nodes, collections, order, n);
    if !Clash(nodes, collections) {
      forall x | x in TaskMap(nodes, collections, order)
        ensures multiset(TaskIds(Flatten(Rewritten(nodes, collections, order, waves))))[x] == 1
      {
        ScheduledOccurrences(nodes, collections, order, waves, f, x);
        MapIdsOwned(nodes, collections, order, x);
        var owner :| owner in nodes && x in OwnIds(nodes, collections, owner);
        StandsIs(nodes, collections, order, owner);
        OwnIdOccursOnce(nodes, collections, owner, x);
        forall n | n in flat && n != owner
          ensures x !in f(n)
        {
          StandsIs(nodes, collections, order, n);
          if x in f(n) {
            OneOwner(nodes, collections, n, owner, x);
          }
        }
        OccursAtOwner(f, flat, x, owner);
      }
    } else {
      var n, m, i: nat :| ClashAt(nodes, collections, n, m, i);
      assert OwnIds(nodes, collections, m)[i] == n;
      StandsIs(nodes, collections, order, n);
      StandsIs(nodes, collections, order, m);
      MapIdsOwned(nodes, collections, order, n);
      ScheduledOccurrences(nodes, collections, order, waves, f, n);
      OccursTwice(f, flat, n, n, m);
    }
  }

  /** The same for a graph that ships without waves, acyclic or not. */
  lemma RebuiltWavesRunEachTaskOnce(nodes: Nodes, collections: Collections, order: seq<string>)
    requires forall n :: n in order <==> n in nodes
    ensures EachTaskOnce(nodes, collections, order, WavesOf(nodes, [])) <==> !Clash(nodes, collections)
  {
    WavesPartitionNodes(nodes);
    EachTaskOnceIffNoClash(nodes, collections, order, Schedule(nodes));
  }

  // ------------------------------------------------------------------
  // How many tasks there are
  // ------------------------------------------------------------------

  /** One task for a tool or a conditional, one per item for a map, one for a map without items. */
  function TaskCount(collections: Collections, node: PlanNode): nat {
    var items := |ItemsOf(collections, node)|;
    match node.kind
    case MapNode => if items > 1 then items else 1
    case ToolNode => 1
    case ConditionalNode => 1
    case _ => 0
  }

  function TotalTasks(nodes: Nodes, collections: Collections, order: seq<string>, k: nat): nat
    requires k <= |order| && forall n | n in order :: n in nodes
  {
    if k == 0 then 0 else TotalTasks(nodes, collections, order, k - 1) + TaskCount(collections, nodes[order[k - 1]])
  }

  lemma NodeTasksCount(nodes: Nodes, collections: Collections, n: string)
    requires n in nodes
    ensures |TasksOf(nodes, collections, n)| == TaskCount(collections, nodes[n])
  {
  }

  lemma {:induction false} AllTasksCount(nodes: Nodes, collections: Collections, order: seq<string>, k: nat)
    requires k <= |order| && forall n | n in order :: n in nodes
    ensures |AllTasks(nodes, collections, order, k)| == TotalTasks(nodes, collections, order, k)
  {
    if k > 0 {
      AllTasksCount(nodes, collections, order, k - 1);
      NodeTasksCount(nodes, collections, order[k - 1]);
    }
  }

  lemma DistinctAppend(ids: seq<string>, x: string)
    ensures Distinct(ids + [x]) <==> Distinct(ids) && x !in ids
  {
    var all := ids + [x];
    if Distinct(all) {
      forall i | 0 <= i < |ids|
        ensures ids[i] != x
      {
        assert all[i] != all[|ids|];
      }
      assert forall i, j | 0 <= i < j < |ids| :: all[i] == ids[i] && all[j] == ids[j];
    }
  }

  lemma TaskIdIn(tasks: seq<Task>, x: string)
    ensures x in TaskIds(tasks) <==> exists t :: t in tasks && t.id == x
  {
    if t :| t in tasks && t.id == x {
      var i :| 0 <= i < |tasks| && tasks[i] == t;
      assert TaskIds(tasks)[i] == x;
    }
  }

  /** A dictionary has as many entries as it was given exactly when no id came twice. */
  lemma {:induction false} IndexSize(tasks: seq<Task>)
    ensures |Index(tasks)| <= |tasks|
    ensures |Index(tasks)| == |tasks| <==> Distinct(TaskIds(tasks))
  {
    if tasks != [] {
      var k := |tasks| - 1;
      var init, x := tasks[..k], tasks[k].id;
      IndexSize(init);
      IndexKeys(init, x);
      TaskIdIn(init, x);
      DistinctAppend(TaskIds(init), x);
      assert TaskIds(tasks) == TaskIds(init) + [x];
      assert |Index(tasks)| == |Index(init)| + if x in Index(init) then 0 else 1;
    }
  }

  /** The ids of the tasks of the first `k` nodes. */
  function AllIds(nodes: Nodes, collections: Collections, order: seq<string>, k: nat): seq<string>
    requires k <= |order|
  {
    if k == 0 then [] else AllIds(nodes, collections, order, k - 1) + OwnIds(nodes, collections, order[k - 1])
  }

  lemma {:induction false} AllIdsAre(nodes: Nodes, collections: Collections, order: seq<string>, k: nat)
    requires k <= |order| && forall n | n in order :: n in nodes
    ensures TaskIds(AllTasks(nodes, collections, order, k)) == AllIds(nodes, collections, order, k)
  {
    if k > 0 {
      AllIdsAre(nodes, collections, order, k - 1);
      TaskIdsAppend(AllTasks(nodes, collections, order, k - 1), TasksOf(nodes, collections, order[k - 1]));
      OwnIdsOfTasks(nodes, collections, order[k - 1]);
    }
  }

  lemma {:induction false} AllIdsOccur(nodes: Nodes, collections: Collections, order: seq<string>, k: nat, f: string -> seq<string>, x: string)
    requires k <= |order| && forall n | n in order :: f(n) == OwnIds(nodes, collections, n)
    ensures multiset(AllIds(nodes, collections, order, k))[x] == OccurrencesTo(f, order, k, x)
  {
    if k > 0 {
      AllIdsOccur(nodes, collections, order, k - 1, f, x);
      CountOfTwo(AllIds(nodes, collections, order, k - 1), f(order[k - 1]), x);
    }
  }

  lemma AllTaskIdsOccur(nodes: Nodes, collections: Collections, order: seq<string>, k: nat, f: string -> seq<string>, x: string)
    requires k <= |order| && forall n | n in order :: n in nodes
    requires forall n :: f(n) == OwnIds(nodes, collections, n)
    ensures multiset(TaskIds(AllTasks(nodes, collections, order, k)))[x] == Occurrences(f, order[..k], x)
  {
    AllIdsAre(nodes, collections, order, k);
    AllIdsOccur(nodes, collections, order, k, f, x);
    OccurrencesToIs(f, order, k, x);
  }

  lemma TaskIdsAppend(a: seq<Task>, b: seq<Task>)
    ensures TaskIds(a + b) == TaskIds(a) + TaskIds(b)
  {
  }

  lemma OwnIdsOfTasks(nodes: Nodes, collections: Collections, n: string)
    requires n in nodes
    ensures TaskIds(TasksOf(nodes, collections, n)) == OwnIds(nodes, collections, n)
  {
  }

  lemma TaskIdOnce(nodes: Nodes, collections: Collections, order: seq<string>, t: Task)
    requires Enumerates(order, nodes) && !Doubled(nodes, collections)
    requires t in AllTasks(nodes, collections, order, |order|)
    ensures multiset(TaskIds(AllTasks(nodes, collections, order, |order|)))[t.id] == 1
  {
    var x := t.id;
    var f := (n: string) => OwnIds(nodes, collections, n);
    AllTaskIdsOccur(nodes, collections, order, |order|, f, x);
    assert order[..|order|] == order;
    AllTasksOwned(nodes, collections, order, |order|, t);
    var k :| 0 <= k < |order| && t in TasksOf(nodes, collections, order[k]);
    var owner := order[k];
    TasksOfIds(nodes, collections, owner, x);
    OwnIdOccursOnce(nodes, collections, owner, x);
    forall n | n in order && n != owner
      ensures x !in f(n)
    {
      if x in f(n) {
        OneOwner(nodes, collections, n, owner, x);
      }
    }
    OccursAtOwner(f, order, x, owner);
  }

  lemma DoubledOccursTwice(nodes: Nodes, collections: Collections, order: seq<string>) returns (n: string)
    requires Enumerates(order, nodes) && Doubled(nodes, collections)
    ensures multiset(TaskIds(AllTasks(nodes, collections, order, |order|)))[n] >= 2
  {
    var m, i: nat;
    n, m, i :| ClashAt(nodes, collections, n, m, i) && RunsOnce(nodes, collections, n);
    var f := (o: string) => OwnIds(nodes, collections, o);
    assert f(m)[i] == n && n in f(n);
    OccursTwice(f, order, n, n, m);
    AllTaskIdsOccur(nodes, collections, order, |order|, f, n);
    assert order[..|order|] == order;
  }

  lemma DoubledIsRepeated(nodes: Nodes, collections: Collections, order: seq<string>)
    requires Enumerates(order, nodes) && Doubled(nodes, collections)
    ensures !Distinct(TaskIds(AllTasks(nodes, collections, order, |order|)))
  {
    var n := DoubledOccursTwice(nodes, collections, order);
    var ids := TaskIds(AllTasks(nodes, collections, order, |order|));
    if Distinct(ids) {
      DistinctOccursOnce(ids, n);
    }
  }

  lemma {:induction false} DistinctOccursOnce(ids: seq<string>, x: string)
    requires Distinct(ids)
    ensures multiset(ids)[x] <= 1
  {
    if ids != [] {
      DistinctOccursOnce(ids[1..], x);
      assert ids == [ids[0]] + ids[1..];
      assert ids[0] !in ids[1..];
    }
  }

  lemma TaskIdsDistinct(nodes: Nodes, collections: Collections, order: seq<string>)
    requires Enumerates(order, nodes) && !Doubled(nodes, collections)
    ensures Distinct(TaskIds(AllTasks(nodes, collections, order, |order|)))
  {
    var all := AllTasks(nodes, collections, order, |order|);
    var ids := TaskIds(all);
    forall i, j | 0 <= i < j < |ids|
      ensures ids[i] != ids[j]
    {
      TaskIdOnce(nodes, collections, order, all[i]);
      if ids[i] == ids[j] {
        RepeatCounts(ids, i, j);
      }
    }
  }

  /** The dictionary holds tools + conditionals + the sum over maps of max(1, items) exactly when
      no node with a task of its own carries a generated id; otherwise it holds fewer. */
  lemma TaskMapSize(nodes: Nodes, collections: Collections, order: seq<string>)
    requires Enumerates(order, nodes)
    ensures |TaskMap(nodes, collections, order)| <= TotalTasks(nodes, collections, order, |order|)
    ensures |TaskMap(nodes, collections, order)| == TotalTasks(nodes, collections, order, |order|) <==>
              !Doubled(nodes, collections)
  {
    AllTasksCount(nodes, collections, order, |order|);
    IndexSize(AllTasks(nodes, collections, order, |order|));
    if Doubled(nodes, collections) {
      DoubledIsRepeated(nodes, collections, order);
    } else {
      TaskIdsDistinct(nodes, collections, order);
    }
  }

  // ------------------------------------------------------------------
  // What the tasks carry
  // ------------------------------------------------------------------

  /** A map node over a collection that has items. */
  predicate HasItems(nodes: Nodes, collections: Collections, n: string) {
    n in nodes && nodes[n].kind == MapNode && nodes[n].iterateOver in collections && collections[nodes[n].iterateOver] != []
  }

  lemma TaskOfOwner(nodes: Nodes, collections: Collections, order: seq<string>, n: string, t: Task)
    requires forall m :: m in order <==> m in nodes
    requires !Doubled(nodes, collections) && n in nodes && t in TasksOf(nodes, collections, n)
    requires forall u | u in TasksOf(nodes, collections, n) && u.id == t.id :: u == t
    ensures t.id in TaskMap(nodes, collections, order) && TaskMap(nodes, collections, order)[t.id] == t
  {
    var all := AllTasks(nodes, collections, order, |order|);
    var k :| 0 <= k < |order| && order[k] == n;
    AllTasksOwned(nodes, collections, order, |order|, t);
    IndexKeys(all, t.id);
    var u := Index(all)[t.id];
    AllTasksOwned(nodes, collections, order, |order|, u);
    var j :| 0 <= j < |order| && u in TasksOf(nodes, collections, order[j]);
    TasksOfIds(nodes, collections, n, t.id);
    TasksOfIds(nodes, collections, order[j], t.id);
    OneOwner(nodes, collections, n, order[j], t.id);
  }

  /** The task of the `i`-th item carries the map node's call and dependencies, and that item. */
  lemma ItemTaskIs(nodes: Nodes, collections: Collections, order: seq<string>, n: string, i: nat)
    requires forall m :: m in order <==> m in nodes
    requires !Doubled(nodes, collections) && HasItems(nodes, collections, n) && i < |collections[nodes[n].iterateOver]|
    ensures ItemId(n, i) in TaskMap(nodes, collections, order)
    ensures TaskMap(nodes, collections, order)[ItemId(n, i)] ==
            Task(ItemId(n, i), nodes[n].call, Item(collections[nodes[n].iterateOver][i]), nodes[n].dependsOn, "", [], [])
  {
    var tasks := TasksOf(nodes, collections, n);
    var t := tasks[i];
    forall u | u in tasks && u.id == t.id
      ensures u == t
    {
      var j: nat :| j < |tasks| && tasks[j] == u;
      ItemIdInjective(n, i, n, j);
    }
    TaskOfOwner(nodes, collections, order, n, t);
  }

  /** A tool node, and a map node without items, run once with their own call. */
  lemma SingleTaskIs(nodes: Nodes, collections: Collections, order: seq<string>, n: string)
    requires forall m :: m in order <==> m in nodes
    requires !Doubled(nodes, collections) && n in nodes && !HasItems(nodes, collections, n)
    requires nodes[n].kind == ToolNode || nodes[n].kind == MapNode
    ensures n in TaskMap(nodes, collections, order)
    ensures TaskMap(nodes, collections, order)[n] == Task(n, nodes[n].call, NoItem, nodes[n].dependsOn, "", [], [])
  {
    TaskOfOwner(nodes, collections, order, n, TasksOf(nodes, collections, n)[0]);
  }

  /** A conditional calls no tool and carries its condition and each branch on its own side. */
  lemma ConditionalTaskIs(nodes: Nodes, collections: Collections, order: seq<string>, n: string)
    requires forall m :: m in order <==> m in nodes
    requires !Doubled(nodes, collections) && n in nodes && nodes[n].kind == ConditionalNode
    ensures n in TaskMap(nodes, collections, order)
    ensures var t := TaskMap(nodes, collections, order)[n];
            && t.call.toolName == "__conditional__" && t.item == NoItem && t.dependsOn == nodes[n].dependsOn
            && t.condition == nodes[n].condition
            && t.branchTrue == nodes[n].branchTrue && t.branchFalse == nodes[n].branchFalse
  {
    TaskOfOwner(nodes, collections, order, n, TasksOf(nodes, collections, n)[0]);
  }

  /** `x` is the id of an item's task. */
  ghost predicate NamesItem(nodes: Nodes, collections: Collections, x: string) {
    exists n, i: nat :: HasItems(nodes, collections, n) && i < |collections[nodes[n].iterateOver]| && x == ItemId(n, i)
  }

  /** `x` runs once under its own id. */
  predicate NamesNode(nodes: Nodes, collections: Collections, x: string) {
    x in nodes && !HasItems(nodes, collections, x) && nodes[x].kind in {ToolNode, MapNode, ConditionalNode}
  }

  lemma OwnIdsAre(nodes: Nodes, collections: Collections, n: string, x: string)
    requires n in nodes
    ensures HasItems(nodes, collections, n) ==>
              (x in OwnIds(nodes, collections, n) <==>
               exists i: nat :: i < |collections[nodes[n].iterateOver]| && x == ItemId(n, i))
    ensures !HasItems(nodes, collections, n) ==>
              (x in OwnIds(nodes, collections, n) <==> x == n && NamesNode(nodes, collections, x))
  {
    var own := OwnIds(nodes, collections, n);
    if HasItems(nodes, collections, n) {
      assert |own| == |collections[nodes[n].iterateOver]| && forall i: nat | i < |own| :: own[i] == ItemId(n, i);
    }
  }

  /** There is a task for every item, for every tool, conditional and map without items, and
      no other. */
  lemma TaskIdsAre(nodes: Nodes, collections: Collections, order: seq<string>, x: string)
    requires forall m :: m in order <==> m in nodes
    ensures x in TaskMap(nodes, collections, order) <==> NamesItem(nodes, collections, x) || NamesNode(nodes, collections, x)
  {
    MapIdsOwned(nodes, collections, order, x);
    if n :| n in nodes && x in OwnIds(nodes, collections, n) {
      OwnIdsAre(nodes, collections, n, x);
    }
    if n, i: nat :| HasItems(nodes, collections, n) && i < |collections[nodes[n].iterateOver]| && x == ItemId(n, i) {
      OwnIdsAre(nodes, collections, n, x);
    }
    if NamesNode(nodes, collections, x) {
      OwnIdsAre(nodes, collections, x, x);
    }
  }

  /** Without a clash the tasks of a node run in the waves that hold the node, and in no other. */
  lemma TasksRunWithOwner(nodes: Nodes, collections: Collections, order: seq<string>, waves: seq<seq<string>>, k: nat, n: string, x: string)
    requires forall m :: m in order <==> m in nodes
    requires forall m | k < |waves| && m in waves[k] :: m in nodes
    requires !Clash(nodes, collections) && k < |waves| && n in nodes && x in OwnIds(nodes, collections, n)
    ensures x in TaskIds(Rewritten(nodes, collections, order, waves)[k]) <==> n in waves[k]
  {
    var taskMap, fanOut := TaskMap(nodes, collections, order), FanOutOf(nodes, collections, order, |order|);
    var tasks := TasksInWave(nodes, collections, order, waves[k]);
    WaveIds(nodes, collections, order, waves[k]);
    ExpandedIn(taskMap, fanOut, waves[k], |waves[k]|, x);
    if x in TaskIds(tasks) {
      var i :| 0 <= i < |tasks| && TaskIds(tasks)[i] == x;
      TaskComesFromOwner(nodes, collections, order, waves[k], tasks[i], n);
    }
    if n in waves[k] {
      var i :| 0 <= i < |waves[k]| && waves[k][i] == n;
      StandsIs(nodes, collections, order, n);
    }
  }

  // ------------------------------------------------------------------
  // Retrying after a fan-out
  // ------------------------------------------------------------------

  /** A fan-out item fails under its generated id.  If every dependency names a node, a retry
      is restricted to a sub-graph only when a failed id is itself a node id: failures of
      items alone leave no patch, and the executor runs the whole graph again. */
  lemma ItemFailuresRerunEverything(nodes: Nodes, failed: seq<string>)
    requires forall n, d | n in nodes && d in nodes[n].dependsOn :: d in nodes
    ensures PatchOf(nodes, failed).None? <==> forall f | f in failed :: f !in nodes
    ensures PatchOf(nodes, failed).None? ==> GraphToRun(PatchOf(nodes, failed), Some(nodes)) == Some(nodes)
  {
    var kept := map nid | nid in nodes && Included(nodes[nid], nid, failed) :: nodes[nid];
    assert forall n | n in nodes :: n in kept <==> Included(nodes[n], n, failed);
    if kept == map[] {
      assert forall n | n in nodes :: n !in kept;
    }
  }
}
