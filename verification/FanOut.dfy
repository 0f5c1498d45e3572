/** The part of `executor_node` that turns graph nodes into tasks: a map node with items
    becomes one task per item, and the waves are rewritten to match. */
module FanOut {
  import opened Text
  import opened Plan
  import opened WaveScheduler

  /** `item` is the element substituted into the inputs of a fan-out task. */
  datatype Item = NoItem | Item(value: string)

  datatype Task = Task(
    id: string,
    call: ToolCall,
    item: Item,
    dependsOn: seq<string>,
    condition: string,
    branchTrue: seq<string>,
    branchFalse: seq<string>)

  type Collections = map<string, seq<string>>

  // ------------------------------------------------------------------
  // Generated ids
  // ------------------------------------------------------------------

  /** `f"{nid}_item_{i}"` */
  function ItemId(nid: string, i: nat): string {
    nid + "_item_" + Decimal(i)
  }

  /** No two map nodes, and no two positions, generate the same id. */
  lemma ItemIdInjective(m: string, i: nat, n: string, j: nat)
    requires ItemId(m, i) == ItemId(n, j)
    ensures m == n && i == j
  {
    var s, di, dj := ItemId(m, i), Decimal(i), Decimal(j);
    var a, b := |m + "_item"|, |n + "_item"|;
    assert s == (m + "_item") + ['_'] + di == (n + "_item") + ['_'] + dj;
    assert s[a] == '_' && s[b] == '_';
    forall k | a < k < |s|
      ensures s[k] != '_'
    {
      assert s[k] == di[k - a - 1];
    }
    forall k | b < k < |s|
      ensures s[k] != '_'
    {
      assert s[k] == dj[k - b - 1];
    }
    assert a == b;
    assert m == s[..|m|] && n == s[..|n|];
    assert di == s[a + 1..];
    assert dj == s[b + 1..];
    DecimalInjective(i, j);
  }

  // ------------------------------------------------------------------
  // Tasks
  // ------------------------------------------------------------------

  function ItemsOf(collections: Collections, node: PlanNode): seq<string> {
    if node.kind.MapNode? && node.iterateOver in collections then collections[node.iterateOver] else []
  }

  predicate FansOut(nodes: Nodes, collections: Collections, nid: string) {
    nid in nodes && ItemsOf(collections, nodes[nid]) != []
  }

  predicate RunsOnce(nodes: Nodes, collections: Collections, nid: string) {
    nid in nodes && (nodes[nid].kind.MapNode? || nodes[nid].kind.ToolNode? || nodes[nid].kind.ConditionalNode?) && !FansOut(nodes, collections, nid)
  }

  function SingleTask(nid: string, node: PlanNode): Task {
    if node.kind.ConditionalNode? then
      Task(nid, ToolCall("__conditional__", "", "GET", "", []), NoItem, node.dependsOn,
           node.condition, node.branchTrue, node.branchFalse)
    else
      Task(nid, node.call, NoItem, node.dependsOn, "", [], [])
  }

  function ItemTask(nid: string, node: PlanNode, i: nat, item: string): Task {
    Task(ItemId(nid, i), node.call, Item(item), node.dependsOn, "", [], [])
  }

  /** The tasks of the first `count` items. */
  function ItemTasks(nid: string, node: PlanNode, items: seq<string>, count: nat): seq<Task>
    requires count <= |items|
  {
    seq(count, i requires 0 <= i < count => ItemTask(nid, node, i, items[i]))
  }

  function ItemIds(nid: string, count: nat): seq<string> {
    seq(count, i requires 0 <= i < count => ItemId(nid, i))
  }

  /** The tasks a node stands for. */
  function TasksOf(nodes: Nodes, collections: Collections, nid: string): seq<Task>
    requires nid in nodes
  {
    var items := ItemsOf(collections, nodes[nid]);
    if FansOut(nodes, collections, nid) then ItemTasks(nid, nodes[nid], items, |items|)
    else if RunsOnce(nodes, collections, nid) then [SingleTask(nid, nodes[nid])]
    else []
  }

  /** The tasks of the first `k` nodes in iteration order. */
  function AllTasks(nodes: Nodes, collections: Collections, order: seq<string>, k: nat): seq<Task>
    requires k <= |order| && forall n | n in order :: n in nodes
  {
    if k == 0 then [] else
      AllTasks(nodes, collections, order, k - 1) + TasksOf(nodes, collections, order[k - 1])
  }

  /** A dictionary filled task by task: a later task replaces an earlier one of the same id. */
  function Index(tasks: seq<Task>): map<string, Task> {
    if tasks == [] then map[] else
      Index(tasks[..|tasks| - 1])[tasks[|tasks| - 1].id := tasks[|tasks| - 1]]
  }

  lemma {:induction false} IndexAppend(tasks: seq<Task>, t: Task)
    ensures Index(tasks + [t]) == Index(tasks)[t.id := t]
  {
    assert (tasks + [t])[..|tasks|] == tasks;
  }

  /** The fan-out ids of a node, if it fans out. */
  function FanOutStep(nodes: Nodes, collections: Collections, fanOut: map<string, seq<string>>, nid: string): map<string, seq<string>>
    requires nid in nodes
  {
    if FansOut(nodes, collections, nid) then fanOut[nid := ItemIds(nid, |ItemsOf(collections, nodes[nid])|)] else fanOut
  }

  function FanOutOf(nodes: Nodes, collections: Collections, order: seq<string>, k: nat): map<string, seq<string>>
    requires k <= |order| && forall n | n in order :: n in nodes
  {
    if k == 0 then map[] else
      FanOutStep(nodes, collections, FanOutOf(nodes, collections, order, k - 1), order[k - 1])
  }

  /** The ids that replace one wave entry. */
  function Replacement(taskMap: map<string, Task>, fanOut: map<string, seq<string>>, tid: string): seq<string> {
    if tid in fanOut then fanOut[tid] else if tid in taskMap then [tid] else []
  }

  function Expanded(taskMap: map<string, Task>, fanOut: map<string, seq<string>>, wave: seq<string>, k: nat): seq<string>
    requires k <= |wave|
  {
    if k == 0 then [] else
      Expanded(taskMap, fanOut, wave, k - 1) + Replacement(taskMap, fanOut, wave[k - 1])
  }

  function Select(taskMap: map<string, Task>, ids: seq<string>): seq<Task> {
    if ids == [] then [] else
      (if ids[0] in taskMap then [taskMap[ids[0]]] else []) + Select(taskMap, ids[1..])
  }

  method ExpandWave(taskMap: map<string, Task>, fanOut: map<string, seq<string>>, wave: seq<string>)
    returns (expanded: seq<string>)
    ensures expanded == Expanded(taskMap, fanOut, wave, |wave|)
  {
    expanded := [];
    for k := 0 to |wave|
      invariant expanded == Expanded(taskMap, fanOut, wave, k)
    {
      var tid := wave[k];
      if tid in fanOut {
        expanded := expanded + fanOut[tid];
      } else if tid in taskMap {
        expanded := expanded + [tid];
      }
    }
  }

  /** The waves the executor starts from: the graph's own, or rebuilt when it has none. */
  function WavesOf(nodes: Nodes, given: seq<seq<string>>): seq<seq<string>> {
    if given == [] then Schedule(nodes) else given
  }

  lemma WavesAre(nodes: Nodes, given: seq<seq<string>>)
    ensures given != [] ==> WavesOf(nodes, given) == given
    ensures given == [] ==> WavesOf(nodes, given) == Schedule(nodes)
  {
  }

  lemma ItemTasksStep(nid: string, node: PlanNode, items: seq<string>, done: seq<Task>, i: nat)
    requires i < |items|
    ensures Index(done + ItemTasks(nid, node, items, i + 1)) ==
            Index(done + ItemTasks(nid, node, items, i))[ItemId(nid, i) := ItemTask(nid, node, i, items[i])]
  {
    var task := ItemTask(nid, node, i, items[i]);
    IndexAppend(done + ItemTasks(nid, node, items, i), task);
    assert done + ItemTasks(nid, node, items, i + 1) == (done + ItemTasks(nid, node, items, i)) + [task];
  }

  lemma NoItemTasks(nid: string, node: PlanNode, items: seq<string>, done: seq<Task>)
    ensures done + ItemTasks(nid, node, items, 0) == done
  {
  }

  /** One task per item, with the list of their ids. */
  method AddItemTasks(nid: string, node: PlanNode, items: seq<string>, ghost done: seq<Task>, before: map<string, Task>)
    returns (taskMap: map<string, Task>, itemIds: seq<string>)
    requires before == Index(done)
    ensures taskMap == Index(done + ItemTasks(nid, node, items, |items|))
    ensures itemIds == ItemIds(nid, |items|)
  {
    taskMap, itemIds := before, [];
    NoItemTasks(nid, node, items, done);
    for i := 0 to |items|
      invariant itemIds == ItemIds(nid, i)
      invariant taskMap == Index(done + ItemTasks(nid, node, items, i))
    {
      var task := ItemTask(nid, node, i, items[i]);
      ItemTasksStep(nid, node, items, done, i);
      itemIds := itemIds + [task.id];
      taskMap := taskMap[task.id := task];
    }
  }

  function TablesAfter(nodes: Nodes, collections: Collections, order: seq<string>, k: nat): (map<string, Task>, map<string, seq<string>>)
    requires k <= |order| && forall n | n in order :: n in nodes
  {
    (Index(AllTasks(nodes, collections, order, k)), FanOutOf(nodes, collections, order, k))
  }

  lemma FillStep(nodes: Nodes, order: seq<string>, collections: Collections, k: nat)
    requires k < |order| && forall n | n in order :: n in nodes
    ensures var nid := order[k];
            var items := ItemsOf(collections, nodes[nid]);
            var (taskMap, fanOut) := TablesAfter(nodes, collections, order, k);
            TablesAfter(nodes, collections, order, k + 1) ==
            if FansOut(nodes, collections, nid) then
              (Index(AllTasks(nodes, collections, order, k) + ItemTasks(nid, nodes[nid], items, |items|)),
               fanOut[nid := ItemIds(nid, |items|)])
            else if RunsOnce(nodes, collections, nid) then (taskMap[nid := SingleTask(nid, nodes[nid])], fanOut)
            else (taskMap, fanOut)
  {
    var nid := order[k];
    var done := AllTasks(nodes, collections, order, k);
    IndexAppend(done, SingleTask(nid, nodes[nid]));
    assert done + [] == done;
  }

  /** The body of the loop over the nodes: the `k`-th node in iteration order. */
  method AddNode(nodes: Nodes, order: seq<string>, collections: Collections, k: nat,
                 taskMap0: map<string, Task>, fanOut0: map<string, seq<string>>)
    returns (taskMap: map<string, Task>, fanOut: map<string, seq<string>>)
    requires k < |order| && forall n | n in order :: n in nodes
    requires (taskMap0, fanOut0) == TablesAfter(nodes, collections, order, k)
    ensures (taskMap, fanOut) == TablesAfter(nodes, collections, order, k + 1)
  {
    FillStep(nodes, order, collections, k);
    taskMap, fanOut := taskMap0, fanOut0;
    var nid := order[k];
    var node := nodes[nid];
    var items := ItemsOf(collections, node);
    if node.kind.MapNode? && items != [] {
      var itemIds;
      taskMap, itemIds := AddItemTasks(nid, node, items, AllTasks(nodes, collections, order, k), taskMap);
      fanOut := fanOut[nid := itemIds];
    } else if node.kind.MapNode? || node.kind.ToolNode? || node.kind.ConditionalNode? {
      taskMap := taskMap[nid := SingleTask(nid, node)];
    }
  }

  /** `order` is the iteration order of the node dictionary. */
  method FillTasks(nodes: Nodes, order: seq<string>, collections: Collections)
    returns (taskMap: map<string, Task>, fanOut: map<string, seq<string>>)
    requires forall n | n in order :: n in nodes
    ensures taskMap == Index(AllTasks(nodes, collections, order, |order|))
    ensures fanOut == FanOutOf(nodes, collections, order, |order|)
  {
    taskMap, fanOut := map[], map[];
    for k := 0 to |order|
      invariant (taskMap, fanOut) == TablesAfter(nodes, collections, order, k)
    {
      taskMap, fanOut := AddNode(nodes, order, collections, k, taskMap, fanOut);
    }
  }

  method BuildTasks(nodes: Nodes, order: seq<string>, given: seq<seq<string>>, collections: Collections)
    returns (taskMap: map<string, Task>, waveTasks: seq<seq<Task>>)
    requires forall n | n in order :: n in nodes
    ensures taskMap == Index(AllTasks(nodes, collections, order, |order|))
    ensures |waveTasks| == |WavesOf(nodes, given)|
    ensures forall k | 0 <= k < |waveTasks| ::
              waveTasks[k] == TasksInWave(nodes, collections, order, WavesOf(nodes, given)[k])
  {
    var waves := given;
    if waves == [] {
      waves := RebuildWaves(nodes);
    }
    var fanOut;
    taskMap, fanOut := FillTasks(nodes, order, collections);
    waveTasks := [];
    for k := 0 to |waves|
      invariant |waveTasks| == k
      invariant forall i | 0 <= i < k :: waveTasks[i] == TasksInWave(nodes, collections, order, waves[i])
    {
      var ids := ExpandWave(taskMap, fanOut, waves[k]);
      waveTasks := waveTasks + [Select(taskMap, ids)];
    }
  }

  /** What one wave of node ids becomes. */
  function TasksInWave(nodes: Nodes, collections: Collections, order: seq<string>, wave: seq<string>): seq<Task>
    requires forall n | n in order :: n in nodes
  {
    var taskMap := Index(AllTasks(nodes, collections, order, |order|));
    var fanOut := FanOutOf(nodes, collections, order, |order|);
    Select(taskMap, Expanded(taskMap, fanOut, wave, |wave|))
  }
}
