/** ReflectionNode's graph patch and the executor's choice of graph. */
module RetryPatch {
  import opened Options
  import opened Graphs
  import opened Plan
  import opened WaveScheduler
  import opened WaveTheorems

  predicate Included(node: PlanNode, nid: string, failed: seq<string>) {
    nid in failed || exists d | d in node.dependsOn :: d in failed
  }

  /** The failed nodes and their direct dependents; nothing when that leaves no node. */
  function PatchOf(nodes: Nodes, failed: seq<string>): Option<Nodes> {
    var kept := map nid | nid in nodes && Included(nodes[nid], nid, failed) :: nodes[nid];
    if kept == map[] then None else Some(kept)
  }

  method BuildGraphPatch(nodes: Nodes, failed: seq<string>) returns (patch: Option<Nodes>)
    ensures patch == PatchOf(nodes, failed)
  {
    var failedSet := set f | f in failed;
    var chosen := failedSet;
    var pending := nodes.Keys;
    while pending != {}
      invariant pending <= nodes.Keys
      invariant chosen == failedSet + set n | n in nodes.Keys - pending && Included(nodes[n], n, failed)
      decreases pending
    {
      var nid :| nid in pending;
      pending := pending - {nid};
      if nid in failedSet {
        continue;
      }
      var i := 0;
      while i < |nodes[nid].dependsOn| && nodes[nid].dependsOn[i] !in failedSet
        invariant 0 <= i <= |nodes[nid].dependsOn|
        invariant forall j | 0 <= j < i :: nodes[nid].dependsOn[j] !in failed
      {
        i := i + 1;
      }
      if i < |nodes[nid].dependsOn| {
        chosen := chosen + {nid};
      }
    }
    var patched := map nid | nid in chosen && nid in nodes :: nodes[nid];
    assert patched == map nid | nid in nodes && Included(nodes[nid], nid, failed) :: nodes[nid];
    patch := if patched == map[] then None else Some(patched);
  }

  /** `state.get("_graph_patch") or state.get("_execution_graph")`. */
  function GraphToRun(patch: Option<Nodes>, graph: Option<Nodes>): Option<Nodes> {
    if patch.Some? then patch else graph
  }

  /** A node is part of the patch exactly when it failed or names a failed dependency, and it
      is the node it was; there is no patch exactly when there is no such node. */
  lemma PatchHolds(nodes: Nodes, failed: seq<string>, n: string)
    ensures var kept := n in nodes && (n in failed || exists d :: d in nodes[n].dependsOn && d in failed);
            var patch := PatchOf(nodes, failed);
            && (kept <==> patch.Some? && n in patch.value)
            && (kept ==> patch.value[n] == nodes[n])
            && (patch.Some? ==> patch.value != map[])
  {
    var kept := map nid | nid in nodes && Included(nodes[nid], nid, failed) :: nodes[nid];
    if kept == map[] {
      assert n !in kept;
    }
  }

  lemma PatchIsSubPlan(nodes: Nodes, failed: seq<string>)
    ensures PatchOf(nodes, failed).Some? ==>
              && SubPlan(PatchOf(nodes, failed).value, nodes)
              && forall n | n in PatchOf(nodes, failed).value :: PatchOf(nodes, failed).value[n] == nodes[n]
  {
  }

  /** A retry of an acyclic graph runs no node in a later wave than the full run did, and
      never needs more waves; the patch carries no waves, so they are rebuilt. */
  lemma RetryNeedsNoMoreWaves(nodes: Nodes, failed: seq<string>)
    requires Acyclic(Edges(nodes)) && PatchOf(nodes, failed).Some?
    ensures var patch := PatchOf(nodes, failed).value;
            && |Schedule(patch)| <= |Schedule(nodes)|
            && Acyclic(Edges(patch))
            && forall n | n in patch :: LevelOf(Edges(patch), n) <= LevelOf(Edges(nodes), n)
  {
    PatchIsSubPlan(nodes, failed);
    SubPlanNeedsNoMore(PatchOf(nodes, failed).value, nodes);
  }

  /** A retry is partial only if some failed id names a node or a dependency of the graph;
      otherwise there is no patch and the whole graph is run again. */
  lemma RetryIsPartialIff(nodes: Nodes, failed: seq<string>)
    ensures GraphToRun(PatchOf(nodes, failed), Some(nodes)) == Some(nodes) <==>
              || (forall n | n in nodes :: !Included(nodes[n], n, failed))
              || (forall n | n in nodes :: Included(nodes[n], n, failed))
  {
    var kept := map nid | nid in nodes && Included(nodes[nid], nid, failed) :: nodes[nid];
    assert forall n | n in nodes :: n in kept <==> Included(nodes[n], n, failed);
    if forall n | n in nodes :: Included(nodes[n], n, failed) {
      assert kept == nodes;
    }
    if forall n | n in nodes :: !Included(nodes[n], n, failed) {
      assert kept == map[];
    }
    if kept == map[] {
      assert forall n | n in nodes :: n !in kept;
    }
  }
}
