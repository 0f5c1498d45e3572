/** `_transitive_supports`: for each planned node, the operations that feed it. */
module PlanSupport {
  import opened Options
  import opened Graphs

  datatype PlannedNode = PlannedNode(op: string, dependsOn: seq<string>)

  type Planned = map<string, PlannedNode>
  type Supports = map<string, set<string>>

  /** The dependencies that name a planned node. */
  function Resolvable(nodes: Planned): Graph {
    map n | n in nodes :: set d | d in nodes[n].dependsOn && d in nodes
  }

  /** `d` reaches `n` by one or more dependency steps. */
  ghost predicate Feeds(g: Graph, d: string, n: string) {
    exists p :: ChainTo(g, p, n) && |p| >= 2 && p[0] == d
  }

  /** The operations of everything that feeds `n`. */
  ghost function SupportOf(nodes: Planned, n: string): set<string> {
    set d | d in nodes && Feeds(Resolvable(nodes), d, n) :: nodes[d].op
  }

  lemma FeedsByStep(g: Graph, x: string, n: string)
    ensures Feeds(g, x, n) <==> exists d :: DependsOn(g, n, d) && (x == d || Feeds(g, x, d))
  {
    if Feeds(g, x, n) {
      var p :| ChainTo(g, p, n) && |p| >= 2 && p[0] == x;
      var d := p[|p| - 2];
      assert DependsOn(g, p[|p| - 2 + 1], p[|p| - 2]);
      if |p| > 2 {
        SubChain(g, p, 0, |p| - 2);
        assert ChainTo(g, p[..|p| - 1], d);
      }
    }
    if d :| DependsOn(g, n, d) && (x == d || Feeds(g, x, d)) {
      if x == d {
        assert ChainTo(g, [d, n], n);
      } else {
        var p :| ChainTo(g, p, d) && |p| >= 2 && p[0] == x;
        assert ChainTo(g, p + [n], n);
      }
    }
  }

  /** What the first `k` entries of a dependency list contribute. */
  ghost function Contribution(nodes: Planned, deps: seq<string>, k: nat): set<string>
    requires k <= |deps|
  {
    if k == 0 then {} else
      Contribution(nodes, deps, k - 1) +
      if deps[k - 1] in nodes then {nodes[deps[k - 1]].op} + SupportOf(nodes, deps[k - 1]) else {}
  }

  lemma {:induction false} ContributionOps(nodes: Planned, deps: seq<string>, k: nat, op: string)
    requires k <= |deps|
    ensures op in Contribution(nodes, deps, k) <==>
              exists i | 0 <= i < k :: deps[i] in nodes && (op == nodes[deps[i]].op || op in SupportOf(nodes, deps[i]))
  {
    if k > 0 {
      ContributionOps(nodes, deps, k - 1, op);
    }
  }

  lemma SupportIsContribution(nodes: Planned, n: string)
    requires n in nodes
    ensures SupportOf(nodes, n) == Contribution(nodes, nodes[n].dependsOn, |nodes[n].dependsOn|)
  {
    var g, deps := Resolvable(nodes), nodes[n].dependsOn;
    forall op
      ensures op in SupportOf(nodes, n) <==> op in Contribution(nodes, deps, |deps|)
    {
      ContributionOps(nodes, deps, |deps|, op);
      if op in SupportOf(nodes, n) {
        var x :| x in nodes && Feeds(g, x, n) && nodes[x].op == op;
        FeedsByStep(g, x, n);
        var d :| DependsOn(g, n, d) && (x == d || Feeds(g, x, d));
        var i :| 0 <= i < |deps| && deps[i] == d;
      }
      if op in Contribution(nodes, deps, |deps|) {
        var i :| 0 <= i < |deps| && deps[i] in nodes && (op == nodes[deps[i]].op || op in SupportOf(nodes, deps[i]));
        var d := deps[i];
        assert DependsOn(g, n, d);
        if op == nodes[d].op {
          FeedsByStep(g, d, n);
        } else {
          var x :| x in nodes && Feeds(g, x, d) && nodes[x].op == op;
          FeedsByStep(g, x, n);
        }
      }
    }
  }

  /** The memo holds finished nodes only, each with its true support. */
  ghost predicate MemoSound(nodes: Planned, support: Supports) {
    forall k | k in support :: k in nodes && support[k] == SupportOf(nodes, k)
  }

  // ------------------------------------------------------------------
  // The recursion and its limit
  // ------------------------------------------------------------------

  /** The walk with at most `fuel` nested calls; `None` when they do not suffice. */
  function WalkWithin(nodes: Planned, support: Supports, nid: string, fuel: nat): Option<set<string>>
    decreases fuel, 0
  {
    if nid in support then Some(support[nid])
    else if nid !in nodes then Some({})
    else if fuel == 0 then None
    else WalkDeps(nodes, support, nodes[nid].dependsOn, fuel)
  }

  function WalkDeps(nodes: Planned, support: Supports, deps: seq<string>, fuel: nat): Option<set<string>>
    requires fuel > 0
    decreases fuel - 1, |deps| + 1
  {
    if deps == [] then Some({})
    else if deps[0] !in nodes then WalkDeps(nodes, support, deps[1..], fuel)
    else
      match WalkWithin(nodes, support, deps[0], fuel - 1)
      case None => None
      case Some(first) =>
        match WalkDeps(nodes, support, deps[1..], fuel)
        case None => None
        case Some(rest) => Some({nodes[deps[0]].op} + first + rest)
  }

  /** The outer loop over the first `k` nodes, every walk limited to `fuel` nested calls. */
  function SupportsWithin(nodes: Planned, order: seq<string>, k: nat, fuel: nat): Option<Supports>
    requires k <= |order|
  {
    if k == 0 then Some(map[]) else
      match SupportsWithin(nodes, order, k - 1, fuel)
      case None => None
      case Some(support) =>
        match WalkWithin(nodes, support, order[k - 1], fuel)
        case None => None
        case Some(ops) => Some(support[order[k - 1] := ops])
  }

  /** Whenever the walk finishes, on a cyclic plan too, it returns the true support. */
  lemma {:induction false} WalkWithinIsSupport(nodes: Planned, support: Supports, nid: string, fuel: nat)
    requires MemoSound(nodes, support) && nid in nodes && WalkWithin(nodes, support, nid, fuel).Some?
    ensures WalkWithin(nodes, support, nid, fuel).value == SupportOf(nodes, nid)
    decreases fuel, 0
  {
    if nid !in support {
      var deps := nodes[nid].dependsOn;
      SupportIsContribution(nodes, nid);
      forall op
        ensures op in WalkWithin(nodes, support, nid, fuel).value <==> op in Contribution(nodes, deps, |deps|)
      {
        WalkDepsOps(nodes, support, deps, fuel, op);
        ContributionOps(nodes, deps, |deps|, op);
      }
    }
  }

  lemma {:induction false} WalkDepsOps(nodes: Planned, support: Supports, deps: seq<string>, fuel: nat, op: string)
    requires MemoSound(nodes, support) && fuel > 0 && WalkDeps(nodes, support, deps, fuel).Some?
    ensures op in WalkDeps(nodes, support, deps, fuel).value <==>
              exists i | 0 <= i < |deps| :: deps[i] in nodes && (op == nodes[deps[i]].op || op in SupportOf(nodes, deps[i]))
    decreases fuel - 1, |deps| + 1
  {
    if deps != [] {
      WalkDepsOps(nodes, support, deps[1..], fuel, op);
      if deps[0] in nodes {
        WalkWithinIsSupport(nodes, support, deps[0], fuel - 1);
      }
      if exists i | 0 <= i < |deps[1..]| :: deps[1..][i] in nodes && (op == nodes[deps[1..][i]].op || op in SupportOf(nodes, deps[1..][i])) {
        var i :| 0 <= i < |deps[1..]| && deps[1..][i] in nodes && (op == nodes[deps[1..][i]].op || op in SupportOf(nodes, deps[1..][i]));
        assert deps[i + 1] == deps[1..][i];
      }
    }
  }

  lemma {:induction false} SupportsWithinAreSupports(nodes: Planned, order: seq<string>, k: nat, fuel: nat)
    requires k <= |order| && (forall n | n in order :: n in nodes) && SupportsWithin(nodes, order, k, fuel).Some?
    ensures var supports := SupportsWithin(nodes, order, k, fuel).value;
            MemoSound(nodes, supports) && forall n :: n in supports <==> n in order[..k]
  {
    if k > 0 {
      SupportsWithinAreSupports(nodes, order, k - 1, fuel);
      WalkWithinIsSupport(nodes, SupportsWithin(nodes, order, k - 1, fuel).value, order[k - 1], fuel);
      assert order[..k] == order[..k - 1] + [order[k - 1]];
    }
  }

  lemma {:induction false} DepsFail(nodes: Planned, support: Supports, deps: seq<string>, fuel: nat, dep: string)
    requires fuel > 0 && dep in deps && dep in nodes && WalkWithin(nodes, support, dep, fuel - 1).None?
    ensures WalkDeps(nodes, support, deps, fuel).None?
  {
    if deps[0] != dep {
      DepsFail(nodes, support, deps[1..], fuel, dep);
    }
  }

  /** No amount of fuel finishes a walk inside a ring that the memo knows nothing of. */
  lemma {:induction false} RingNeverFinishes(nodes: Planned, support: Supports, ring: set<string>, nid: string, fuel: nat)
    requires Ring(Resolvable(nodes), ring) && nid in ring && support.Keys !! ring
    ensures WalkWithin(nodes, support, nid, fuel).None?
    decreases fuel
  {
    assert nid in nodes;
    if fuel > 0 {
      assert Waits(Resolvable(nodes), ring, nid);
      var d :| d in ring && DependsOn(Resolvable(nodes), nid, d);
      RingNeverFinishes(nodes, support, ring, d, fuel - 1);
      DepsFail(nodes, support, nodes[nid].dependsOn, fuel, d);
    }
  }

  lemma {:induction false} RingStaysOut(nodes: Planned, order: seq<string>, k: nat, fuel: nat, ring: set<string>)
    requires k <= |order| && Ring(Resolvable(nodes), ring)
    ensures SupportsWithin(nodes, order, k, fuel).Some? ==>
              SupportsWithin(nodes, order, k, fuel).value.Keys !! ring && forall i | 0 <= i < k :: order[i] !in ring
  {
    if k > 0 {
      RingStaysOut(nodes, order, k - 1, fuel, ring);
      if SupportsWithin(nodes, order, k - 1, fuel).Some? && order[k - 1] in ring {
        RingNeverFinishes(nodes, SupportsWithin(nodes, order, k - 1, fuel).value, ring, order[k - 1], fuel);
      }
    }
  }

  lemma {:induction false} WalkFinishes(nodes: Planned, support: Supports, nid: string, fuel: nat, path: seq<string>)
    requires Acyclic(Resolvable(nodes)) && nid in nodes
    requires Chain(Resolvable(nodes), path) && path[0] == nid && fuel + |path| > |nodes.Keys|
    ensures WalkWithin(nodes, support, nid, fuel).Some?
    decreases fuel, 0
  {
    var g := Resolvable(nodes);
    assert g.Keys == nodes.Keys;
    AcyclicChainFits(g, path);
    if nid !in support {
      DepsFinish(nodes, support, nodes[nid].dependsOn, fuel, path);
    }
  }

  lemma {:induction false} DepsFinish(nodes: Planned, support: Supports, deps: seq<string>, fuel: nat, path: seq<string>)
    requires Acyclic(Resolvable(nodes)) && fuel > 0
    requires Chain(Resolvable(nodes), path) && path[0] in nodes && fuel + |path| > |nodes.Keys|
    requires forall d | d in deps :: d in nodes[path[0]].dependsOn
    ensures WalkDeps(nodes, support, deps, fuel).Some?
    decreases fuel - 1, |deps| + 1
  {
    if deps != [] {
      DepsFinish(nodes, support, deps[1..], fuel, path);
      if deps[0] in nodes {
        assert DependsOn(Resolvable(nodes), path[0], deps[0]);
        WalkFinishes(nodes, support, deps[0], fuel - 1, [deps[0]] + path);
      }
    }
  }

  lemma {:induction false} AllWalksFinish(nodes: Planned, order: seq<string>, k: nat, fuel: nat)
    requires Acyclic(Resolvable(nodes)) && k <= |order| && (forall n | n in order :: n in nodes) && fuel >= |nodes.Keys|
    ensures SupportsWithin(nodes, order, k, fuel).Some?
  {
    if k > 0 {
      AllWalksFinish(nodes, order, k - 1, fuel);
      assert Chain(Resolvable(nodes), [order[k - 1]]);
      WalkFinishes(nodes, SupportsWithin(nodes, order, k - 1, fuel).value, order[k - 1], fuel, [order[k - 1]]);
    }
  }

  /** The set `seen` that the walk carries does not stop it: the computation comes to an end
      exactly on acyclic plans, there as many nested calls as nodes suffice, and however many
      are allowed a finished computation has found the true supports. */
  lemma FinishesIffAcyclic(nodes: Planned, order: seq<string>)
    requires forall n :: n in order <==> n in nodes
    ensures (exists fuel :: SupportsWithin(nodes, order, |order|, fuel).Some?) <==> Acyclic(Resolvable(nodes))
    ensures Acyclic(Resolvable(nodes)) ==> forall fuel | fuel >= |nodes.Keys| :: SupportsWithin(nodes, order, |order|, fuel).Some?
    ensures forall fuel | SupportsWithin(nodes, order, |order|, fuel).Some? ::
              SupportsWithin(nodes, order, |order|, fuel).value == map n | n in nodes :: SupportOf(nodes, n)
  {
    forall fuel | SupportsWithin(nodes, order, |order|, fuel).Some?
      ensures SupportsWithin(nodes, order, |order|, fuel).value == map n | n in nodes :: SupportOf(nodes, n)
    {
      SupportsWithinAreSupports(nodes, order, |order|, fuel);
      assert order[..|order|] == order;
    }
    if Acyclic(Resolvable(nodes)) {
      forall fuel | fuel >= |nodes.Keys|
        ensures SupportsWithin(nodes, order, |order|, fuel).Some?
      {
        AllWalksFinish(nodes, order, |order|, fuel);
      }
      assert SupportsWithin(nodes, order, |order|, |nodes.Keys|).Some?;
    } else {
      forall fuel
        ensures SupportsWithin(nodes, order, |order|, fuel).None?
      {
        CyclicNeverFinishes(nodes, order, fuel);
      }
    }
  }

  lemma CyclicNeverFinishes(nodes: Planned, order: seq<string>, fuel: nat)
    requires !Acyclic(Resolvable(nodes)) && forall n :: n in order <==> n in nodes
    ensures SupportsWithin(nodes, order, |order|, fuel).None?
  {
    CycleHasRing(Resolvable(nodes));
    var ring :| Ring(Resolvable(nodes), ring);
    RingStaysOut(nodes, order, |order|, fuel, ring);
    var n :| n in ring;
    var i :| 0 <= i < |order| && order[i] == n;
  }

  // ------------------------------------------------------------------
  // The loops
  // ------------------------------------------------------------------

  function Joined(found: set<string>, rest: Option<set<string>>): Option<set<string>> {
    match rest
    case None => None
    case Some(ops) => Some(found + ops)
  }

  lemma JoinedNothing(rest: Option<set<string>>)
    ensures Joined({}, rest) == rest
  {
    if rest.Some? {
      assert {} + rest.value == rest.value;
    }
  }

  lemma WalkDepsNext(nodes: Planned, support: Supports, deps: seq<string>, i: nat, depth: nat, found: set<string>)
    requires i < |deps| && depth > 0
    ensures var rest := WalkDeps(nodes, support, deps[i + 1..], depth);
            Joined(found, WalkDeps(nodes, support, deps[i..], depth)) ==
              if deps[i] !in nodes then Joined(found, rest)
              else
                match WalkWithin(nodes, support, deps[i], depth - 1)
                case None => None
                case Some(more) => Joined(found + {nodes[deps[i]].op} + more, rest)
  {
    assert deps[i..][0] == deps[i] && deps[i..][1..] == deps[i + 1..];
    if deps[i] in nodes && WalkWithin(nodes, support, deps[i], depth - 1).Some? {
      var more := WalkWithin(nodes, support, deps[i], depth - 1).value;
      var rest := WalkDeps(nodes, support, deps[i + 1..], depth);
      if rest.Some? {
        assert found + ({nodes[deps[i]].op} + more + rest.value) == found + {nodes[deps[i]].op} + more + rest.value;
      }
    }
  }

  /** `_walk`, with at most `depth` further nested calls before the interpreter gives up; `seen`
      is carried along and never read. */
  method Walk(nodes: Planned, support: Supports, nid: string, seen: set<string>, depth: nat) returns (ops: Option<set<string>>)
    ensures ops == WalkWithin(nodes, support, nid, depth)
    ensures MemoSound(nodes, support) && ops.Some? ==> ops.value == if nid in nodes then SupportOf(nodes, nid) else {}
    decreases depth
  {
    if MemoSound(nodes, support) && nid in nodes && WalkWithin(nodes, support, nid, depth).Some? {
      WalkWithinIsSupport(nodes, support, nid, depth);
    }
    if nid in support {
      return Some(support[nid]);
    }
    var found: set<string> := {};
    if nid !in nodes {
      return Some(found);
    }
    if depth == 0 {
      return None;
    }
    var deps := nodes[nid].dependsOn;
    var i := 0;
    assert deps[0..] == deps;
    JoinedNothing(WalkDeps(nodes, support, deps, depth));
    while i < |deps|
      invariant 0 <= i <= |deps|
      invariant WalkWithin(nodes, support, nid, depth) == Joined(found, WalkDeps(nodes, support, deps[i..], depth))
    {
      WalkDepsNext(nodes, support, deps, i, depth, found);
      var dep := deps[i];
      i := i + 1;
      if dep !in nodes {
        continue;
      }
      found := found + {nodes[dep].op};
      var more := Walk(nodes, support, dep, seen + {dep}, depth - 1);
      if more.None? {
        return None;
      }
      found := found + more.value;
    }
    assert deps[i..] == [];
    assert found + {} == found;
    return Some(found);
  }

  /** Every node is mapped to exactly the operations that feed it, whatever the order in which
      the nodes are visited; on a cyclic plan the recursion exceeds every limit. */
  method TransitiveSupports(nodes: Planned, order: seq<string>, depth: nat) returns (supports: Option<Supports>)
    requires forall n :: n in order <==> n in nodes
    ensures supports == SupportsWithin(nodes, order, |order|, depth)
    ensures supports.Some? ==> supports.value == map n | n in nodes :: SupportOf(nodes, n)
    ensures supports.Some? ==> Acyclic(Resolvable(nodes))
    ensures Acyclic(Resolvable(nodes)) && depth >= |nodes.Keys| ==> supports.Some?
  {
    FinishesIffAcyclic(nodes, order);
    var support: Supports := map[];
    var i := 0;
    while i < |order|
      invariant 0 <= i <= |order|
      invariant SupportsWithin(nodes, order, i, depth) == Some(support)
    {
      var ops := Walk(nodes, support, order[i], {}, depth);
      if ops.None? {
        TooDeepStays(nodes, order, i + 1, depth);
        return None;
      }
      support := support[order[i] := ops.value];
      i := i + 1;
    }
    return Some(support);
  }

  lemma {:induction false} TooDeepStays(nodes: Planned, order: seq<string>, k: nat, fuel: nat)
    requires k <= |order| && SupportsWithin(nodes, order, k, fuel).None?
    ensures SupportsWithin(nodes, order, |order|, fuel).None?
    decreases |order| - k
  {
    if k < |order| {
      TooDeepStays(nodes, order, k + 1, fuel);
    }
  }
}
