/** Dependency graphs: `g[n]` is the set of ids that `n` depends on. */
module Graphs {

  type Graph = map<string, set<string>>

  /** `n` waits for `d`, and both are nodes of the graph. */
  predicate DependsOn(g: Graph, n: string, d: string) {
    n in g && d in g && d in g[n]
  }

  /** A non-empty dependency chain, dependencies first. */
  ghost predicate Chain(g: Graph, p: seq<string>) {
    && p != []
    && (forall i | 0 <= i < |p| :: p[i] in g)
    && (forall i | 0 <= i < |p| - 1 :: DependsOn(g, p[i + 1], p[i]))
  }

  ghost predicate ChainTo(g: Graph, p: seq<string>, n: string) {
    Chain(g, p) && p[|p| - 1] == n
  }

  /** No chain of two or more entries comes back to its start; self-dependencies are cycles. */
  ghost predicate Acyclic(g: Graph) {
    forall p | Chain(g, p) && |p| >= 2 :: p[0] != p[|p| - 1]
  }

  /** `n` waits for some node of `rest`. */
  predicate Waits(g: Graph, rest: set<string>, n: string) {
    exists d | d in rest :: DependsOn(g, n, d)
  }

  /** No node of `rest` can start: each waits for a node of `rest`. */
  predicate Stuck(g: Graph, rest: set<string>) {
    rest != {} && forall n | n in rest :: Waits(g, rest, n)
  }

  /** Pigeonhole. */
  lemma {:induction false} DistinctFits(p: seq<string>, ids: set<string>)
    requires forall i | 0 <= i < |p| :: p[i] in ids
    requires forall i, j | 0 <= i < j < |p| :: p[i] != p[j]
    ensures |p| <= |ids|
  {
    if p != [] {
      DistinctFits(p[1..], ids - {p[0]});
    }
  }

  lemma SubChain(g: Graph, p: seq<string>, i: nat, j: nat)
    requires Chain(g, p) && i <= j < |p|
    ensures Chain(g, p[i..j + 1])
  {
    var q := p[i..j + 1];
    forall k | 0 <= k < |q| - 1
      ensures DependsOn(g, q[k + 1], q[k])
    {
      assert q[k + 1] == p[i + k + 1] && q[k] == p[i + k];
    }
  }

  lemma AcyclicChainFits(g: Graph, p: seq<string>)
    requires Acyclic(g) && Chain(g, p)
    ensures forall i, j | 0 <= i < j < |p| :: p[i] != p[j]
    ensures |p| <= |g.Keys|
  {
    forall i, j | 0 <= i < j < |p|
      ensures p[i] != p[j]
    {
      SubChain(g, p, i, j);
      var loop := p[i..j + 1];
      assert loop[0] == p[i] && loop[|loop| - 1] == p[j];
    }
    DistinctFits(p, g.Keys);
  }

  /** A stuck set holds chains of every length. */
  lemma {:induction false} StuckChain(g: Graph, rest: set<string>, length: nat) returns (p: seq<string>)
    requires Stuck(g, rest) && length >= 1
    ensures Chain(g, p) && |p| == length && p[0] in rest
  {
    if length == 1 {
      var n :| n in rest;
      assert Waits(g, rest, n);
      p := [n];
    } else {
      var q := StuckChain(g, rest, length - 1);
      assert Waits(g, rest, q[0]);
      var d :| d in rest && DependsOn(g, q[0], d);
      p := [d] + q;
    }
  }

  lemma StuckIsCyclic(g: Graph, rest: set<string>)
    requires Stuck(g, rest)
    ensures !Acyclic(g)
  {
    var p := StuckChain(g, rest, |g.Keys| + 1);
    if Acyclic(g) {
      AcyclicChainFits(g, p);
    }
  }

  /** `f` starts every node strictly after everything it depends on. */
  ghost predicate RespectsDependencies(g: Graph, f: map<string, nat>) {
    && g.Keys <= f.Keys
    && forall n, d | DependsOn(g, n, d) :: f[d] < f[n]
  }

  /** The last node of a chain cannot start before step `|chain| - 1`. */
  lemma {:induction false} ChainBoundsLevel(g: Graph, f: map<string, nat>, p: seq<string>)
    requires RespectsDependencies(g, f) && Chain(g, p)
    ensures f[p[0]] + |p| - 1 <= f[p[|p| - 1]]
  {
    if |p| >= 2 {
      SubChain(g, p, 0, |p| - 2);
      ChainBoundsLevel(g, f, p[..|p| - 1]);
      assert DependsOn(g, p[|p| - 2 + 1], p[|p| - 2]);
    }
  }

  lemma RespectedIsAcyclic(g: Graph, f: map<string, nat>)
    requires RespectsDependencies(g, f)
    ensures Acyclic(g)
  {
    forall p | Chain(g, p) && |p| >= 2
      ensures p[0] != p[|p| - 1]
    {
      ChainBoundsLevel(g, f, p);
    }
  }

  /** A set of nodes each of which waits for another of them. */
  ghost predicate Ring(g: Graph, ring: set<string>) {
    ring != {} && ring <= g.Keys && Stuck(g, ring)
  }

  lemma CycleHasRing(g: Graph)
    requires !Acyclic(g)
    ensures exists ring :: Ring(g, ring)
  {
    var p :| Chain(g, p) && |p| >= 2 && p[0] == p[|p| - 1];
    var ring := set x | x in p;
    forall n | n in ring
      ensures Waits(g, ring, n)
    {
      var i :| 0 <= i < |p| && p[i] == n;
      var j := if i == 0 then |p| - 1 else i;
      assert DependsOn(g, p[j - 1 + 1], p[j - 1]);
    }
    assert p[0] in ring;
    assert Ring(g, ring);
  }
}
