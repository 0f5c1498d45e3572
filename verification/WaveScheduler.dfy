/** `_rebuild_waves`: Kahn levelling that breaks a cycle by promoting the lowest id.

    `Levels` says which waves come out in terms of the set of ids still to be placed;
    the method gets there by shrinking a dictionary of unmet dependencies. */
module WaveScheduler {
  import opened Ids
  import opened Graphs
  import opened Plan

  /** The dependencies that exist in the graph. */
  function Edges(nodes: Nodes): Graph {
    map nid | nid in nodes :: set d | d in nodes[nid].dependsOn && d in nodes
  }

  function ReadyIn(g: Graph, rest: set<string>): set<string> {
    set n | n in rest && !Waits(g, rest, n)
  }

  /** The ids placed next when exactly `rest` is left. */
  function Front(g: Graph, rest: set<string>): (f: set<string>)
    requires rest != {}
    ensures f != {} && f <= rest
  {
    if ReadyIn(g, rest) == {} then {Least(rest)} else ReadyIn(g, rest)
  }

  /** The waves, as sets, for the ids in `rest`. */
  function Levels(g: Graph, rest: set<string>): seq<set<string>>
    decreases rest
  {
    if rest == {} then [] else [Front(g, rest)] + Levels(g, rest - Front(g, rest))
  }

  function SortAll(levels: seq<set<string>>): seq<seq<string>> {
    seq(|levels|, i requires 0 <= i < |levels| => Sorted(levels[i]))
  }

  function Schedule(nodes: Nodes): seq<seq<string>> {
    SortAll(Levels(Edges(nodes), nodes.Keys))
  }

  /** One round of the loop: drop what is placed from the keys and from every value. */
  function Shrink(remaining: Graph, placed: set<string>): Graph {
    map nid | nid in remaining && nid !in placed :: remaining[nid] - placed
  }

  /** The dictionary holds exactly the unmet dependencies of its keys. */
  ghost predicate Unmet(g: Graph, remaining: Graph) {
    && remaining.Keys <= g.Keys
    && forall n | n in remaining :: remaining[n] == g[n] * remaining.Keys
  }

  lemma UnmetReady(g: Graph, remaining: Graph)
    requires Unmet(g, remaining)
    ensures (set nid | nid in remaining && remaining[nid] == {}) == ReadyIn(g, remaining.Keys)
  {
    forall n | n in remaining
      ensures remaining[n] == {} <==> !Waits(g, remaining.Keys, n)
    {
      assert forall d | d in remaining :: DependsOn(g, n, d) <==> d in remaining[n];
    }
  }

  lemma UnmetShrinks(g: Graph, remaining: Graph, placed: set<string>)
    requires Unmet(g, remaining)
    ensures Unmet(g, Shrink(remaining, placed))
    ensures Shrink(remaining, placed).Keys == remaining.Keys - placed
  {
  }

  lemma SortAllCons(front: set<string>, tail: seq<set<string>>)
    ensures SortAll([front] + tail) == [Sorted(front)] + SortAll(tail)
  {
  }

  /** `waves` are the first waves of the schedule and `remaining` is what they leave. */
  ghost predicate Reached(nodes: Nodes, waves: seq<seq<string>>, remaining: Graph) {
    && Unmet(Edges(nodes), remaining)
    && Schedule(nodes) == waves + SortAll(Levels(Edges(nodes), remaining.Keys))
  }

  lemma ReachedNext(nodes: Nodes, waves: seq<seq<string>>, remaining: Graph)
    requires Reached(nodes, waves, remaining) && remaining.Keys != {}
    ensures var front := Front(Edges(nodes), remaining.Keys);
            Reached(nodes, waves + [Sorted(front)], Shrink(remaining, front))
  {
    var front := Front(Edges(nodes), remaining.Keys);
    UnmetShrinks(Edges(nodes), remaining, front);
    SortAllCons(front, Levels(Edges(nodes), remaining.Keys - front));
  }

  method RebuildWaves(nodes: Nodes) returns (waves: seq<seq<string>>)
    ensures waves == Schedule(nodes)
  {
    var remaining: map<string, set<string>> := map nid | nid in nodes :: set d | d in nodes[nid].dependsOn;
    remaining := map nid | nid in remaining :: set d | d in remaining[nid] && d in nodes;
    assert remaining.Keys == Edges(nodes).Keys == nodes.Keys;
    waves := [];
    while remaining.Keys != {}
      invariant Reached(nodes, waves, remaining)
      decreases remaining.Keys
    {
      ReachedNext(nodes, waves, remaining);
      UnmetReady(Edges(nodes), remaining);
      var ready := set nid | nid in remaining && remaining[nid] == {};
      if ready == {} {
        SortedHead(remaining.Keys);
        var victim := Sorted(remaining.Keys)[0];
        SortedOfOne(victim);
        remaining := Shrink(remaining, {victim});
        waves := waves + [[victim]];
        continue;
      }
      waves := waves + [Sorted(ready)];
      remaining := Shrink(remaining, ready);
    }
  }

  // ------------------------------------------------------------------
  // What the waves look like
  // ------------------------------------------------------------------

  ghost predicate At(levels: seq<set<string>>, k: nat, n: string) {
    k < |levels| && n in levels[k]
  }

  /** The ids of the first `k` levels. */
  ghost function Before(levels: seq<set<string>>, k: nat): set<string>
    requires k <= |levels|
  {
    if k == 0 then {} else Before(levels, k - 1) + levels[k - 1]
  }

  /** Each level is the front of what the earlier levels left. */
  ghost predicate FrontAt(g: Graph, rest: set<string>, levels: seq<set<string>>, k: nat)
    requires k < |levels|
  {
    var left := rest - Before(levels, k);
    left != {} && levels[k] == Front(g, left)
  }

  ghost predicate Levelled(g: Graph, rest: set<string>, levels: seq<set<string>>) {
    && (forall k: nat | k < |levels| :: FrontAt(g, rest, levels, k))
    && Before(levels, |levels|) == rest
  }

  lemma {:induction false} BeforeCons(first: set<string>, tail: seq<set<string>>, k: nat)
    requires k <= |tail|
    ensures Before([first] + tail, k + 1) == first + Before(tail, k)
  {
    if k > 0 {
      BeforeCons(first, tail, k - 1);
    }
  }

  lemma {:induction false} BeforeIsUnion(levels: seq<set<string>>, k: nat, n: string)
    requires k <= |levels|
    ensures n in Before(levels, k) <==> exists i: nat | i < k :: At(levels, i, n)
  {
    if k > 0 {
      BeforeIsUnion(levels, k - 1, n);
      assert n in levels[k - 1] <==> At(levels, k - 1, n);
    }
  }

  lemma {:induction false} BeforeDependsOnPrefix(v: seq<set<string>>, w: seq<set<string>>, k: nat)
    requires k <= |v| && k <= |w| && v[..k] == w[..k]
    ensures Before(v, k) == Before(w, k)
  {
    if k > 0 {
      assert v[..k - 1] == v[..k][..k - 1] == w[..k - 1];
      assert v[k - 1] == v[..k][k - 1] == w[k - 1];
      BeforeDependsOnPrefix(v, w, k - 1);
    }
  }

  lemma {:induction false} LevelsLevelled(g: Graph, rest: set<string>)
    ensures Levelled(g, rest, Levels(g, rest))
    decreases rest
  {
    if rest != {} {
      var front := Front(g, rest);
      var tail := Levels(g, rest - front);
      var levels := [front] + tail;
      LevelsLevelled(g, rest - front);
      BeforeCons(front, tail, |tail|);
      forall k: nat | k < |levels|
        ensures FrontAt(g, rest, levels, k)
      {
        if k == 0 {
          assert rest - Before(levels, 0) == rest;
        } else {
          BeforeCons(front, tail, k - 1);
          assert FrontAt(g, rest - front, tail, k - 1);
          assert rest - Before(levels, k) == rest - front - Before(tail, k - 1);
        }
      }
    }
  }

  lemma {:induction false} LevelledPrefix(g: Graph, rest: set<string>, v: seq<set<string>>, w: seq<set<string>>, k: nat)
    requires Levelled(g, rest, v) && Levelled(g, rest, w) && k <= |v|
    ensures k <= |w| && v[..k] == w[..k]
  {
    if k > 0 {
      LevelledPrefix(g, rest, v, w, k - 1);
      BeforeDependsOnPrefix(v, w, k - 1);
      assert FrontAt(g, rest, v, k - 1);
      assert Before(w, |w|) == rest;
      assert FrontAt(g, rest, w, k - 1);
      assert v[..k] == v[..k - 1] + [v[k - 1]] && w[..k] == w[..k - 1] + [w[k - 1]];
    }
  }

  /** The characterisation holds of the schedule's levels and of nothing else. */
  lemma LevelledIffLevels(g: Graph, levels: seq<set<string>>)
    ensures Levelled(g, g.Keys, levels) <==> levels == Levels(g, g.Keys)
  {
    var own := Levels(g, g.Keys);
    LevelsLevelled(g, g.Keys);
    if Levelled(g, g.Keys, levels) {
      LevelledPrefix(g, g.Keys, levels, own, |levels|);
      LevelledPrefix(g, g.Keys, own, levels, |own|);
      assert levels[..|levels|] == levels && own[..|own|] == own;
    }
  }
}
