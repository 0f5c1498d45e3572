/** What the wave scheduler promises: a partition on every graph, longest-chain levels and a
    minimal schedule on acyclic ones, and a precise account of what a cycle costs. */
module WaveTheorems {
  import opened Ids
  import opened Graphs
  import opened Plan
  import opened WaveScheduler

  /** What is still unplaced when level `k` is chosen. */
  ghost function LeftAt(g: Graph, k: nat): set<string>
    requires k < |Levels(g, g.Keys)|
  {
    g.Keys - Before(Levels(g, g.Keys), k)
  }

  ghost predicate Placed(g: Graph, k: nat, n: string) {
    At(Levels(g, g.Keys), k, n)
  }

  lemma FrontOf(g: Graph, k: nat)
    requires k < |Levels(g, g.Keys)|
    ensures LeftAt(g, k) != {} && LeftAt(g, k) <= g.Keys
    ensures Levels(g, g.Keys)[k] == Front(g, LeftAt(g, k))
  {
    LevelsLevelled(g, g.Keys);
    assert FrontAt(g, g.Keys, Levels(g, g.Keys), k);
  }

  /** `n` is left at level `k` exactly when it is placed at `k` or later. */
  lemma LeftIsLater(g: Graph, k: nat, j: nat, n: string)
    requires k < |Levels(g, g.Keys)| && Placed(g, j, n)
    ensures n in g.Keys
    ensures n in LeftAt(g, k) <==> k <= j
  {
    var levels := Levels(g, g.Keys);
    FrontOf(g, j);
    BeforeIsUnion(levels, k, n);
    if exists i: nat | i < k :: At(levels, i, n) {
      var i: nat :| i < k && At(levels, i, n);
      if i < j {
        BeforeIsUnion(levels, j, n);
        assert false;
      }
    }
  }

  /** Every node is placed at one level and one only. */
  lemma PlacedOnce(g: Graph, n: string)
    ensures n in g <==> exists k :: Placed(g, k, n)
    ensures forall j, k | Placed(g, j, n) && Placed(g, k, n) :: j == k
  {
    var levels := Levels(g, g.Keys);
    LevelsLevelled(g, g.Keys);
    BeforeIsUnion(levels, |levels|, n);
    if n in g {
      var i: nat :| i < |levels| && At(levels, i, n);
      assert Placed(g, i, n);
    }
    forall k | Placed(g, k, n)
      ensures n in g
    {
      FrontOf(g, k);
    }
    forall j, k | Placed(g, j, n) && Placed(g, k, n)
      ensures j == k
    {
      LeftIsLater(g, j, j, n);
      LeftIsLater(g, j, k, n);
      LeftIsLater(g, k, k, n);
      LeftIsLater(g, k, j, n);
    }
  }

  ghost function LevelOf(g: Graph, n: string): (k: nat)
    requires n in g
    ensures Placed(g, k, n)
  {
    PlacedOnce(g, n);
    var k: nat :| Placed(g, k, n);
    k
  }

  lemma LevelIs(g: Graph, k: nat, n: string)
    requires Placed(g, k, n)
    ensures n in g && LevelOf(g, n) == k
  {
    PlacedOnce(g, n);
  }

  /** An id depends, in the graph, on the ids of the graph that its node names. */
  lemma EdgesAre(nodes: Nodes, n: string, d: string)
    ensures DependsOn(Edges(nodes), n, d) <==> n in nodes && d in nodes && d in nodes[n].dependsOn
  {
  }

  /** Every two ids stand in code point order, and differ. */
  ghost predicate InCodePointOrder(wave: seq<string>) {
    forall i, j | 0 <= i < j < |wave| :: CodePointOrder(wave[i], wave[j]) && wave[i] != wave[j]
  }

  lemma SortedInOrder(ids: set<string>)
    ensures InCodePointOrder(Sorted(ids))
  {
    var s := Sorted(ids);
    forall i, j | 0 <= i < j < |s|
      ensures CodePointOrder(s[i], s[j])
    {
      LeIsCodePointOrder(s[i], s[j]);
    }
  }

  /** The waves hold every node id exactly once, and no wave is empty. */
  lemma WavesPartitionNodes(nodes: Nodes)
    ensures multiset(Flatten(Schedule(nodes))) == multiset(nodes.Keys)
    ensures forall k | 0 <= k < |Schedule(nodes)| :: Schedule(nodes)[k] != [] && InCodePointOrder(Schedule(nodes)[k])
  {
    var g := Edges(nodes);
    FlattenLevels(g, g.Keys);
    assert g.Keys == nodes.Keys;
    forall k | 0 <= k < |Schedule(nodes)|
      ensures Schedule(nodes)[k] != [] && InCodePointOrder(Schedule(nodes)[k])
    {
      FrontOf(g, k);
      SortedContents(Levels(g, g.Keys)[k]);
      SortedInOrder(Levels(g, g.Keys)[k]);
    }
  }

  function Flatten<T>(waves: seq<seq<T>>): seq<T> {
    if waves == [] then [] else waves[0] + Flatten(waves[1..])
  }

  lemma FlattenCons<T>(wave: seq<T>, tail: seq<seq<T>>)
    ensures Flatten([wave] + tail) == wave + Flatten(tail)
  {
    assert ([wave] + tail)[1..] == tail;
  }

  lemma {:induction false} FlattenLevels(g: Graph, rest: set<string>)
    ensures multiset(Flatten(SortAll(Levels(g, rest)))) == multiset(rest)
    decreases rest
  {
    if rest != {} {
      var front := Front(g, rest);
      var tail := Levels(g, rest - front);
      FlattenLevels(g, rest - front);
      SortedContents(front);
      SortAllCons(front, tail);
      FlattenCons(Sorted(front), SortAll(tail));
      MultisetSplit(front, rest);
    }
  }

  lemma MultisetSplit(part: set<string>, whole: set<string>)
    requires part <= whole
    ensures multiset(whole) == multiset(part) + multiset(whole - part)
  {
  }

  // ------------------------------------------------------------------
  // Every graph, cyclic or not
  // ------------------------------------------------------------------

  /** Level `k` was filled by promoting the lowest id although it still had unmet dependencies. */
  ghost predicate Promoted(g: Graph, k: nat)
    requires k < |Levels(g, g.Keys)|
  {
    Stuck(g, LeftAt(g, k)) && Levels(g, g.Keys)[k] == {Least(LeftAt(g, k))}
  }

  /** A level is either a promotion out of a stuck remainder, or exactly the nodes all of
      whose dependencies sit in earlier levels. */
  lemma LevelKinds(g: Graph, k: nat)
    requires k < |Levels(g, g.Keys)|
    ensures Promoted(g, k) <==> Stuck(g, LeftAt(g, k))
    ensures !Promoted(g, k) ==>
              forall n | n in LeftAt(g, k) ::
                Placed(g, k, n) <==> forall d | DependsOn(g, n, d) :: LevelOf(g, d) < k
  {
    FrontOf(g, k);
    var left := LeftAt(g, k);
    assert Stuck(g, left) <==> ReadyIn(g, left) == {} by {
      if ReadyIn(g, left) == {} {
        forall n | n in left
          ensures Waits(g, left, n)
        {
          assert n !in ReadyIn(g, left);
        }
      }
    }
    if !Stuck(g, left) {
      forall n | n in left
        ensures Placed(g, k, n) <==> forall d | DependsOn(g, n, d) :: LevelOf(g, d) < k
      {
        forall d | DependsOn(g, n, d)
          ensures d in left <==> k <= LevelOf(g, d)
        {
          LeftIsLater(g, k, LevelOf(g, d), d);
        }
        assert Placed(g, k, n) <==> !Waits(g, left, n);
      }
    }
  }

  /** The promoted id comes, in code point order, before every other id left. */
  lemma PromotedIsLowest(g: Graph, k: nat, victim: string)
    requires k < |Levels(g, g.Keys)| && Promoted(g, k) && victim in Levels(g, g.Keys)[k]
    ensures Levels(g, g.Keys)[k] == {victim} && victim in LeftAt(g, k)
    ensures forall n | n in LeftAt(g, k) :: CodePointOrder(victim, n)
  {
    forall n | n in LeftAt(g, k)
      ensures CodePointOrder(victim, n)
    {
      LeIsCodePointOrder(victim, n);
    }
  }

  /** A dependency is placed no earlier than its consumer only if the consumer is a promoted
      victim, alone in its wave; and unless it depends on itself the two waves differ. */
  lemma LateDependency(g: Graph, n: string, d: string)
    requires DependsOn(g, n, d)
    requires LevelOf(g, n) <= LevelOf(g, d)
    ensures Promoted(g, LevelOf(g, n)) && Levels(g, g.Keys)[LevelOf(g, n)] == {n}
    ensures n != d ==> LevelOf(g, n) < LevelOf(g, d)
  {
    var k := LevelOf(g, n);
    LevelKinds(g, k);
    LeftIsLater(g, k, k, n);
  }

  /** Members of one wave never depend on each other. */
  lemma WaveMembersIndependent(g: Graph, n: string, d: string)
    requires n in g && d in g && n != d && LevelOf(g, n) == LevelOf(g, d)
    ensures !DependsOn(g, n, d)
  {
    if DependsOn(g, n, d) {
      LateDependency(g, n, d);
    }
  }

  // ------------------------------------------------------------------
  // Acyclic graphs
  // ------------------------------------------------------------------

  lemma AcyclicNeverPromotes(g: Graph, k: nat)
    requires Acyclic(g) && k < |Levels(g, g.Keys)|
    ensures !Promoted(g, k)
  {
    if Promoted(g, k) {
      StuckIsCyclic(g, LeftAt(g, k));
    }
  }

  ghost function LevelMap(g: Graph): map<string, nat> {
    map n | n in g :: LevelOf(g, n)
  }

  lemma LevelMapRespects(g: Graph)
    requires Acyclic(g)
    ensures RespectsDependencies(g, LevelMap(g))
  {
    forall n, d | DependsOn(g, n, d)
      ensures LevelMap(g)[d] < LevelMap(g)[n]
    {
      if LevelOf(g, n) <= LevelOf(g, d) {
        LateDependency(g, n, d);
        AcyclicNeverPromotes(g, LevelOf(g, n));
      }
    }
  }

  /** A node above level 0 waits for a node of the level below. */
  lemma LevelHasDependency(g: Graph, n: string) returns (d: string)
    requires Acyclic(g) && n in g && LevelOf(g, n) > 0
    ensures DependsOn(g, n, d) && LevelOf(g, d) == LevelOf(g, n) - 1
  {
    var k := LevelOf(g, n);
    AcyclicNeverPromotes(g, k - 1);
    LevelKinds(g, k - 1);
    LeftIsLater(g, k - 1, k, n);
    assert !Placed(g, k - 1, n) by {
      PlacedOnce(g, n);
    }
    d :| DependsOn(g, n, d) && k - 1 <= LevelOf(g, d);
    LevelMapRespects(g);
    assert LevelMap(g)[d] < LevelMap(g)[n];
  }

  /** A node at level `k` ends a chain of `k + 1` nodes. */
  lemma {:induction false} LevelHasChain(g: Graph, n: string) returns (p: seq<string>)
    requires Acyclic(g) && n in g
    ensures ChainTo(g, p, n) && |p| == LevelOf(g, n) + 1
    decreases LevelOf(g, n)
  {
    if LevelOf(g, n) == 0 {
      p := [n];
    } else {
      var d := LevelHasDependency(g, n);
      var q := LevelHasChain(g, d);
      p := q + [n];
    }
  }

  /** On an acyclic graph the wave index of a node is its longest dependency chain. */
  lemma LevelIsLongestChain(g: Graph, n: string)
    requires Acyclic(g) && n in g
    ensures exists p :: ChainTo(g, p, n) && |p| == LevelOf(g, n) + 1
    ensures forall p | ChainTo(g, p, n) :: |p| <= LevelOf(g, n) + 1
  {
    var p := LevelHasChain(g, n);
    LevelMapRespects(g);
    forall p | ChainTo(g, p, n)
      ensures |p| <= LevelOf(g, n) + 1
    {
      ChainBoundsLevel(g, LevelMap(g), p);
    }
  }

  /** Some way to start every node after its dependencies exists exactly when the graph is
      acyclic, exactly when the scheduler's own levels are such a way. */
  lemma ValidIffAcyclic(g: Graph)
    ensures Acyclic(g) <==> RespectsDependencies(g, LevelMap(g))
    ensures Acyclic(g) <==> exists f :: RespectsDependencies(g, f)
  {
    if Acyclic(g) {
      LevelMapRespects(g);
    }
    forall f | RespectsDependencies(g, f)
      ensures Acyclic(g)
    {
      RespectedIsAcyclic(g, f);
    }
  }

  /** No valid assignment of steps starts any node earlier, so none has fewer steps. */
  lemma ScheduleIsMinimal(g: Graph, f: map<string, nat>, steps: nat)
    requires RespectsDependencies(g, f)
    requires forall n | n in g :: f[n] < steps
    ensures forall n | n in g :: LevelOf(g, n) <= f[n]
    ensures |Levels(g, g.Keys)| <= steps
  {
    RespectedIsAcyclic(g, f);
    forall n | n in g
      ensures LevelOf(g, n) <= f[n]
    {
      var p := LevelHasChain(g, n);
      ChainBoundsLevel(g, f, p);
    }
    var count := |Levels(g, g.Keys)|;
    if count > 0 {
      FrontOf(g, count - 1);
      var n :| n in Levels(g, g.Keys)[count - 1];
      LevelIs(g, count - 1, n);
    }
  }

  // ------------------------------------------------------------------
  // Sub-graphs
  // ------------------------------------------------------------------

  /** `part` is `whole` cut down to some of its nodes. */
  ghost predicate SubPlan(part: Nodes, whole: Nodes) {
    part.Keys <= whole.Keys && forall n | n in part :: part[n].dependsOn == whole[n].dependsOn
  }

  /** A sub-graph of an acyclic graph never schedules a node later, nor needs more waves. */
  lemma SubPlanNeedsNoMore(part: Nodes, whole: Nodes)
    requires SubPlan(part, whole) && Acyclic(Edges(whole))
    ensures Acyclic(Edges(part))
    ensures forall n | n in part :: LevelOf(Edges(part), n) <= LevelOf(Edges(whole), n)
    ensures |Schedule(part)| <= |Schedule(whole)|
  {
    var g, h := Edges(part), Edges(whole);
    var f := LevelMap(h);
    LevelMapRespects(h);
    forall n, d | DependsOn(g, n, d)
      ensures f[d] < f[n]
    {
      assert DependsOn(h, n, d);
    }
    assert RespectsDependencies(g, f);
    forall n | n in g
      ensures f[n] < |Levels(h, h.Keys)|
    {
      assert Placed(h, LevelOf(h, n), n);
    }
    RespectedIsAcyclic(g, f);
    ScheduleIsMinimal(g, f, |Levels(h, h.Keys)|);
    assert g.Keys == part.Keys && h.Keys == whole.Keys;
  }

  /** Dependencies on ids outside the sub-graph do not influence its schedule. */
  lemma OutsideDependenciesIrrelevant(part: Nodes, other: Nodes)
    requires part.Keys == other.Keys
    requires forall n, d | n in part && d in part :: d in part[n].dependsOn <==> d in other[n].dependsOn
    ensures Schedule(part) == Schedule(other)
  {
    forall n | n in part
      ensures Edges(part)[n] == Edges(other)[n]
    {
      assert forall d :: d in Edges(part)[n] <==> d in Edges(other)[n];
    }
    assert Edges(part) == Edges(other);
  }
}
