/**
 Cycle detection among workspace crates (scripts/check_crate_cycles.py): a
 depth-first search with three colours and an explicit path.
 */
module CrateCycles {
  import opened Wrappers

  /** Crate name to the names it depends on; names outside the keys are external. */
  type Graph = map<string, set<string>>

  predicate Edge(g: Graph, x: string, y: string) {
    x in g && y in g && y in g[x]
  }

  ghost predicate Walk(g: Graph, w: seq<string>) {
    forall i, j :: 0 <= i < |w| && j == i + 1 < |w| ==> Edge(g, w[i], w[j])
  }

  ghost predicate Distinct(w: seq<string>) {
    forall i, j :: 0 <= i < j < |w| ==> w[i] != w[j]
  }

  /** A walk of at least one edge that ends where it starts. */
  ghost predicate ClosedWalk(g: Graph, w: seq<string>) {
    2 <= |w| && Walk(g, w) && w[0] == w[|w| - 1]
  }

  ghost predicate Acyclic(g: Graph) {
    !exists w :: ClosedWalk(g, w)
  }

  /** Every edge inside `nodes` leads to a node of lower rank. */
  ghost predicate Ranked(g: Graph, nodes: set<string>, rank: map<string, nat>) {
    && nodes <= rank.Keys
    && forall x, y :: x in nodes && Edge(g, x, y) ==> y in nodes && rank[y] < rank[x]
  }

  lemma {:induction false} RankFallsAlongWalk(g: Graph, rank: map<string, nat>, w: seq<string>)
    requires Ranked(g, g.Keys, rank) && Walk(g, w) && 2 <= |w|
    ensures w[0] in g && w[|w| - 1] in g && rank[w[|w| - 1]] < rank[w[0]]
    decreases |w|
  {
    assert Edge(g, w[0], w[1]);
    if 2 < |w| {
      RankFallsAlongWalk(g, rank, w[1..]);
    }
  }

  lemma RankedIsAcyclic(g: Graph, rank: map<string, nat>)
    requires Ranked(g, g.Keys, rank)
    ensures Acyclic(g)
  {
    forall w | ClosedWalk(g, w) ensures false {
      RankFallsAlongWalk(g, rank, w);
    }
  }

  datatype Color = White | Gray | Black

  function IndexOf(w: seq<string>, x: string): (i: nat)
    requires x in w
    ensures i < |w| && w[i] == x
  {
    if w[0] == x then 0 else 1 + IndexOf(w[1..], x)
  }

  /** The part of the path from `dep` on, followed by `dep`. */
  function CloseCycle(stack: seq<string>, dep: string): seq<string>
    requires dep in stack
  {
    stack[IndexOf(stack, dep)..] + [dep]
  }

  lemma CloseCycleIsClosed(g: Graph, stack: seq<string>, dep: string)
    requires Walk(g, stack) && Distinct(stack) && dep in stack && Edge(g, stack[|stack| - 1], dep)
    ensures ClosedWalk(g, CloseCycle(stack, dep)) && Distinct(CloseCycle(stack, dep)[1..])
  {
    var i, w := IndexOf(stack, dep), CloseCycle(stack, dep);
    var n := |stack| - i;
    assert forall k :: 0 <= k < n ==> w[k] == stack[i + k];
    forall k, l | 0 <= k < |w| && l == k + 1 < |w| ensures Edge(g, w[k], w[l]) {
      if l < n {
        assert Edge(g, stack[i + k], stack[i + l]);
      }
    }
    forall k, l | 0 <= k < l < n ensures w[1..][k] != w[1..][l] {
      assert w[1..][k] == stack[i + k + 1];
      assert l < n - 1 ==> w[1..][l] == stack[i + l + 1];
      assert stack[i] != stack[i + k + 1];
    }
  }

  class CycleFinder {
    const graph: Graph
    var color: map<string, Color>
    var stack: seq<string>
    ghost var rank: map<string, nat>
    ghost var finished: nat

    ghost function Nodes(c: Color): set<string>
      reads this
    {
      set n | n in color && color[n] == c
    }

    /** Gray nodes are the path; black nodes lead only to black nodes that finished earlier. */
    ghost predicate Valid()
      reads this
    {
      && color.Keys == graph.Keys
      && (forall n :: n in Nodes(Gray) <==> n in stack)
      && Walk(graph, stack) && Distinct(stack)
      && Ranked(graph, Nodes(Black), rank)
      && (forall n :: n in Nodes(Black) ==> rank[n] < finished)
    }

    constructor (g: Graph)
      ensures graph == g && Valid() && stack == [] && Nodes(White) == g.Keys
    {
      graph := g;
      color := map n | n in g :: White;
      stack := [];
      rank := map[];
      finished := 0;
    }

    method Visit(node: string) returns (cycle: Option<seq<string>>)
      requires Valid() && node in Nodes(White)
      requires stack == [] || Edge(graph, stack[|stack| - 1], node)
      modifies this
      ensures cycle.Some? ==> ClosedWalk(graph, cycle.value) && Distinct(cycle.value[1..])
      ensures cycle.None? ==>
                && Valid() && stack == old(stack) && node in Nodes(Black)
                && old(Nodes(Black)) <= Nodes(Black) && Nodes(White) <= old(Nodes(White)) - {node}
      decreases Nodes(White), 0
    {
      Enter(node);
      cycle := VisitDependencies(node);
      if cycle.None? {
        Leave(node);
      }
    }

    /** The loop over the dependencies of the node on top of the path. */
    method VisitDependencies(node: string) returns (cycle: Option<seq<string>>)
      requires Valid() && stack != [] && stack[|stack| - 1] == node
      modifies this
      ensures cycle.Some? ==> ClosedWalk(graph, cycle.value) && Distinct(cycle.value[1..])
      ensures cycle.None? ==>
                && Valid() && stack == old(stack) && (forall d :: Edge(graph, node, d) ==> d in Nodes(Black))
                && old(Nodes(Black)) <= Nodes(Black) && Nodes(White) <= old(Nodes(White))
      decreases Nodes(White), 1
    {
      assert node in Nodes(Gray);
      var rest := graph[node];
      while rest != {}
        invariant Valid() && stack == old(stack) && rest <= graph[node]
        invariant old(Nodes(Black)) <= Nodes(Black) && Nodes(White) <= old(Nodes(White))
        invariant forall d :: Edge(graph, node, d) && d !in rest ==> d in Nodes(Black)
        decreases rest
      {
        var dep :| dep in rest;
        rest := rest - {dep};
        if dep in graph {
          if color[dep] == Gray {
            assert dep in Nodes(Gray);
            CloseCycleIsClosed(graph, stack, dep);
            return Some(CloseCycle(stack, dep));
          }
          if color[dep] == White {
            assert dep in Nodes(White);
            cycle := Visit(dep);
            if cycle.Some? {
              return;
            }
          } else {
            assert dep in Nodes(Black);
          }
        }
      }
      return None;
    }

    /** color[node] = GRAY; stack.append(node) */
    method Enter(node: string)
      requires Valid() && node in Nodes(White)
      requires stack == [] || Edge(graph, stack[|stack| - 1], node)
      modifies this
      ensures Valid() && stack == old(stack) + [node]
      ensures Nodes(Black) == old(Nodes(Black)) && Nodes(White) == old(Nodes(White)) - {node}
    {
      assert node !in Nodes(Gray);
      ghost var gray := Nodes(Gray);
      color := color[node := Gray];
      stack := stack + [node];
      assert Nodes(Gray) == gray + {node};
      assert Nodes(Black) == old(Nodes(Black));
    }

    /** stack.pop(); color[node] = BLACK */
    method Leave(node: string)
      requires Valid() && stack != [] && stack[|stack| - 1] == node
      requires forall d :: Edge(graph, node, d) ==> d in Nodes(Black)
      modifies this
      ensures Valid() && stack == old(stack)[..|old(stack)| - 1]
      ensures Nodes(Black) == old(Nodes(Black)) + {node} && Nodes(White) == old(Nodes(White))
    {
      assert node in Nodes(Gray);
      ghost var black, gray := Nodes(Black), Nodes(Gray);
      stack := stack[..|stack| - 1];
      color := color[node := Black];
      rank := rank[node := finished];
      finished := finished + 1;
      assert Nodes(Black) == black + {node};
      assert Nodes(Gray) == gray - {node};
    }

    /** Tries every node as a root, in the given order of the keys. */
    method FindCycle(order: seq<string>) returns (cycle: Option<seq<string>>)
      requires Valid() && stack == [] && Nodes(White) == graph.Keys
      requires forall n :: n in order <==> n in graph
      modifies this
      ensures cycle.None? <==> Acyclic(graph)
      ensures cycle.Some? ==> ClosedWalk(graph, cycle.value) && Distinct(cycle.value[1..])
    {
      for k := 0 to |order|
        invariant Valid() && stack == []
        invariant forall j :: 0 <= j < k ==> order[j] in Nodes(Black)
      {
        var node := order[k];
        assert node in graph;
        if color[node] == White {
          assert node in Nodes(White);
          cycle := Visit(node);
          if cycle.Some? {
            return;
          }
        } else {
          assert node !in Nodes(Gray);
          assert node in Nodes(Black);
        }
      }
      assert Nodes(Black) == graph.Keys;
      RankedIsAcyclic(graph, rank);
      return None;
    }
  }
}
