// Depth-first search for a dependency cycle (tools/check-agent-state.py).
module CycleFinder {

  datatype Option<T> = None | Some(value: T)

  type Graph = map<string, seq<string>>

  predicate Edge(g: Graph, a: string, b: string) { a in g && b in g[a] }

  predicate Path(g: Graph, p: seq<string>) { forall i :: 0 <= i < |p| - 1 ==> Edge(g, p[i], p[i + 1]) }

  /** At least one edge, back to where it started. */
  predicate IsCycle(g: Graph, c: seq<string>) { |c| >= 2 && c[0] == c[|c| - 1] && Path(g, c) }

  /** A cycle some key can reach. */
  ghost predicate ReachableCycle(g: Graph) {
    exists p, c :: |p| > 0 && p[0] in g && Path(g, p) && IsCycle(g, c) && p[|p| - 1] == c[0]
  }

  /** Nodes in the order they were finished: every edge leads to an earlier one. */
  ghost predicate Finished(g: Graph, order: seq<string>) {
    forall i, b :: 0 <= i < |order| && Edge(g, order[i], b) ==> b in order[..i]
  }

  lemma {:induction false} FinishedExtends(g: Graph, order: seq<string>, node: string)
    requires Finished(g, order) && forall b :: Edge(g, node, b) ==> b in order
    ensures Finished(g, order + [node])
  {
    var more := order + [node];
    forall i, b | 0 <= i < |more| && Edge(g, more[i], b) ensures b in more[..i] {
      if i < |order| { assert more[..i] == order[..i]; } else { assert more[..i] == order; }
    }
  }

  /** A path that starts among the first n finished nodes stays there, one place earlier at each step. */
  lemma {:induction false} FinishedPathDescends(g: Graph, order: seq<string>, n: nat, p: seq<string>, k: nat)
    requires Finished(g, order) && n <= |order| && Path(g, p) && 0 < k < |p| && p[0] in order[..n]
    ensures n > 0 && p[k] in order[..n - 1]
    decreases k
  {
    var i :| 0 <= i < n && order[i] == p[0];
    assert Edge(g, p[0], p[1]);
    assert p[1] in order[..i];
    if k == 1 {
      assert order[..i] <= order[..n - 1];
    } else {
      assert Path(g, p[1..]);
      FinishedPathDescends(g, order, i, p[1..], k - 1);
      assert order[..i - 1] <= order[..n - 1];
    }
  }

  /** No cycle starts at a finished node. */
  lemma {:induction false} FinishedHasNoCycle(g: Graph, order: seq<string>, n: nat, c: seq<string>)
    requires Finished(g, order) && n <= |order| && IsCycle(g, c)
    ensures c[0] !in order[..n]
    decreases n
  {
    if c[0] in order[..n] {
      FinishedPathDescends(g, order, n, c, |c| - 1);
      FinishedHasNoCycle(g, order, n - 1, c);
    }
  }

  /** Every cycle is reachable: its nodes are keys. */
  lemma {:induction false} CycleIsReachable(g: Graph, c: seq<string>)
    requires IsCycle(g, c)
    ensures ReachableCycle(g)
  {
    assert Edge(g, c[0], c[1]);
    assert Path(g, [c[0]]);
    assert [c[0]][|[c[0]]| - 1] == c[0];
  }

  method IndexOf(stack: seq<string>, node: string) returns (start: nat)
    requires node in stack
    ensures start < |stack| && stack[start] == node && forall i :: 0 <= i < start ==> stack[i] != node
  {
    start := 0;
    while stack[start] != node
      invariant start < |stack| && forall i :: 0 <= i < start ==> stack[i] != node
      decreases |stack| - start
    {
      start := start + 1;
    }
  }

  class Search {
    const graph: Graph
    /** All nodes, keys and dependencies. */
    ghost const nodes: set<string>
    var visiting: set<string>
    var visited: set<string>
    var stack: seq<string>
    ghost var order: seq<string>

    constructor (g: Graph)
      ensures graph == g && Valid() && stack == [] && visited == {}
    {
      graph := g;
      nodes := g.Keys + set k, i | k in g && 0 <= i < |g[k]| :: g[k][i];
      visiting, visited, stack, order := {}, {}, [], [];
    }

    ghost predicate Valid()
      reads this
    {
      && (forall k :: k in graph ==> k in nodes) && (forall k, d :: k in graph && d in graph[k] ==> d in nodes)
      && visiting <= nodes && visited <= nodes && visiting !! visited
      && (forall x :: x in visiting <==> x in stack) && (forall i, j :: 0 <= i < j < |stack| ==> stack[i] != stack[j])
      && Path(graph, stack)
      && (forall x :: x in visited <==> x in order) && Finished(graph, order)
    }

    method Enter(node: string)
      requires Valid() && node in nodes && node !in visiting && node !in visited
      requires stack != [] ==> Edge(graph, stack[|stack| - 1], node)
      modifies this`visiting, this`stack
      ensures Valid() && stack == old(stack) + [node] && visiting == old(visiting) + {node}
    {
      PathExtends(graph, stack, node);
      visiting := visiting + {node};
      stack := stack + [node];
    }

    method Leave(node: string)
      requires Valid() && stack != [] && stack[|stack| - 1] == node && forall d :: Edge(graph, node, d) ==> d in visited
      modifies this`visiting, this`visited, this`stack, this`order
      ensures Valid() && stack == old(stack)[..|old(stack)| - 1] && visiting == old(visiting) - {node}
          && visited == old(visited) + {node}
    {
      FinishedExtends(graph, order, node);
      stack := stack[..|stack| - 1];
      visiting := visiting - {node};
      visited := visited + {node};
      order := order + [node];
    }

    method Visit(node: string) returns (cycle: Option<seq<string>>)
      requires Valid() && node in nodes && (stack != [] ==> Edge(graph, stack[|stack| - 1], node))
      modifies this
      ensures cycle.Some? ==> IsCycle(graph, cycle.value)
      ensures cycle.None? ==>
        Valid() && node in visited && old(visited) <= visited && stack == old(stack) && visiting == old(visiting)
      decreases nodes - visiting - visited
    {
      if node in visited { return None; }
      if node in visiting {
        var start := IndexOf(stack, node);
        CycleClosed(graph, stack, start, node);
        return Some(stack[start..] + [node]);
      }
      hide Path, Finished, IsCycle;
      Enter(node);
      var dependencies := if node in graph then graph[node] else [];
      for i := 0 to |dependencies|
        invariant Valid() && old(visited) <= visited && stack == old(stack) + [node]
            && visiting == old(visiting) + {node}
        invariant forall j :: 0 <= j < i ==> dependencies[j] in visited
      {
        assert Edge(graph, node, dependencies[i]);
        assert nodes - visiting - visited < nodes - old(visiting) - old(visited) by {
          assert node in nodes - old(visiting) - old(visited) && node !in nodes - visiting - visited;
        }
        cycle := Visit(dependencies[i]);
        if cycle.Some? { return; }
      }
      Leave(node);
      assert stack == old(stack);
      cycle := None;
    }
  }

  lemma {:induction false} PathExtends(g: Graph, p: seq<string>, node: string)
    requires Path(g, p) && (p != [] ==> Edge(g, p[|p| - 1], node))
    ensures Path(g, p + [node])
  {
  }

  lemma {:induction false} CycleClosed(g: Graph, stack: seq<string>, start: nat, node: string)
    requires Path(g, stack) && start < |stack| && stack[start] == node && Edge(g, stack[|stack| - 1], node)
    ensures IsCycle(g, stack[start..] + [node])
  {
    PathExtends(g, stack, node);
    assert stack[start..] + [node] == (stack + [node])[start..];
  }

  /** The search over all keys, in any order that lists each of them. */
  method FindCycle(graph: Graph, keys: seq<string>) returns (cycle: Option<seq<string>>)
    requires forall k :: k in graph <==> k in keys
    ensures cycle.None? <==> !ReachableCycle(graph)
    ensures cycle.Some? ==> IsCycle(graph, cycle.value)
  {
    var search := new Search(graph);
    for i := 0 to |keys|
      invariant search.Valid() && search.graph == graph && search.stack == []
      invariant forall j :: 0 <= j < i ==> keys[j] in search.visited
    {
      cycle := search.Visit(keys[i]);
      if cycle.Some? {
        CycleIsReachable(graph, cycle.value);
        return;
      }
    }
    NoCycleLeft(graph, keys, search.order);
    cycle := None;
  }

  lemma {:induction false} NoCycleLeft(g: Graph, keys: seq<string>, order: seq<string>)
    requires Finished(g, order) && (forall k :: k in g <==> k in keys) && forall j :: 0 <= j < |keys| ==>
      keys[j] in order
    ensures !ReachableCycle(g)
  {
    if ReachableCycle(g) {
      var p, c :| |p| > 0 && p[0] in g && Path(g, p) && IsCycle(g, c) && p[|p| - 1] == c[0];
      assert Edge(g, c[0], c[1]);
      assert c[0] in keys;
      assert order[..|order|] == order;
      FinishedHasNoCycle(g, order, |order|, c);
    }
  }
}
