/** Finite directed graphs and the three-colour depth-first cycle search of
    `models/position.py`. */
module Graphs {
  import opened Common

  /** Successor sets by node.  A node that is only a target has no entry. */
  type Graph<T> = map<T, set<T>>

  predicate Edge<T(==)>(g: Graph<T>, a: T, b: T) {
    a in g && b in g[a]
  }

  function Successors<T(==)>(g: Graph<T>, a: T): set<T> {
    if a in g then g[a] else {}
  }

  /** Every node the graph mentions, as a source or as a target. */
  ghost function Nodes<T(!new)>(g: Graph<T>): set<T> {
    g.Keys + set a, b | a in g && b in g[a] :: b
  }

  lemma SuccessorIsNode<T(!new)>(g: Graph<T>, a: T, b: T)
    requires b in Successors(g, a)
    ensures Edge(g, a, b) && b in Nodes(g)
  {
  }

  /** A non-empty path along real edges. */
  ghost predicate Walk<T>(g: Graph<T>, w: seq<T>) {
    |w| > 0 && forall i :: 0 < i < |w| ==> Edge(g, w[i - 1], w[i])
  }

  ghost predicate ClosedWalk<T>(g: Graph<T>, w: seq<T>) {
    |w| > 1 && Walk(g, w) && w[0] == w[|w| - 1]
  }

  ghost predicate Acyclic<T(!new)>(g: Graph<T>) {
    forall w: seq<T> :: !ClosedWalk(g, w)
  }

  /** `b` can be reached from `a` along zero or more edges. */
  ghost predicate Reaches<T(!new)>(g: Graph<T>, a: T, b: T) {
    exists w: seq<T> :: Walk(g, w) && w[0] == a && w[|w| - 1] == b
  }

  /** Every edge out of an element of `order` leads to an earlier element. */
  ghost predicate Settled<T(!new)>(g: Graph<T>, order: seq<T>) {
    forall i, b :: 0 <= i < |order| && Edge(g, order[i], b) ==> b in order[..i]
  }

  // ----- facts about walks -----

  /** Along a walk that starts inside a settled order, the position drops at every edge. */
  lemma {:induction false} WalkDescends<T(!new)>(g: Graph<T>, order: seq<T>, w: seq<T>, n: nat, k: nat)
    requires Settled(g, order) && Walk(g, w) && k < |w|
    requires n <= |order| && w[0] in order[..n]
    ensures k < n && w[k] in order[..n - k]
  {
    if k > 0 {
      WalkDescends(g, order, w, n, k - 1);
      var j :| 0 <= j < n - (k - 1) && order[j] == w[k - 1];
      assert Edge(g, order[j], w[k]);
      assert w[k] in order[..j];
    }
  }

  /** The first position of an element. */
  ghost function FirstIndex<T>(s: seq<T>, x: T): (i: nat)
    requires x in s
    ensures i < |s| && s[i] == x && x !in s[..i]
    ensures forall j :: 0 <= j < |s| && s[j] == x ==> i <= j
  {
    if s[0] == x then 0 else 1 + FirstIndex(s[1..], x)
  }

  /** A settled order over all sources rules out every cycle. */
  lemma SettledIsAcyclic<T(!new)>(g: Graph<T>, order: seq<T>)
    requires Settled(g, order)
    requires forall a :: a in g ==> a in order
    ensures Acyclic(g)
  {
    forall w: seq<T> | ClosedWalk(g, w)
      ensures false
    {
      assert Edge(g, w[1 - 1], w[1]);
      var first := FirstIndex(order, w[0]);
      WalkDescends(g, order, w, first + 1, |w| - 1);
    }
  }

  /** Pigeonhole: a sequence longer than the set it draws from repeats an element. */
  lemma {:induction false} Pigeonhole<T>(s: seq<T>, universe: set<T>)
    requires forall x :: x in s ==> x in universe
    requires |s| > |universe|
    ensures !Distinct(s)
  {
    var last := s[|s| - 1];
    var front := s[..|s| - 1];
    assert last in s;
    if last in front {
      var i :| 0 <= i < |front| && front[i] == last;
      assert s[i] == s[|s| - 1];
    } else {
      assert forall x :: x in front ==> x in s;
      Pigeonhole(front, universe - {last});
      var i, j :| 0 <= i < j < |front| && front[i] == front[j];
      assert s[i] == s[j];
    }
  }

  /** In an acyclic graph a walk never repeats a node, so its length is bounded. */
  lemma WalksAreBounded<T(!new)>(g: Graph<T>, w: seq<T>, universe: set<T>)
    requires Acyclic(g) && Walk(g, w)
    requires forall x :: x in w ==> x in universe
    ensures Distinct(w) && |w| <= |universe|
  {
    forall i, j | 0 <= i < j < |w|
      ensures w[i] != w[j]
    {
      var loop := w[i..j + 1];
      forall k | 0 < k < |loop|
        ensures Edge(g, loop[k - 1], loop[k])
      {
        assert loop[k] == w[i + k];
      }
      assert !ClosedWalk(g, loop);
    }
    if |w| > |universe| {
      Pigeonhole(w, universe);
    }
  }

  lemma WalkFromAbove<T(!new)>(g: Graph<T>, a: T, w: seq<T>)
    requires Walk(g, w) && Edge(g, a, w[0])
    ensures Walk(g, [a] + w)
  {
    forall i | 0 < i < |[a] + w|
      ensures Edge(g, ([a] + w)[i - 1], ([a] + w)[i])
    {
      if i > 1 {
        assert Edge(g, w[i - 2], w[i - 1]);
      }
    }
  }

  /** Removing edges keeps a graph acyclic. */
  lemma SubgraphIsAcyclic<T(!new)>(g: Graph<T>, h: Graph<T>)
    requires Acyclic(g)
    requires forall a, b :: Edge(h, a, b) ==> Edge(g, a, b)
    ensures Acyclic(h)
  {
    forall w: seq<T> | ClosedWalk(h, w)
      ensures false
    {
      assert ClosedWalk(g, w);
    }
  }

  // ----- the search -----

  /** White nodes are those without a colour. */
  datatype Color = Gray | Black

  /** What holds between any two steps of the search: the path is the walk of gray
      nodes, and the black nodes, in the order they finished, are settled. */
  ghost predicate SearchState<T(!new)>(g: Graph<T>, color: map<T, Color>, path: seq<T>, finished: seq<T>) {
    && color.Keys <= Nodes(g)
    && Distinct(path)
    && (path != [] ==> Walk(g, path))
    && (forall x :: x in path <==> x in color && color[x] == Gray)
    && (forall x :: x in finished <==> x in color && color[x] == Black)
    && Settled(g, finished)
  }

  /** No colour that was assigned before has been changed. */
  ghost predicate Grows<T(!new)>(earlier: map<T, Color>, later: map<T, Color>) {
    forall x :: x in earlier ==> x in later && later[x] == earlier[x]
  }

  lemma EnterNode<T(!new)>(g: Graph<T>, color: map<T, Color>, path: seq<T>, finished: seq<T>, node: T)
    requires SearchState(g, color, path, finished) && node !in color && node in Nodes(g)
    requires path != [] ==> Edge(g, path[|path| - 1], node)
    ensures SearchState(g, color[node := Gray], path + [node], finished)
  {
    assert forall x :: x in path + [node] <==> x in path || x == node;
  }

  lemma LeaveNode<T(!new)>(g: Graph<T>, before: map<T, Color>, color: map<T, Color>,
                           path: seq<T>, finished: seq<T>, node: T)
    requires node !in before && Grows(before[node := Gray], color)
    requires SearchState(g, color, path + [node], finished)
    requires forall s :: s in Successors(g, node) ==> s in color && color[s] == Black
    ensures Grows(before, color[node := Black])
    ensures SearchState(g, color[node := Black], path, finished + [node])
  {
    var longer := path + [node];
    assert longer[|path|] == node && longer[..|path|] == path;
    assert forall x :: x in longer <==> x in path || x == node;
    assert forall i :: 0 <= i < |path| ==> path[i] == longer[i];
    SettledExtends(g, finished, node);
  }

  /** The closure variables of the search: the colour map and the current path. */
  class CycleFinder<T(==,!new)> {
    const graph: Graph<T>
    var color: map<T, Color>
    var path: seq<T>
    ghost var finished: seq<T>

    constructor (g: Graph<T>)
      ensures graph == g && Valid() && path == [] && color == map[] && finished == []
    {
      graph, color, path, finished := g, map[], [], [];
    }

    ghost predicate Valid()
      reads this
    {
      SearchState(graph, color, path, finished)
    }

    method Visit(node: T) returns (cycle: Option<seq<T>>)
      requires Valid() && node !in color && node in Nodes(graph)
      requires path != [] ==> Edge(graph, path[|path| - 1], node)
      modifies this
      ensures cycle.Some? ==> ClosedWalk(graph, cycle.value) && Distinct(cycle.value[1..])
      ensures cycle.None? ==>
                && Valid() && path == old(path) && Grows(old(color), color)
                && node in color && color[node] == Black
      decreases Nodes(graph) - color.Keys
    {
      EnterNode(graph, color, path, finished, node);
      color := color[node := Gray];
      path := path + [node];
      var rest := Successors(graph, node);
      while rest != {}
        invariant Valid() && path == old(path) + [node] && Grows(old(color)[node := Gray], color)
        invariant rest <= Successors(graph, node)
        invariant forall s :: s in Successors(graph, node) - rest ==> s in color && color[s] == Black
        decreases rest
      {
        var next :| next in rest;
        rest := rest - {next};
        SuccessorIsNode(graph, node, next);
        if next in color && color[next] == Gray {
          var i :| 0 <= i < |path| && path[i] == next;
          LoopOnPath(graph, path, i, next);
          return Some(path[i..] + [next]);
        }
        if next !in color {
          cycle := Visit(next);
          if cycle.Some? {
            return;
          }
        }
      }
      LeaveNode(graph, old(color), color, old(path), finished, node);
      path := path[..|path| - 1];
      color := color[node := Black];
      finished := finished + [node];
      cycle := None;
    }

    /** The outer loop: start from every node that is still white. */
    method Search() returns (cycle: Option<seq<T>>)
      requires Valid() && path == []
      modifies this
      ensures cycle.Some? ==> ClosedWalk(graph, cycle.value) && Distinct(cycle.value[1..])
      ensures cycle.None? ==> Settled(graph, finished) && forall a :: a in graph ==> a in finished
    {
      var rest := graph.Keys;
      while rest != {}
        invariant Valid() && path == []
        invariant rest <= graph.Keys
        invariant forall s :: s in graph.Keys - rest ==> s in color && color[s] == Black
        decreases rest
      {
        var start :| start in rest;
        rest := rest - {start};
        if start !in color {
          cycle := Visit(start);
          if cycle.Some? {
            return;
          }
        } else {
          assert start !in path;
        }
      }
      cycle := None;
    }
  }

  /** An edge from the end of a path back to one of its nodes closes a cycle. */
  lemma LoopOnPath<T(!new)>(g: Graph<T>, path: seq<T>, i: nat, next: T)
    requires Walk(g, path) && Distinct(path) && i < |path| && path[i] == next
    requires Edge(g, path[|path| - 1], next)
    ensures ClosedWalk(g, path[i..] + [next]) && Distinct((path[i..] + [next])[1..])
  {
    var loop := path[i..] + [next];
    forall k | 0 < k < |loop|
      ensures Edge(g, loop[k - 1], loop[k])
    {
      assert loop[k - 1] == path[i + k - 1];
      if k < |loop| - 1 {
        assert loop[k] == path[i + k];
      }
    }
  }

  /** A node whose successors are all settled may be appended to a settled order. */
  lemma SettledExtends<T(!new)>(g: Graph<T>, order: seq<T>, node: T)
    requires Settled(g, order)
    requires forall s :: s in Successors(g, node) ==> s in order
    ensures Settled(g, order + [node])
  {
    var longer := order + [node];
    forall i, b | 0 <= i < |longer| && Edge(g, longer[i], b)
      ensures b in longer[..i]
    {
      if i < |order| {
        assert longer[..i] == order[..i];
      } else {
        assert longer[..i] == order;
      }
    }
  }

  /** A cycle is reported exactly when there is one, and what is reported is one:
      a closed walk along real edges that passes through no node twice.  Without a
      cycle, the order in which nodes finish lists every target before its source. */
  method FindCycle<T(==,!new)>(g: Graph<T>) returns (cycle: Option<seq<T>>, ghost order: seq<T>)
    ensures cycle.None? <==> Acyclic(g)
    ensures cycle.Some? ==> ClosedWalk(g, cycle.value) && Distinct(cycle.value[1..])
    ensures cycle.None? ==> Settled(g, order) && forall a :: a in g ==> a in order
  {
    var finder := new CycleFinder(g);
    cycle := finder.Search();
    order := finder.finished;
    if cycle.None? {
      SettledIsAcyclic(g, order);
    }
  }
}
