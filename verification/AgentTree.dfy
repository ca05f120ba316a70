/** The static agent tree: what the constructor accepts, and the traversals that terminate
    only because it accepted. */
module AgentTree {
  import opened Common
  import opened Graphs

  datatype Agent = Agent(id: string, parent: Option<string>, children: seq<string>)

  type Agents = map<string, Agent>

  datatype TreeError =
    | DuplicateId(id: string)
    | NoRoot
    | MultipleRoots
    | UnknownParent(id: string)
    | NotListedByParent(id: string)
    | UnknownChild(id: string)
    | Cycle(path: seq<string>)

  // ----- what the constructor checks -----

  function Roots(agents: Agents): set<string> {
    set a | a in agents && agents[a].parent == None
  }

  /** Every agent's parent exists and lists it. */
  predicate ListedByParent(agents: Agents, a: string)
    requires a in agents
  {
    agents[a].parent.Some? ==>
      agents[a].parent.value in agents && a in agents[agents[a].parent.value].children
  }

  predicate ChildrenExist(agents: Agents, a: string)
    requires a in agents
  {
    forall c :: c in agents[a].children ==> c in agents
  }

  function UpGraph(agents: Agents): Graph<string> {
    map a | a in agents ::
      if agents[a].parent.Some? && agents[a].parent.value in agents then {agents[a].parent.value} else {}
  }

  function DownGraph(agents: Agents): Graph<string> {
    map a | a in agents :: set c | c in agents[a].children && c in agents
  }

  ghost predicate Accepted(agents: Agents) {
    && (forall a :: a in agents ==> agents[a].id == a)
    && |Roots(agents)| == 1
    && (forall a :: a in agents ==> ListedByParent(agents, a) && ChildrenExist(agents, a))
    && Acyclic(UpGraph(agents)) && Acyclic(DownGraph(agents))
  }

  /** `r` has no parent and every other agent has one. */
  ghost predicate OnlyRoot(agents: Agents, r: string) {
    r in agents && agents[r].parent == None && forall a :: a in agents && a != r ==> agents[a].parent.Some?
  }

  lemma OneRootMeaning(agents: Agents)
    ensures |Roots(agents)| == 1 <==> exists r :: OnlyRoot(agents, r)
  {
    var roots := Roots(agents);
    if |roots| == 1 {
      var r :| r in roots;
      SingletonSize(roots, r);
      assert roots == {r};
      forall a | a in agents && a != r ensures agents[a].parent.Some? {
        assert a !in roots;
      }
      assert OnlyRoot(agents, r);
    } else if r :| OnlyRoot(agents, r) {
      assert roots == {r};
    }
  }

  /** The two graphs that must be acyclic are the parent links and the child links. */
  lemma GraphsMeaning(agents: Agents, a: string, b: string)
    ensures Edge(UpGraph(agents), a, b) <==> a in agents && b in agents && agents[a].parent == Some(b)
    ensures Edge(DownGraph(agents), a, b) <==> a in agents && b in agents && b in agents[a].children
  {
  }

  /** Every parent that is named exists and lists its child, and every child that is listed
      exists. */
  lemma LinksMeaning(agents: Agents)
    ensures (forall a :: a in agents ==> ListedByParent(agents, a))
            <==> forall a, p :: a in agents && agents[a].parent == Some(p) ==> p in agents && a in agents[p].children
    ensures (forall a :: a in agents ==> ChildrenExist(agents, a))
            <==> forall a, c :: a in agents && c in agents[a].children ==> c in agents
  {
  }

  // ----- parent chains -----

  /** `chain` lists the ancestors of `a` from its parent up to a root. */
  ghost predicate AncestorChain(agents: Agents, a: string, chain: seq<string>)
    decreases |chain|
  {
    a in agents
    && if chain == [] then agents[a].parent == None
       else agents[a].parent == Some(chain[0]) && AncestorChain(agents, chain[0], chain[1..])
  }

  lemma {:induction false} ChainIsUnique(agents: Agents, a: string, c: seq<string>, d: seq<string>)
    requires AncestorChain(agents, a, c) && AncestorChain(agents, a, d)
    ensures c == d
    decreases |c|
  {
    if c != [] {
      ChainIsUnique(agents, c[0], c[1..], d[1..]);
      assert c == [c[0]] + c[1..] && d == [d[0]] + d[1..];
    }
  }

  lemma {:induction false} ChainEndsAtRoot(agents: Agents, a: string, chain: seq<string>, root: string)
    requires AncestorChain(agents, a, chain) && Roots(agents) == {root}
    ensures ([a] + chain)[|chain|] == root
    decreases |chain|
  {
    if chain == [] {
      assert a in Roots(agents);
    } else {
      ChainEndsAtRoot(agents, chain[0], chain[1..], root);
      assert [chain[0]] + chain[1..] == chain;
    }
  }

  /** A position in a settled order of the parent graph drops at every step up. */
  lemma StepUpDrops(agents: Agents, order: seq<string>, a: string)
    requires Accepted(agents) && Settled(UpGraph(agents), order)
    requires a in agents && a in order && agents[a].parent.Some?
    ensures agents[a].parent.value in order
    ensures FirstIndex(order, agents[a].parent.value) < FirstIndex(order, a)
  {
    var p, i := agents[a].parent.value, FirstIndex(order, a);
    assert ListedByParent(agents, a);
    assert Edge(UpGraph(agents), order[i], p);
    assert p in order[..i];
  }

  lemma {:induction false} ChainExists(agents: Agents, order: seq<string>, a: string) returns (chain: seq<string>)
    requires Accepted(agents) && Settled(UpGraph(agents), order) && a in agents
    requires forall x :: x in agents ==> x in order
    ensures AncestorChain(agents, a, chain)
    decreases FirstIndex(order, a)
  {
    if agents[a].parent.None? {
      return [];
    }
    var p := agents[a].parent.value;
    StepUpDrops(agents, order, a);
    assert ListedByParent(agents, a);
    var rest := ChainExists(agents, order, p);
    chain := [p] + rest;
  }

  /** An ancestor reaches its descendant along child edges. */
  lemma {:induction false} AncestorReaches(agents: Agents, a: string, chain: seq<string>, k: nat)
    requires Accepted(agents) && AncestorChain(agents, a, chain) && k <= |chain|
    ensures Reaches(DownGraph(agents), ([a] + chain)[k], a)
    decreases |chain|
  {
    var g := DownGraph(agents);
    if k == 0 {
      assert Walk(g, [a]);
    } else {
      var p := chain[0];
      AncestorReaches(agents, p, chain[1..], k - 1);
      assert ([a] + chain)[k] == ([p] + chain[1..])[k - 1];
      var w :| Walk(g, w) && w[0] == ([a] + chain)[k] && w[|w| - 1] == p;
      assert ListedByParent(agents, a);
      assert Edge(g, p, a);
      ExtendWalk(g, w, a);
    }
  }

  lemma ExtendWalk(g: Graph<string>, w: seq<string>, b: string)
    requires Walk(g, w) && Edge(g, w[|w| - 1], b)
    ensures Walk(g, w + [b]) && (w + [b])[0] == w[0] && (w + [b])[|w|] == b
  {
    var v := w + [b];
    forall i | 0 < i < |v|
      ensures Edge(g, v[i - 1], v[i])
    {
      assert i < |w| ==> v[i - 1] == w[i - 1] && v[i] == w[i];
    }
  }

  // ----- the work a subtree traversal has to do -----

  lemma StepDownDrops(agents: Agents, order: seq<string>, a: string, c: string)
    requires Settled(DownGraph(agents), order) && a in order && Edge(DownGraph(agents), a, c)
    ensures c in order && FirstIndex(order, c) < FirstIndex(order, a)
  {
    var i := FirstIndex(order, a);
    assert Edge(DownGraph(agents), order[i], c);
    assert c in order[..i];
  }

  /** Visits caused by one node: itself and, for every listed child, the child's visits. */
  ghost function Visits(agents: Agents, order: seq<string>, a: string): (n: nat)
    requires Settled(DownGraph(agents), order) && a in agents && a in order
    requires ChildrenExist(agents, a) && forall x :: x in agents ==> ChildrenExist(agents, x)
    ensures n > 0
    decreases FirstIndex(order, a), 1, 0
  {
    1 + VisitsOfAll(agents, order, a, agents[a].children)
  }

  ghost function VisitsOfAll(agents: Agents, order: seq<string>, a: string, kids: seq<string>): nat
    requires Settled(DownGraph(agents), order) && a in agents && a in order
    requires forall x :: x in agents ==> ChildrenExist(agents, x)
    requires forall c :: c in kids ==> c in agents[a].children
    decreases FirstIndex(order, a), 0, |kids|
  {
    if kids == [] then 0
    else
      assert kids[0] in kids && ChildrenExist(agents, a);
      assert Edge(DownGraph(agents), a, kids[0]);
      StepDownDrops(agents, order, a, kids[0]);
      Visits(agents, order, kids[0]) + VisitsOfAll(agents, order, a, kids[1..])
  }

  ghost predicate Placed(agents: Agents, order: seq<string>) {
    && Settled(DownGraph(agents), order)
    && (forall x :: x in agents ==> x in order && ChildrenExist(agents, x))
  }

  ghost function Load(agents: Agents, order: seq<string>, stack: seq<string>): nat
    requires Placed(agents, order) && forall x :: x in stack ==> x in agents
  {
    if stack == [] then 0
    else
      assert stack[|stack| - 1] in stack;
      Visits(agents, order, stack[|stack| - 1]) + Load(agents, order, stack[..|stack| - 1])
  }

  lemma {:induction false} LoadOfPush(
    agents: Agents, order: seq<string>, stack: seq<string>, a: string, kids: seq<string>)
    requires Placed(agents, order) && a in agents && forall x :: x in stack ==> x in agents
    requires forall c :: c in kids ==> c in agents[a].children
    ensures forall x :: x in stack + kids ==> x in agents
    ensures Load(agents, order, stack + kids) == Load(agents, order, stack) + VisitsOfAll(agents, order, a, kids)
    decreases |kids|
  {
    assert ChildrenExist(agents, a);
    if kids == [] {
      assert stack + kids == stack;
    } else {
      var pushed := stack + [kids[0]];
      assert kids[0] in kids && pushed[..|stack|] == stack;
      LoadOfPush(agents, order, pushed, a, kids[1..]);
      assert pushed + kids[1..] == stack + kids;
    }
  }

  // ----- the tree -----

  ghost predicate NoDuplicates(list: seq<Agent>) {
    forall i, j :: 0 <= i < j < |list| ==> list[i].id != list[j].id
  }

  function Table(list: seq<Agent>): Agents {
    if list == [] then map[] else Table(list[..|list| - 1])[list[|list| - 1].id := list[|list| - 1]]
  }

  lemma {:induction false} TableIds(list: seq<Agent>)
    ensures Table(list).Keys == set a | a in list :: a.id
    ensures forall k :: k in Table(list) ==> Table(list)[k].id == k
  {
    if list != [] {
      var front, last := list[..|list| - 1], list[|list| - 1];
      TableIds(front);
      assert list == front + [last];
    }
  }

  class AgentTree {
    const agents: Agents
    const root: string
    ghost const up: seq<string>   // every agent's parent comes before it
    ghost const down: seq<string> // every agent's children come before it

    ghost predicate Valid() {
      && Accepted(agents) && Roots(agents) == {root}
      && Settled(UpGraph(agents), up) && Placed(agents, down)
      && (forall x :: x in agents ==> x in up)
    }

    constructor (agents: Agents, root: string, ghost up: seq<string>, ghost down: seq<string>)
      ensures this.agents == agents && this.root == root && this.up == up && this.down == down
    {
      this.agents, this.root, this.up, this.down := agents, root, up, down;
    }

    /** The checks of the constructor, in order: the list is accepted exactly when it has
        no duplicate id and its table passes. */
    static method Build(list: seq<Agent>) returns (tree: AgentTree?, error: Option<TreeError>)
      ensures tree != null <==> NoDuplicates(list) && Accepted(Table(list))
      ensures tree != null ==> fresh(tree) && tree.Valid() && tree.agents == Table(list) && error.None?
      ensures tree == null ==> error.Some?
      ensures error.Some? && error.value.Cycle? ==>
                ClosedWalk(UpGraph(Table(list)), error.value.path)
                    || ClosedWalk(DownGraph(Table(list)), error.value.path)
    {
      var duplicate := FindDuplicate(list);
      if duplicate.Some? {
        return null, Some(DuplicateId(duplicate.value));
      }
      var table := MakeTable(list);
      var root;
      ghost var up, down;
      root, error, up, down := CheckTable(table);
      if error.Some? {
        return null, error;
      }
      tree := new AgentTree(table, root, up, down);
    }

    static method MakeTable(list: seq<Agent>) returns (table: Agents)
      ensures table == Table(list) && forall k :: k in table ==> table[k].id == k
    {
      table := map[];
      for i := 0 to |list|
        invariant table == Table(list[..i])
      {
        assert list[..i + 1][..i] == list[..i];
        table := table[list[i].id := list[i]];
      }
      assert list[..|list|] == list;
      TableIds(list);
    }

    static method CheckTable(table: Agents)
      returns (root: string, error: Option<TreeError>, ghost up: seq<string>, ghost down: seq<string>)
      requires forall k :: k in table ==> table[k].id == k
      ensures error.None? <==> Accepted(table)
      ensures error.None? ==>
                && Roots(table) == {root} && Settled(UpGraph(table), up) && Placed(table, down)
                && (forall x :: x in table ==> x in up)
      ensures error.Some? && error.value.Cycle? ==>
                ClosedWalk(UpGraph(table), error.value.path) || ClosedWalk(DownGraph(table), error.value.path)
    {
      root, up, down := "", [], [];
      var roots := Roots(table);
      if roots == {} {
        return root, Some(NoRoot), up, down;
      }
      root :| root in roots;
      SingletonSize(roots, root);
      if roots != {root} {
        return root, Some(MultipleRoots), up, down;
      }
      if a :| a in table && !ListedByParent(table, a) {
        error := Some(if table[a].parent.value in table then NotListedByParent(a) else UnknownParent(a));
        return;
      }
      if a :| a in table && !ChildrenExist(table, a) {
        return root, Some(UnknownChild(a)), up, down;
      }
      var cycle;
      cycle, up := FindCycle(UpGraph(table));
      if cycle.Some? {
        return root, Some(Cycle(cycle.value)), up, down;
      }
      cycle, down := FindCycle(DownGraph(table));
      error := if cycle.Some? then Some(Cycle(cycle.value)) else None;
    }

    static method FindDuplicate(list: seq<Agent>) returns (id: Option<string>)
      ensures id.None? <==> NoDuplicates(list)
    {
      var seen: set<string> := {};
      for i := 0 to |list|
        invariant seen == set k | 0 <= k < i :: list[k].id
        invariant forall j, k :: 0 <= j < k < i ==> list[j].id != list[k].id
      {
        if list[i].id in seen {
          return Some(list[i].id);
        }
        seen := seen + {list[i].id};
      }
      id := None;
    }

    /** All ancestors, from the parent up to the root. */
    method Ancestors(a: string) returns (chain: seq<string>)
      requires Valid() && a in agents
      ensures AncestorChain(agents, a, chain)
      ensures ([a] + chain)[|chain|] == root
    {
      chain := [];
      ghost var whole := ChainExists(agents, up, a);
      var current := agents[a].parent;
      assert whole[0..] == whole;
      while current.Some?
        invariant |chain| <= |whole| && chain == whole[..|chain|]
        invariant current == if |chain| < |whole| then Some(whole[|chain|]) else None
        invariant current.Some? ==> AncestorChain(agents, whole[|chain|], whole[|chain| + 1..])
        decreases |whole| - |chain|
      {
        ghost var n := |chain|;
        assert whole[n + 1..] != [] ==> whole[n + 1..][0] == whole[n + 1] && whole[n + 1..][1..] == whole[n + 2..];
        chain := chain + [current.value];
        current := agents[current.value].parent;
      }
      assert chain == whole;
      ChainEndsAtRoot(agents, a, chain, root);
    }

    /** The depth is the number of ancestors. */
    method Depth(a: string) returns (d: nat)
      requires Valid() && a in agents
      ensures forall chain :: AncestorChain(agents, a, chain) ==> d == |chain|
    {
      d := 0;
      ghost var whole := ChainExists(agents, up, a);
      var current := a;
      ghost var rest := whole;
      while agents[current].parent.Some?
        invariant current in agents && AncestorChain(agents, current, rest) && d + |rest| == |whole|
        decreases |rest|
      {
        d := d + 1;
        current := agents[current].parent.value;
        rest := rest[1..];
      }
      forall chain | AncestorChain(agents, a, chain)
        ensures d == |chain|
      {
        ChainIsUnique(agents, a, chain, whole);
      }
    }

    /** Whether `a` is `d` itself or one of its ancestors. */
    method IsAncestor(a: string, d: string) returns (yes: bool)
      requires Valid() && a in agents && d in agents
      ensures forall chain :: AncestorChain(agents, d, chain) ==> (yes <==> a in [d] + chain)
    {
      ghost var whole := ChainExists(agents, up, d);
      ghost var rest := whole;
      var current := Some(d);
      yes := false;
      while current.Some?
        invariant current.Some? ==> AncestorChain(agents, current.value, rest)
        invariant a in [d] + whole <==> current.Some? && a in [current.value] + rest
        decreases if current.Some? then 1 + |rest| else 0
      {
        if current.value == a {
          yes := true;
          break;
        }
        ghost var here := rest;
        current := agents[current.value].parent;
        rest := if rest == [] then [] else rest[1..];
        assert here != [] ==> here == [here[0]] + here[1..];
      }
      forall chain | AncestorChain(agents, d, chain)
        ensures yes <==> a in [d] + chain
      {
        ChainIsUnique(agents, d, chain, whole);
      }
    }

    /** Every id below `a`, `a` included; a child listed twice is visited twice. */
    method SubtreeIds(a: string) returns (result: seq<string>)
      requires Valid() && a in agents
      ensures forall x :: x in result <==> Reaches(DownGraph(agents), a, x)
      ensures forall x :: x in result ==> x in agents
    {
      var g := DownGraph(agents);
      result := [];
      var stack := [a];
      assert Walk(g, [a]);
      assert Reaches(g, a, a);
      while stack != []
        invariant forall x :: x in stack || x in result ==> x in agents && Reaches(g, a, x)
        invariant a in stack || a in result
        invariant forall x, c :: x in result && Edge(g, x, c) ==> c in stack || c in result
        decreases Load(agents, down, stack)
      {
        var node := stack[|stack| - 1];
        ghost var below := stack[..|stack| - 1];
        assert stack == below + [node] && node in stack;
        assert ChildrenExist(agents, node);
        LoadOfPush(agents, down, below, node, agents[node].children);
        ChildrenAreReached(agents, a, node);
        stack := stack[..|stack| - 1] + agents[node].children;
        result := result + [node];
      }
      ClosedUnderEdges(g, a, result);
    }
  }

  lemma SingletonSize<T>(s: set<T>, x: T)
    requires x in s
    ensures |s| == 1 <==> s == {x}
  {
    if |s| == 1 {
      assert |s - {x}| == 0;
    }
  }

  lemma ChildrenAreReached(agents: Agents, a: string, node: string)
    requires node in agents && ChildrenExist(agents, node) && Reaches(DownGraph(agents), a, node)
    ensures forall c :: c in agents[node].children
                        ==> Reaches(DownGraph(agents), a, c) && Edge(DownGraph(agents), node, c)
  {
    var g := DownGraph(agents);
    var w :| Walk(g, w) && w[0] == a && w[|w| - 1] == node;
    forall c | c in agents[node].children
      ensures Reaches(g, a, c) && Edge(g, node, c)
    {
      ExtendWalk(g, w, c);
    }
  }

  /** A collection that holds `a` and follows every edge holds all that `a` reaches. */
  lemma ClosedUnderEdges(g: Graph<string>, a: string, found: seq<string>)
    requires a in found && forall x, c :: x in found && Edge(g, x, c) ==> c in found
    ensures forall x :: Reaches(g, a, x) ==> x in found
  {
    forall x | Reaches(g, a, x)
      ensures x in found
    {
      var w :| Walk(g, w) && w[0] == a && w[|w| - 1] == x;
      for i := 1 to |w|
        invariant w[i - 1] in found
      {
        assert Edge(g, w[i - 1], w[i]);
      }
    }
  }

  // ----- what acceptance means -----

  /** The subtree of the root is the whole tree. */
  lemma RootReachesAll(tree: AgentTree, a: string)
    requires tree.Valid()
    ensures Reaches(DownGraph(tree.agents), tree.root, a) <==> a in tree.agents
  {
    var agents := tree.agents;
    if a in agents {
      var chain := ChainExists(agents, tree.up, a);
      ChainEndsAtRoot(agents, a, chain, tree.root);
      AncestorReaches(agents, a, chain, |chain|);
    }
    assert tree.root in Roots(agents);
    if w :| Walk(DownGraph(agents), w) && w[0] == tree.root && w[|w| - 1] == a {
      assert |w| > 1 ==> Edge(DownGraph(agents), w[|w| - 2], w[|w| - 1]);
    }
  }

  /** Being an ancestor implies having the other in one's subtree. */
  lemma AncestorHasInSubtree(tree: AgentTree, a: string, d: string, chain: seq<string>)
    requires tree.Valid() && AncestorChain(tree.agents, d, chain) && a in [d] + chain
    ensures Reaches(DownGraph(tree.agents), a, d)
  {
    var k :| 0 <= k <= |chain| && ([d] + chain)[k] == a;
    AncestorReaches(tree.agents, d, chain, k);
  }

  /** `a` is `d` itself or one of its ancestors. */
  ghost predicate Above(agents: Agents, a: string, d: string) {
    exists chain :: AncestorChain(agents, d, chain) && a in [d] + chain
  }

  /** Behind each ancestor comes the ancestor's own chain. */
  lemma {:induction false} ChainSuffix(agents: Agents, d: string, chain: seq<string>, k: nat)
    requires AncestorChain(agents, d, chain) && 0 < k <= |chain|
    ensures AncestorChain(agents, chain[k - 1], chain[k..])
    decreases |chain|
  {
    var rest := chain[1..];
    if k > 1 {
      ChainSuffix(agents, chain[0], rest, k - 1);
      assert rest[k - 2] == chain[k - 1] && rest[k - 1..] == chain[k..];
    }
  }

  lemma AboveIsTransitive(agents: Agents, a: string, b: string, c: string)
    requires Above(agents, a, b) && Above(agents, b, c)
    ensures Above(agents, a, c)
  {
    var lower :| AncestorChain(agents, c, lower) && b in [c] + lower;
    if b in lower {
      var i :| 0 <= i < |lower| && lower[i] == b;
      var k := i + 1;
      var upper :| AncestorChain(agents, b, upper) && a in [b] + upper;
      ChainSuffix(agents, c, lower, k);
      ChainIsUnique(agents, b, upper, lower[k..]);
      assert forall x :: x in lower[k..] ==> x in lower;
    }
  }

  /** Subtrees hold nobody but descendants exactly when every listed child has the lister
      among its ancestors: the constructor alone does not ensure it. */
  lemma SubtreesMatchAncestryIff(tree: AgentTree)
    requires tree.Valid()
    ensures (forall a, d :: a in tree.agents && Reaches(DownGraph(tree.agents), a, d) ==> Above(tree.agents, a, d)) <==>
            (forall a, c :: a in tree.agents && c in tree.agents[a].children ==> Above(tree.agents, a, c))
  {
    var agents, g := tree.agents, DownGraph(tree.agents);
    if forall a, d :: a in agents && Reaches(g, a, d) ==> Above(agents, a, d) {
      forall a, c | a in agents && c in agents[a].children
        ensures Above(agents, a, c)
      {
        assert ChildrenExist(agents, a);
        assert Edge(g, a, c);
        assert Walk(g, [a]);
        ExtendWalk(g, [a], c);
        assert Reaches(g, a, c);
      }
    }
    if forall a, c :: a in agents && c in agents[a].children ==> Above(agents, a, c) {
      forall a, d | a in agents && Reaches(g, a, d)
        ensures Above(agents, a, d)
      {
        var w :| Walk(g, w) && w[0] == a && w[|w| - 1] == d;
        var own := ChainExists(agents, tree.up, a);
        assert a in [a] + own;
        for i := 1 to |w|
          invariant Above(agents, a, w[i - 1])
        {
          assert Edge(g, w[i - 1], w[i]);
          AboveIsTransitive(agents, a, w[i - 1], w[i]);
        }
      }
    }
  }

  /** `b` is listed by its parent `r` and by `a`. */
  function TwiceListed(r: string, a: string, b: string): Agents {
    map[r := Agent(r, None, [a, b]), a := Agent(a, Some(r), [b]), b := Agent(b, Some(r), [])]
  }

  predicate AllDifferent(r: string, a: string, b: string) {
    r != a && r != b && a != b
  }

  lemma TwiceListedDown(r: string, a: string, b: string)
    requires AllDifferent(r, a, b)
    ensures Acyclic(DownGraph(TwiceListed(r, a, b)))
  {
    var g, down := DownGraph(TwiceListed(r, a, b)), [b, a, r];
    assert g.Keys == {r, a, b} && g[b] == {} && g[a] == {b} && g[r] == {a, b};
    assert down[..1] == [b] && down[..2] == [b, a];
    forall i, c | 0 <= i < |down| && Edge(g, down[i], c)
      ensures c in down[..i]
    {
      assert i == 0 || i == 1 || i == 2;
    }
    SettledIsAcyclic(g, down);
  }

  lemma TwiceListedUp(r: string, a: string, b: string)
    requires AllDifferent(r, a, b)
    ensures Acyclic(UpGraph(TwiceListed(r, a, b)))
  {
    var g, up := UpGraph(TwiceListed(r, a, b)), [r, a, b];
    assert g.Keys == {r, a, b} && g[r] == {} && g[a] == {r} && g[b] == {r};
    assert up[..1] == [r] && up[..2] == [r, a];
    forall i, c | 0 <= i < |up| && Edge(g, up[i], c)
      ensures c in up[..i]
    {
      assert i == 0 || i == 1 || i == 2;
    }
    SettledIsAcyclic(g, up);
  }

  lemma TwiceListedIsAccepted(r: string, a: string, b: string)
    requires AllDifferent(r, a, b)
    ensures Accepted(TwiceListed(r, a, b))
  {
    var agents := TwiceListed(r, a, b);
    TwiceListedDown(r, a, b);
    TwiceListedUp(r, a, b);
    assert Roots(agents) == {r};
    assert [a, b][0] == a && [a, b][1] == b && [b][0] == b;
    assert forall x :: x in agents <==> x == r || x == a || x == b;
  }

  lemma TwiceListedChain(r: string, a: string, b: string)
    requires AllDifferent(r, a, b)
    ensures AncestorChain(TwiceListed(r, a, b), b, [r])
  {
    assert [r][1..] == [];
  }

  /** The constructor accepts a child listed by two parents; the second lister is not its
      ancestor but has it in its subtree. */
  lemma ChildCanBeListedTwice(r: string, a: string, b: string)
    requires AllDifferent(r, a, b)
    ensures Accepted(TwiceListed(r, a, b))
    ensures Reaches(DownGraph(TwiceListed(r, a, b)), a, b) && !Above(TwiceListed(r, a, b), a, b)
  {
    var agents := TwiceListed(r, a, b);
    TwiceListedIsAccepted(r, a, b);
    assert [b][0] == b;
    assert Walk(DownGraph(agents), [a, b]);
    forall chain | AncestorChain(agents, b, chain)
      ensures a !in [b] + chain
    {
      TwiceListedChain(r, a, b);
      ChainIsUnique(agents, b, chain, [r]);
    }
  }
}
