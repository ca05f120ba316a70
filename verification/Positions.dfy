/** Positions, the delegation graph they declare, and the static governance check of
    `models/position.py`. */
module Positions {
  import opened Common
  import opened Graphs

  /** A uuid, as text. */
  type Id = string

  datatype Position = Position(id: Id, superior: Option<Id>, subordinates: seq<Id>, collaborators: seq<Id>)

  /** What the constructor of a position demands: no edge to itself. */
  predicate NoSelfEdge(p: Position) {
    p.superior != Some(p.id) && p.id !in p.subordinates && p.id !in p.collaborators
  }

  /** Which edge kinds are declared with a delegation mode other than "none". */
  datatype Semantics = Semantics(down: bool, across: bool)

  const DEFAULT_SEMANTICS := Semantics(true, true)

  datatype GovernanceError = DanglingEdge | DelegationCycle(cycle: seq<Id>)

  function Ids(ps: set<Position>): set<Id> {
    set p | p in ps :: p.id
  }

  /** The positions `p` may delegate to. */
  function Targets(p: Position, sem: Semantics): set<Id> {
    (if sem.down then set t | t in p.subordinates else {})
    + (if sem.across then set t | t in p.collaborators else {})
  }

  /** `p` may delegate to `b`: down to a subordinate or across to a collaborator, where the
      semantics declare that kind of edge. */
  ghost predicate MayDelegate(p: Position, sem: Semantics, b: Id) {
    (sem.down && b in p.subordinates) || (sem.across && b in p.collaborators)
  }

  ghost function Delegation(ps: set<Position>, sem: Semantics): Graph<Id> {
    map a | a in Ids(ps) :: set p, b | p in ps && p.id == a && b in Targets(p, sem) :: b
  }

  /** No edge of `p` points outside `known`. */
  predicate Anchored(p: Position, known: set<Id>) {
    && (p.superior.Some? ==> p.superior.value in known)
    && (forall s :: s in p.subordinates ==> s in known)
    && (forall c :: c in p.collaborators ==> c in known)
  }

  ghost predicate NoDangling(ps: set<Position>) {
    forall p :: p in ps ==> Anchored(p, Ids(ps))
  }

  /** What the governance check guarantees of a set of positions. */
  ghost predicate Governed(ps: set<Position>, sem: Semantics) {
    NoDangling(ps) && Acyclic(Delegation(ps, sem))
  }

  lemma DelegationEdge(ps: set<Position>, sem: Semantics, a: Id, b: Id)
    ensures Edge(Delegation(ps, sem), a, b) <==> exists p :: p in ps && p.id == a && b in Targets(p, sem)
    ensures Edge(Delegation(ps, sem), a, b) <==> exists p :: p in ps && p.id == a && MayDelegate(p, sem, b)
  {
    assert forall p: Position :: b in Targets(p, sem) <==> MayDelegate(p, sem, b);
    if p :| p in ps && p.id == a && b in Targets(p, sem) {
      assert a in Ids(ps);
    }
  }

  /** `b` is the superior, a subordinate or a collaborator of `p`. */
  ghost predicate LinksTo(p: Position, b: Id) {
    p.superior == Some(b) || b in p.subordinates || b in p.collaborators
  }

  /** Nothing dangles exactly when every position that some position links to exists. */
  lemma NoDanglingMeaning(ps: set<Position>)
    ensures NoDangling(ps) <==> forall p, b :: p in ps && LinksTo(p, b) ==> exists q :: q in ps && q.id == b
  {
    forall p ensures Anchored(p, Ids(ps)) <==> forall b :: LinksTo(p, b) ==> b in Ids(ps) {
      if p.superior.Some? && p.superior.value !in Ids(ps) {
        assert LinksTo(p, p.superior.value);
      }
    }
    assert forall b :: b in Ids(ps) <==> exists q :: q in ps && q.id == b;
  }

  /** Fewer positions over the same ids are still governed. */
  lemma GovernedSubset(ps: set<Position>, qs: set<Position>, sem: Semantics)
    requires Governed(ps, sem) && qs <= ps && Ids(qs) == Ids(ps)
    ensures Governed(qs, sem)
  {
    forall a, b | Edge(Delegation(qs, sem), a, b)
      ensures Edge(Delegation(ps, sem), a, b)
    {
      DelegationEdge(qs, sem, a, b);
      DelegationEdge(ps, sem, a, b);
    }
    SubgraphIsAcyclic(Delegation(ps, sem), Delegation(qs, sem));
  }

  function Members(l: seq<Position>): set<Position> {
    set p | p in l
  }

  /** `_delegation_graph`: edges accumulate position by position, so positions listed
      twice under one id contribute all their edges. */
  method DelegationGraph(l: seq<Position>, sem: Semantics) returns (g: Graph<Id>)
    ensures g == Delegation(Members(l), sem)
  {
    g := map[];
    for i := 0 to |l|
      invariant g.Keys == set k | 0 <= k < i :: l[k].id
      invariant forall a :: a in g ==> g[a] == set k, b | 0 <= k < i && l[k].id == a && b in Targets(l[k], sem) :: b
    {
      g := g[l[i].id := Successors(g, l[i].id) + Targets(l[i], sem)];
    }
    assert g.Keys == Ids(Members(l));
    forall a | a in g
      ensures g[a] == Delegation(Members(l), sem)[a]
    {
      forall b
        ensures b in g[a] <==> b in Delegation(Members(l), sem)[a]
      {
        if b in g[a] {
          var k :| 0 <= k < |l| && l[k].id == a && b in Targets(l[k], sem);
          assert l[k] in Members(l);
        }
      }
    }
  }

  method HasDanglingEdge(l: seq<Position>) returns (dangling: bool)
    ensures dangling <==> !NoDangling(Members(l))
  {
    var known := set p | p in l :: p.id;
    assert known == Ids(Members(l));
    for i := 0 to |l|
      invariant forall k :: 0 <= k < i ==> Anchored(l[k], known)
    {
      if !Anchored(l[i], known) {
        assert l[i] in Members(l);
        return true;
      }
    }
    dangling := false;
  }

  /** `validate_governance_invariants` accepts exactly the governed lists, and a reported
      cycle is a real one. */
  method ValidateGovernance(l: seq<Position>, sem: Semantics) returns (error: Option<GovernanceError>)
    ensures error.None? <==> Governed(Members(l), sem)
    ensures error.Some? && error.value.DelegationCycle? ==>
              ClosedWalk(Delegation(Members(l), sem), error.value.cycle)
  {
    var dangling := HasDanglingEdge(l);
    if dangling {
      return Some(DanglingEdge);
    }
    var g := DelegationGraph(l, sem);
    var cycle, order := FindCycle(g);
    error := if cycle.Some? then Some(DelegationCycle(cycle.value)) else None;
  }
}
