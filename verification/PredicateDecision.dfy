/** When a validated predicate reaches a verdict, and how the verdict moves with the numbers of
    the state. */
module PredicateDecision {
  import opened Common
  import opened JsonValues
  import opened PredicateAst
  import opened PredicateEval
  import opened PredicateMeaning
  import opened PredicateValidate

  // ----- validated predicates on states of the right types -----

  lemma ValidLeafBreaksIff(op: Op, args: seq<Json>, inQuantifier: bool, scope: Json)
    requires IsLeaf(op) && ValidLeaf(op, args, inQuantifier)
    ensures LeafOutcome(EvalLeaf(op, args, scope)).Fail?
            <==> exists v :: Reads(scope, args[0], v) && !Suits(OpText(op), v)
  {
    var found := Lookup(scope, args[0]);
    forall v ensures Reads(scope, args[0], v) <==> found == Value(v) {
      LookupReads(scope, args[0], v);
    }
    if found.Value? {
      ValidLeafSuits(op, args, inQuantifier, scope, found.v);
    }
  }

  lemma ValidLeafSuits(op: Op, args: seq<Json>, inQuantifier: bool, scope: Json, v: Json)
    requires IsLeaf(op) && ValidLeaf(op, args, inQuantifier) && Lookup(scope, args[0]) == Value(v)
    ensures EvalLeaf(op, args, scope).Judged? <==> Suits(OpText(op), v)
    ensures EvalLeaf(op, args, scope).Broken? <==> !Suits(OpText(op), v)
  {
  }

  /** A validated tree is decided in every state of the right types, and decided truly. */
  lemma {:induction false} FittingIsDecided(n: Json, inQuantifier: bool, scope: Json)
    requires Valid(n, inQuantifier) && Fits(n, scope)
    ensures Eval(n, scope) == Verdict(Satisfies(n, scope))
    decreases n, 2
  {
    FittingHasVerdict(n, inQuantifier, scope);
    VerdictIsTruth(n, scope);
  }

  lemma {:induction false} FittingHasVerdict(n: Json, inQuantifier: bool, scope: Json)
    requires Valid(n, inQuantifier) && Fits(n, scope)
    ensures Eval(n, scope).Verdict?
    decreases n, 1
  {
    var op := HeadOp(n).value;
    OpOfSound(n.items[0].text);
    if op.And? || op.Or? {
      FittingConnective(n, inQuantifier, scope);
    } else if op.Not? {
      FittingHasVerdict(n.items[1], inQuantifier, scope);
    } else if op.All? || op.Any? {
      FittingQuantifier(n, inQuantifier, scope);
    } else {
      ValidLeafBreaksIff(op, n.items[1..], inQuantifier, scope);
    }
  }

  lemma {:induction false} FittingConnective(n: Json, inQuantifier: bool, scope: Json)
    requires HeadOp(n) == Some(And) || HeadOp(n) == Some(Or)
    requires Valid(n, inQuantifier) && Fits(n, scope)
    ensures Eval(n, scope).Verdict?
    decreases n, 0
  {
    var kids := n.items[1..];
    OpOfSound(n.items[0].text);
    assert forall i :: 0 <= i < |kids| ==> kids[i] == n.items[i + 1];
    FittingKids(kids, inQuantifier, scope);
  }

  lemma {:induction false} FittingKids(kids: seq<Json>, inQuantifier: bool, scope: Json)
    requires ValidKids(kids, inQuantifier) && forall i :: 0 <= i < |kids| ==> Fits(kids[i], scope)
    ensures Conj(kids, scope).Verdict? && Disj(kids, scope).Verdict?
    decreases kids, 0
  {
    if kids != [] {
      FittingHasVerdict(kids[0], inQuantifier, scope);
      FittingKids(kids[1..], inQuantifier, scope);
    }
  }

  lemma {:induction false} FittingQuantifier(n: Json, inQuantifier: bool, scope: Json)
    requires HeadOp(n) == Some(All) || HeadOp(n) == Some(Any)
    requires Valid(n, inQuantifier) && Fits(n, scope)
    ensures Eval(n, scope).Verdict?
    decreases n, 0
  {
    OpOfSound(n.items[0].text);
    var found := Lookup(scope, n.items[1]);
    if found.Value? {
      LookupReads(scope, n.items[1], found.v);
      FittingElements(n.items[2], found.v.items);
    }
  }

  lemma {:induction false} FittingElements(child: Json, elems: seq<Json>)
    requires Valid(child, true) && forall e :: e in elems ==> Fits(child, e)
    ensures EveryOf(child, elems).Verdict? && SomeOf(child, elems).Verdict?
    decreases child, 2, |elems|
  {
    if elems != [] {
      FittingHasVerdict(child, true, elems[0]);
      FittingElements(child, elems[1..]);
    }
  }

  /** A gate of upper limits that is open stays open when numbers of the state are lowered. */
  lemma LoweringKeepsGateOpen(n: Json, inQuantifier: bool, scope: Json, low: Json)
    requires Valid(n, inQuantifier) && Limits(n, true) && Fits(n, scope)
    requires Lowered(scope, low) && Eval(n, scope) == Verdict(true)
    ensures Eval(n, low) == Verdict(true)
  {
    VerdictIsTruth(n, scope);
    LoweringKeepsLimits(n, true, scope, low);
    LoweringKeepsTypes(n, scope, low);
    FittingIsDecided(n, inQuantifier, low);
  }
}
