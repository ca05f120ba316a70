/** The static level-0 validator, and what it guarantees about evaluation. */
module PredicateValidate {
  import opened Common
  import opened JsonValues
  import opened PredicateAst
  import opened PredicateEval

  datatype Flaw =
    | NotANode
    | OutsideLanguage(name: string)
    | WrongArity(op: Op)
    | FieldNotText
    | DotOutsideQuantifier
    | MalformedField(name: string)
    | CountComparison
    | CountBound
    | SetNotList
    | MemberNotScalar
    | LiteralNotScalar(op: Op)
    | OrderNeedsNumber(op: Op)

  function FieldFlaws(field: Json, inQuantifier: bool): seq<Flaw> {
    if !field.Str? then [FieldNotText]
    else if field.text == "." then (if inQuantifier then [] else [DotOutsideQuantifier])
    else if IsFieldPath(field.text) then []
    else [MalformedField(field.text)]
  }

  function MemberFlaws(members: seq<Json>): seq<Flaw> {
    if members == [] then []
    else (if IsScalar(members[0]) then [] else [MemberNotScalar]) + MemberFlaws(members[1..])
  }

  function SetFlaws(members: Json): seq<Flaw> {
    if !members.List? || members.items == [] then [SetNotList] else MemberFlaws(members.items)
  }

  function LeafFlaws(op: Op, args: seq<Json>, inQuantifier: bool): seq<Flaw>
    requires IsLeaf(op)
  {
    if |args| != LeafArity(op) then [WrongArity(op)]
    else
      FieldFlaws(args[0], inQuantifier) +
      match op
      case Exists => []
      case Count =>
        (if NamesComparison(args[1]) then [] else [CountComparison]) +
        (if IsNumber(args[2]) then [] else [CountBound])
      case In => SetFlaws(args[1])
      case _ =>
        (if IsScalar(args[1]) then [] else [LiteralNotScalar(op)]) +
        (if IsOrdering(op) && !IsNumber(args[1]) then [OrderNeedsNumber(op)] else [])
  }

  /** Every flaw of a tree, in the order the validator meets them. */
  function Flaws(n: Json, inQuantifier: bool): seq<Flaw>
    decreases n, 0
  {
    if !IsOpList(n) then [NotANode]
    else
      match OpOf(n.items[0].text)
      case None => [OutsideLanguage(n.items[0].text)]
      case Some(op) => OpFlaws(op, n.items[1..], inQuantifier)
  }

  function OpFlaws(op: Op, args: seq<Json>, inQuantifier: bool): seq<Flaw>
    decreases args, 1
  {
    if op.And? || op.Or? then
      (if args == [] then [WrongArity(op)] else []) + KidsFlaws(args, inQuantifier)
    else if op.Not? then
      if |args| != 1 then [WrongArity(op)] else Flaws(args[0], inQuantifier)
    else if op.All? || op.Any? then
      if |args| != 2 then [WrongArity(op)]
      else FieldFlaws(args[0], inQuantifier) + Flaws(args[1], true)
    else LeafFlaws(op, args, inQuantifier)
  }

  function KidsFlaws(kids: seq<Json>, inQuantifier: bool): seq<Flaw>
    decreases kids, 0
  {
    if kids == [] then [] else Flaws(kids[0], inQuantifier) + KidsFlaws(kids[1..], inQuantifier)
  }

  // ----- the trees that pass, declaratively -----

  predicate ValidField(field: Json, inQuantifier: bool) {
    field.Str? && (if field.text == "." then inQuantifier else IsFieldPath(field.text))
  }

  predicate NamesComparison(v: Json) {
    v.Str? && OpOf(v.text).Some? && IsComparison(OpOf(v.text).value)
  }

  predicate ValidLeaf(op: Op, args: seq<Json>, inQuantifier: bool)
    requires IsLeaf(op)
  {
    && |args| == LeafArity(op)
    && ValidField(args[0], inQuantifier)
    && match op
       case Exists => true
       case Count => NamesComparison(args[1]) && IsNumber(args[2])
       case In => args[1].List? && args[1].items != [] && forall m :: m in args[1].items ==> IsScalar(m)
       case _ => IsScalar(args[1]) && (IsOrdering(op) ==> IsNumber(args[1]))
  }

  predicate Valid(n: Json, inQuantifier: bool)
    decreases n, 0
  {
    HeadOp(n).Some? && ValidOp(HeadOp(n).value, n.items[1..], inQuantifier)
  }

  predicate ValidOp(op: Op, args: seq<Json>, inQuantifier: bool)
    decreases args, 1
  {
    if op.And? || op.Or? then args != [] && ValidKids(args, inQuantifier)
    else if op.Not? then |args| == 1 && Valid(args[0], inQuantifier)
    else if op.All? || op.Any? then |args| == 2 && ValidField(args[0], inQuantifier) && Valid(args[1], true)
    else ValidLeaf(op, args, inQuantifier)
  }

  predicate ValidKids(kids: seq<Json>, inQuantifier: bool)
    decreases kids, 0
  {
    kids == [] || (Valid(kids[0], inQuantifier) && ValidKids(kids[1..], inQuantifier))
  }

  lemma {:induction false} MemberFlawsMeaning(members: seq<Json>)
    ensures MemberFlaws(members) == [] <==> forall m :: m in members ==> IsScalar(m)
  {
    if members != [] {
      MemberFlawsMeaning(members[1..]);
      assert |MemberFlaws(members)| >= |MemberFlaws(members[1..])|;
      assert forall m :: m in members <==> m == members[0] || m in members[1..];
    }
  }

  lemma LeafFlawsMeaning(op: Op, args: seq<Json>, inQuantifier: bool)
    requires IsLeaf(op)
    ensures LeafFlaws(op, args, inQuantifier) == [] <==> ValidLeaf(op, args, inQuantifier)
  {
    if |args| == LeafArity(op) {
      assert |LeafFlaws(op, args, inQuantifier)| >= |FieldFlaws(args[0], inQuantifier)|;
      if op.In? && args[1].List? {
        MemberFlawsMeaning(args[1].items);
      }
    }
  }

  /** The validator finds no flaw exactly in the valid trees. */
  lemma {:induction false} FlawsMeaning(n: Json, inQuantifier: bool)
    ensures Flaws(n, inQuantifier) == [] <==> Valid(n, inQuantifier)
    decreases n, 0
  {
    if HeadOp(n).Some? {
      OpFlawsMeaning(HeadOp(n).value, n.items[1..], inQuantifier);
    }
  }

  lemma {:induction false} OpFlawsMeaning(op: Op, args: seq<Json>, inQuantifier: bool)
    ensures OpFlaws(op, args, inQuantifier) == [] <==> ValidOp(op, args, inQuantifier)
    decreases args, 1
  {
    if op.And? || op.Or? {
      KidsFlawsMeaning(args, inQuantifier);
    } else if op.Not? {
      if |args| == 1 {
        FlawsMeaning(args[0], inQuantifier);
      }
    } else if op.All? || op.Any? {
      if |args| == 2 {
        FlawsMeaning(args[1], true);
        assert |OpFlaws(op, args, inQuantifier)| ==
               |FieldFlaws(args[0], inQuantifier)| + |Flaws(args[1], true)|;
      }
    } else {
      LeafFlawsMeaning(op, args, inQuantifier);
    }
  }

  lemma {:induction false} KidsFlawsMeaning(kids: seq<Json>, inQuantifier: bool)
    ensures KidsFlaws(kids, inQuantifier) == [] <==> ValidKids(kids, inQuantifier)
    decreases kids, 0
  {
    if kids != [] {
      FlawsMeaning(kids[0], inQuantifier);
      KidsFlawsMeaning(kids[1..], inQuantifier);
      assert |KidsFlaws(kids, inQuantifier)| ==
             |Flaws(kids[0], inQuantifier)| + |KidsFlaws(kids[1..], inQuantifier)|;
    }
  }

  // ----- where the validator itself breaks -----

  /** Looking a list or dict up in the set of comparison operators raises a TypeError, so
      a `count` with such a comparator is not reported but aborts the walk. */
  predicate Unhashable(v: Json) {
    v.List? || v.Dict?
  }

  predicate Aborts(n: Json)
    decreases n, 0
  {
    HeadOp(n).Some? && AbortsOp(HeadOp(n).value, n.items[1..])
  }

  predicate AbortsOp(op: Op, args: seq<Json>)
    decreases args, 1
  {
    if op.And? || op.Or? then AbortsKids(args)
    else if op.Not? then |args| == 1 && Aborts(args[0])
    else if op.All? || op.Any? then |args| == 2 && Aborts(args[1])
    else op.Count? && |args| == 3 && Unhashable(args[1])
  }

  predicate AbortsKids(kids: seq<Json>)
    decreases kids, 0
  {
    kids != [] && (Aborts(kids[0]) || AbortsKids(kids[1..]))
  }

  /** A valid tree is walked to the end. */
  lemma {:induction false} ValidIsWalked(n: Json, inQuantifier: bool)
    requires Valid(n, inQuantifier)
    ensures !Aborts(n)
    decreases n, 0
  {
    var op, args := HeadOp(n).value, n.items[1..];
    if op.And? || op.Or? {
      ValidKidsAreWalked(args, inQuantifier);
    } else if op.Not? {
      ValidIsWalked(args[0], inQuantifier);
    } else if op.All? || op.Any? {
      ValidIsWalked(args[1], true);
    }
  }

  lemma {:induction false} ValidKidsAreWalked(kids: seq<Json>, inQuantifier: bool)
    requires ValidKids(kids, inQuantifier)
    ensures !AbortsKids(kids)
    decreases kids, 0
  {
    if kids != [] {
      ValidIsWalked(kids[0], inQuantifier);
      ValidKidsAreWalked(kids[1..], inQuantifier);
    }
  }

  /** The nested `walk` with the error list it appends to; `aborted` is the TypeError. */
  class Validation {
    var errors: seq<Flaw>

    constructor ()
      ensures errors == []
    {
      errors := [];
    }

    method Walk(n: Json, inQuantifier: bool) returns (aborted: bool)
      modifies this
      ensures aborted <==> Aborts(n)
      ensures !aborted ==> errors == old(errors) + Flaws(n, inQuantifier)
      decreases n, 0
    {
      if !IsOpList(n) {
        errors := errors + [NotANode];
        return false;
      }
      var known := OpOf(n.items[0].text);
      if known.None? {
        errors := errors + [OutsideLanguage(n.items[0].text)];
        return false;
      }
      aborted := WalkOp(known.value, n.items[1..], inQuantifier);
    }

    method WalkOp(op: Op, args: seq<Json>, inQuantifier: bool) returns (aborted: bool)
      modifies this
      ensures aborted <==> AbortsOp(op, args)
      ensures !aborted ==> errors == old(errors) + OpFlaws(op, args, inQuantifier)
      decreases args, 1
    {
      if op.And? || op.Or? {
        aborted := WalkConnective(op, args, inQuantifier);
      } else if op.Not? {
        if |args| != 1 {
          errors := errors + [WrongArity(op)];
          aborted := false;
        } else {
          aborted := Walk(args[0], inQuantifier);
        }
      } else if op.All? || op.Any? {
        aborted := WalkQuantifier(op, args, inQuantifier);
      } else if op.Count? && |args| == 3 && Unhashable(args[1]) {
        errors := errors + FieldFlaws(args[0], inQuantifier);
        aborted := true;
      } else {
        errors := errors + LeafFlaws(op, args, inQuantifier);
        aborted := false;
      }
    }

    method WalkConnective(op: Op, kids: seq<Json>, inQuantifier: bool) returns (aborted: bool)
      requires op.And? || op.Or?
      modifies this
      ensures aborted <==> AbortsOp(op, kids)
      ensures !aborted ==> errors == old(errors) + OpFlaws(op, kids, inQuantifier)
      decreases kids, 0, 1
    {
      if |kids| < 1 {
        errors := errors + [WrongArity(op)];
      }
      aborted := WalkAll(kids, inQuantifier);
    }

    method WalkQuantifier(op: Op, args: seq<Json>, inQuantifier: bool) returns (aborted: bool)
      requires op.All? || op.Any?
      modifies this
      ensures aborted <==> AbortsOp(op, args)
      ensures !aborted ==> errors == old(errors) + OpFlaws(op, args, inQuantifier)
      decreases args, 0
    {
      if |args| != 2 {
        errors := errors + [WrongArity(op)];
        return false;
      }
      ConcatAssociates(errors, FieldFlaws(args[0], inQuantifier), Flaws(args[1], true));
      errors := errors + FieldFlaws(args[0], inQuantifier);
      aborted := Walk(args[1], true);
    }

    method WalkAll(kids: seq<Json>, inQuantifier: bool) returns (aborted: bool)
      modifies this
      ensures aborted <==> AbortsKids(kids)
      ensures !aborted ==> errors == old(errors) + KidsFlaws(kids, inQuantifier)
      decreases kids, 0, 0
    {
      assert kids[0..] == kids;
      for i := 0 to |kids|
        invariant AbortsKids(kids[i..]) == AbortsKids(kids)
        invariant errors + KidsFlaws(kids[i..], inQuantifier) == old(errors) + KidsFlaws(kids, inQuantifier)
      {
        assert kids[i..][1..] == kids[i + 1..];
        ConcatAssociates(errors, Flaws(kids[i], inQuantifier), KidsFlaws(kids[i + 1..], inQuantifier));
        aborted := Walk(kids[i], inQuantifier);
        if aborted {
          return;
        }
      }
      aborted := false;
    }
  }

  datatype Report = Report(errors: seq<Flaw>) | TypeErrorRaised

  /** `validate` on a syntax tree: it raises exactly on an unhashable comparator it reaches,
      and otherwise a tree passes exactly when it has no flaw. */
  method Validate(n: Json) returns (r: Report)
    ensures r.TypeErrorRaised? <==> Aborts(n)
    ensures r.Report? ==> r.errors == Flaws(n, false)
    ensures r == Report([]) <==> Valid(n, false)
  {
    var validation := new Validation();
    var aborted := validation.Walk(n, false);
    NothingInFront(Flaws(n, false));
    ReportMeaning(n, aborted, validation.errors);
    r := if aborted then TypeErrorRaised else Report(validation.errors);
  }

  lemma ReportMeaning(n: Json, aborted: bool, errors: seq<Flaw>)
    requires aborted <==> Aborts(n)
    requires !aborted ==> errors == Flaws(n, false)
    ensures !aborted && errors == [] <==> Valid(n, false)
  {
    FlawsMeaning(n, false);
    if Valid(n, false) {
      ValidIsWalked(n, false);
    }
  }

  // ----- validated predicates never fail structurally -----

  /** The value a field holds has the wrong type for the operator applied to it. */
  predicate FieldFault(e: EvalError) {
    match e
    case NotAList(op, _, kind) => (op.Count? || op.All? || op.Any?) && !kind.KList?
    case NotScalar(op, _, kind) => (op.Eq? || op.Ne?) && (kind.KList? || kind.KDict?)
    case NotNumber(op, _, kind, literal) =>
      IsOrdering(op) && !kind.KInt? && !kind.KFloat? && (literal.KInt? || literal.KFloat?)
    case _ => false
  }

  ghost predicate Sound(r: Outcome) {
    r.Verdict? || FieldFault(r.error)
  }

  /** A validated tree, in any scope whatsoever, yields a boolean or reports a field
      whose value has the wrong type: no structural, vocabulary or Python error. */
  lemma {:induction false} ValidNeverFailsStructurally(n: Json, inQuantifier: bool, scope: Json)
    requires Valid(n, inQuantifier)
    ensures Sound(Eval(n, scope))
    decreases n, 0
  {
    ValidOpIsSound(HeadOp(n).value, n.items[1..], inQuantifier, scope);
  }

  lemma {:induction false} ValidOpIsSound(op: Op, args: seq<Json>, inQuantifier: bool, scope: Json)
    requires ValidOp(op, args, inQuantifier)
    ensures Sound(EvalOp(op, args, scope))
    decreases args, 1
  {
    if op.And? || op.Or? {
      ValidKidsAreSound(args, inQuantifier, scope);
    } else if op.Not? {
      ValidNeverFailsStructurally(args[0], inQuantifier, scope);
    } else if op.All? || op.Any? {
      var found := Lookup(scope, args[0]);
      if found.Value? && found.v.List? {
        ValidElementsAreSound(args[1], found.v.items);
      }
    } else {
      ValidLeafIsSound(op, args, inQuantifier, scope);
    }
  }

  lemma ValidLeafIsSound(op: Op, args: seq<Json>, inQuantifier: bool, scope: Json)
    requires IsLeaf(op) && ValidLeaf(op, args, inQuantifier)
    ensures Sound(LeafOutcome(EvalLeaf(op, args, scope)))
  {
  }

  lemma {:induction false} ValidKidsAreSound(kids: seq<Json>, inQuantifier: bool, scope: Json)
    requires ValidKids(kids, inQuantifier)
    ensures Sound(Conj(kids, scope)) && Sound(Disj(kids, scope))
    decreases kids, 0
  {
    if kids != [] {
      ValidNeverFailsStructurally(kids[0], inQuantifier, scope);
      ValidKidsAreSound(kids[1..], inQuantifier, scope);
    }
  }

  lemma {:induction false} ValidElementsAreSound(child: Json, elems: seq<Json>)
    requires Valid(child, true)
    ensures Sound(EveryOf(child, elems)) && Sound(SomeOf(child, elems))
    decreases child, 1, |elems|
  {
    if elems != [] {
      ValidNeverFailsStructurally(child, true, elems[0]);
      ValidElementsAreSound(child, elems[1..]);
    }
  }
}
