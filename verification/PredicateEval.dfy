/** The level-0 interpreter: what a predicate means in a state, and the audit trail
    that evaluating it leaves. */
module PredicateEval {
  import opened Common
  import opened JsonValues
  import opened PredicateAst
  import opened PredicateMeaning
  import Text

  datatype EvalError =
    | StateNotDict
    | BadNode
    | UnknownOp(name: string)
    | BadArity(op: Op)
    | BadCmp
    | BadSet
    | NotAList(op: Op, field: string, kind: Kind)
    | NotScalar(op: Op, field: string, kind: Kind)
    | NotNumber(op: Op, field: string, kind: Kind, literal: Kind)
    | HostError // a TypeError or AttributeError of Python itself

  datatype Outcome = Verdict(value: bool) | Fail(error: EvalError)

  // ----- fields -----

  datatype Found = Value(v: Json) | Missing | BadPath

  function Follow(cur: Json, parts: seq<string>): (found: Found)
    ensures !found.BadPath?
  {
    if parts == [] then Value(cur)
    else if cur.Dict? && parts[0] in cur.entries then Follow(cur.entries[parts[0]], parts[1..])
    else Missing
  }

  /** `_resolve`: `.` is the scope itself, anything else a path through nested dicts. */
  function Resolve(scope: Json, path: string): Found {
    if path == "." then Value(scope) else Follow(scope, Text.Split(path, '.'))
  }

  function Lookup(scope: Json, field: Json): Found {
    if field.Str? then Resolve(scope, field.text) else BadPath
  }

  // ----- leaves -----

  /** A leaf finds its field absent, judges it, or breaks on it. */
  datatype LeafResult =
    | Absent(field: string)
    | Judged(field: string, value: bool)
    | Broken(error: EvalError)

  function Compare(op: Op, a: real, b: real): bool
    requires IsComparison(op)
  {
    match op
    case Eq => a == b
    case Ne => a != b
    case Lt => a < b
    case Le => a <= b
    case Gt => a > b
    case Ge => a >= b
  }

  function JudgeCount(field: string, cmp: Json, bound: Json, v: Json): LeafResult {
    if !v.List? then Broken(NotAList(Count, field, KindOf(v)))
    else if cmp.List? || cmp.Dict? then Broken(HostError)
    else if !cmp.Str? || OpOf(cmp.text).None? || !IsComparison(OpOf(cmp.text).value) then Broken(BadCmp)
    else if !IsNumeric(bound) then Broken(HostError)
    else Judged(field, Compare(OpOf(cmp.text).value, |v.items| as real, Amount(bound)))
  }

  predicate IsMember(v: Json, members: seq<Json>) {
    exists i :: 0 <= i < |members| && PyEq(v, members[i])
  }

  function JudgeIn(field: string, members: Json, v: Json): LeafResult {
    match members
    case List(ms) => Judged(field, IsMember(v, ms))
    case Str(s) => if v.Str? then Judged(field, Text.IsSubstring(v.text, s)) else Broken(BadSet)
    case Dict(m) => if v.List? || v.Dict? then Broken(BadSet) else Judged(field, v.Str? && v.text in m)
    case _ => Broken(BadSet)
  }

  function JudgeComparison(op: Op, field: string, literal: Json, v: Json): LeafResult
    requires IsComparison(op)
  {
    if IsOrdering(op) then
      if !IsNumber(v) || !IsNumber(literal) then Broken(NotNumber(op, field, KindOf(v), KindOf(literal)))
      else Judged(field, Compare(op, Amount(v), Amount(literal)))
    else if v.List? || v.Dict? then Broken(NotScalar(op, field, KindOf(v)))
    else Judged(field, StrictEq(v, literal) == op.Eq?)
  }

  predicate IsLeaf(op: Op) {
    op.Exists? || op.Count? || op.In? || IsComparison(op)
  }

  function LeafArity(op: Op): nat
    requires IsLeaf(op)
  {
    if op.Exists? then 1 else if op.Count? then 3 else 2
  }

  function EvalLeaf(op: Op, args: seq<Json>, scope: Json): LeafResult
    requires IsLeaf(op)
  {
    if |args| != LeafArity(op) then Broken(BadArity(op))
    else
      match Lookup(scope, args[0])
      case BadPath => Broken(HostError)
      case Missing => Absent(args[0].text)
      case Value(v) =>
        match op
        case Exists => Judged(args[0].text, true)
        case Count => JudgeCount(args[0].text, args[1], args[2], v)
        case In => JudgeIn(args[0].text, args[1], v)
        case _ => JudgeComparison(op, args[0].text, args[1], v)
  }

  function LeafOutcome(r: LeafResult): Outcome {
    match r
    case Absent(_) => Verdict(false)
    case Judged(_, b) => Verdict(b)
    case Broken(e) => Fail(e)
  }

  // ----- meaning -----

  /** The meaning of a node in a scope.  Missing fields make a leaf false; errors
      propagate from the first sub-predicate that is reached and breaks. */
  function Eval(n: Json, scope: Json): Outcome
    decreases n, 0
  {
    if !IsOpList(n) then Fail(BadNode)
    else
      match OpOf(n.items[0].text)
      case None => Fail(UnknownOp(n.items[0].text))
      case Some(op) => EvalOp(op, n.items[1..], scope)
  }

  function EvalOp(op: Op, args: seq<Json>, scope: Json): Outcome
    decreases args, 1
  {
    match op
    case And => if args == [] then Fail(BadArity(op)) else Conj(args, scope)
    case Or => if args == [] then Fail(BadArity(op)) else Disj(args, scope)
    case Not => if |args| != 1 then Fail(BadArity(op)) else Negated(Eval(args[0], scope))
    case All =>
      if |args| != 2 then Fail(BadArity(op))
      else
        (match Lookup(scope, args[0])
         case BadPath => Fail(HostError)
         case Missing => Verdict(false)
         case Value(v) =>
           if v.List? then EveryOf(args[1], v.items)
           else Fail(NotAList(op, args[0].text, KindOf(v))))
    case Any =>
      if |args| != 2 then Fail(BadArity(op))
      else
        (match Lookup(scope, args[0])
         case BadPath => Fail(HostError)
         case Missing => Verdict(false)
         case Value(v) =>
           if v.List? then SomeOf(args[1], v.items)
           else Fail(NotAList(op, args[0].text, KindOf(v))))
    case _ => LeafOutcome(EvalLeaf(op, args, scope))
  }

  function Negated(r: Outcome): Outcome {
    match r
    case Verdict(b) => Verdict(!b)
    case Fail(_) => r
  }

  function Conj(kids: seq<Json>, scope: Json): Outcome
    decreases kids, 0
  {
    if kids == [] then Verdict(true)
    else
      var r := Eval(kids[0], scope);
      if r == Verdict(true) then Conj(kids[1..], scope) else r
  }

  function Disj(kids: seq<Json>, scope: Json): Outcome
    decreases kids, 0
  {
    if kids == [] then Verdict(false)
    else
      var r := Eval(kids[0], scope);
      if r == Verdict(false) then Disj(kids[1..], scope) else r
  }

  function EveryOf(child: Json, elems: seq<Json>): Outcome
    decreases child, 1, |elems|
  {
    if elems == [] then Verdict(true)
    else
      var r := Eval(child, elems[0]);
      if r == Verdict(true) then EveryOf(child, elems[1..]) else r
  }

  function SomeOf(child: Json, elems: seq<Json>): Outcome
    decreases child, 1, |elems|
  {
    if elems == [] then Verdict(false)
    else
      var r := Eval(child, elems[0]);
      if r == Verdict(false) then SomeOf(child, elems[1..]) else r
  }

  // ----- the verdict is the truth -----

  lemma {:induction false} FollowLeads(cur: Json, names: seq<string>, v: Json)
    ensures Leads(cur, names, v) <==> Follow(cur, names) == Value(v)
    decreases |names|
  {
    if names != [] && cur.Dict? && names[0] in cur.entries {
      FollowLeads(cur.entries[names[0]], names[1..], v);
    }
  }

  /** Looking a field up finds the value it reads, and nothing exactly when it reads none. */
  lemma LookupReads(scope: Json, field: Json, v: Json)
    ensures Reads(scope, field, v) <==> Lookup(scope, field) == Value(v)
  {
    if field.Str? && field.text != "." {
      var parts := Text.Split(field.text, '.');
      Text.SplitJoins(field.text, '.');
      assert Spells(parts, field.text);
      FollowLeads(scope, parts, v);
      if names :| Spells(names, field.text) && Leads(scope, names, v) {
        Text.SplitOfJoin(names, '.');
      }
    }
  }

  lemma CompareRelates(op: Op, a: real, b: real)
    requires IsComparison(op)
    ensures Compare(op, a, b) <==> Related(OpText(op), a, b)
  {
  }

  lemma ComparisonMeaning(op: Op, field: string, literal: Json, v: Json)
    requires IsComparison(op) && JudgeComparison(op, field, literal, v).Judged?
    ensures JudgeComparison(op, field, literal, v).value <==> Bears(OpText(op), v, literal)
  {
    PyEqIffSamePlain(v, literal);
    if IsOrdering(op) {
      AmountIsPlain(v);
      AmountIsPlain(literal);
      CompareRelates(op, Amount(v), Amount(literal));
    }
  }

  lemma CountMeaning(field: string, cmp: Json, bound: Json, v: Json)
    requires JudgeCount(field, cmp, bound, v).Judged?
    ensures JudgeCount(field, cmp, bound, v).value
            <==> v.List? && cmp.Str? && Plain(bound).Float?
                 && Related(cmp.text, |v.items| as real, Plain(bound).quantity)
  {
    AmountIsPlain(bound);
    OpOfSound(cmp.text);
    CompareRelates(OpOf(cmp.text).value, |v.items| as real, Amount(bound));
  }

  lemma MembershipMeaning(field: string, members: Json, v: Json)
    requires JudgeIn(field, members, v).Judged?
    ensures JudgeIn(field, members, v).value <==> Belongs(v, members)
  {
    if members.List? {
      forall i | 0 <= i < |members.items| ensures PyEq(v, members.items[i]) <==> Plain(members.items[i]) == Plain(v) {
        PyEqIffSamePlain(v, members.items[i]);
      }
    }
  }

  lemma LeafMeaning(op: Op, args: seq<Json>, scope: Json)
    requires IsLeaf(op) && LeafOutcome(EvalLeaf(op, args, scope)).Verdict?
    ensures LeafOutcome(EvalLeaf(op, args, scope)).value <==> LeafHolds(OpText(op), args, scope)
  {
    var found := Lookup(scope, args[0]);
    forall v ensures Reads(scope, args[0], v) <==> found == Value(v) {
      LookupReads(scope, args[0], v);
    }
    if found.Value? {
      AskedOf(op, args, args[0].text, found.v);
    }
  }

  lemma AskedOf(op: Op, args: seq<Json>, field: string, v: Json)
    requires IsLeaf(op) && |args| == LeafArity(op) && args[0] == Str(field)
    requires op.Count? ==> JudgeCount(field, args[1], args[2], v).Judged?
    requires op.In? ==> JudgeIn(field, args[1], v).Judged?
    requires IsComparison(op) ==> JudgeComparison(op, field, args[1], v).Judged?
    ensures Asks(OpText(op), args, v)
            <==> if op.Exists? then true
                 else if op.Count? then JudgeCount(field, args[1], args[2], v).value
                 else if op.In? then JudgeIn(field, args[1], v).value
                 else JudgeComparison(op, field, args[1], v).value
  {
    if op.Count? {
      CountMeaning(field, args[1], args[2], v);
    } else if op.In? {
      MembershipMeaning(field, args[1], v);
    } else if IsComparison(op) {
      ComparisonMeaning(op, field, args[1], v);
    }
  }

  /** Whenever the interpreter reaches a verdict on a tree, valid or not, the verdict is what
      the tree says about the scope. */
  lemma {:induction false} VerdictIsTruth(n: Json, scope: Json)
    requires Eval(n, scope).Verdict?
    ensures Eval(n, scope).value <==> Satisfies(n, scope)
    decreases n, 1
  {
    var op := HeadOp(n).value;
    if op.And? {
      AndMeaning(n, scope);
    } else if op.Or? {
      OrMeaning(n, scope);
    } else if op.Not? {
      NotMeaning(n, scope);
    } else if op.All? || op.Any? {
      QuantifierMeaning(n, scope);
    } else {
      LeafNodeMeaning(n, scope);
    }
  }

  lemma {:induction false} NotMeaning(n: Json, scope: Json)
    requires HeadOp(n) == Some(Not) && Eval(n, scope).Verdict?
    ensures Eval(n, scope).value <==> Satisfies(n, scope)
    decreases n, 0
  {
    OpOfSound(n.items[0].text);
    VerdictIsTruth(n.items[1], scope);
  }

  lemma LeafIsNoConnective(op: Op)
    requires IsLeaf(op)
    ensures var name := OpText(op);
            name != "and" && name != "or" && name != "not" && name != "all" && name != "any"
  {
  }

  lemma {:induction false} LeafNodeMeaning(n: Json, scope: Json)
    requires HeadOp(n).Some? && IsLeaf(HeadOp(n).value) && Eval(n, scope).Verdict?
    ensures Eval(n, scope).value <==> Satisfies(n, scope)
  {
    var op := HeadOp(n).value;
    OpOfSound(n.items[0].text);
    LeafIsNoConnective(op);
    LeafMeaning(op, n.items[1..], scope);
  }

  lemma {:induction false} AndMeaning(n: Json, scope: Json)
    requires HeadOp(n) == Some(And) && Eval(n, scope).Verdict?
    ensures Eval(n, scope).value <==> Satisfies(n, scope)
    decreases n, 0
  {
    var kids := n.items[1..];
    OpOfSound(n.items[0].text);
    assert forall i :: 0 <= i < |kids| ==> kids[i] == n.items[i + 1];
    assert forall i :: 0 < i < |n.items| ==> n.items[i] == kids[i - 1];
    ConjMeaning(kids, scope);
  }

  lemma {:induction false} OrMeaning(n: Json, scope: Json)
    requires HeadOp(n) == Some(Or) && Eval(n, scope).Verdict?
    ensures Eval(n, scope).value <==> Satisfies(n, scope)
    decreases n, 0
  {
    var kids := n.items[1..];
    OpOfSound(n.items[0].text);
    assert forall i :: 0 <= i < |kids| ==> kids[i] == n.items[i + 1];
    assert forall i :: 0 < i < |n.items| ==> n.items[i] == kids[i - 1];
    DisjMeaning(kids, scope);
  }

  lemma {:induction false} ConjMeaning(kids: seq<Json>, scope: Json)
    requires Conj(kids, scope).Verdict?
    ensures Conj(kids, scope).value <==> forall i :: 0 <= i < |kids| ==> Satisfies(kids[i], scope)
    decreases kids, 0
  {
    if kids != [] {
      VerdictIsTruth(kids[0], scope);
      if Eval(kids[0], scope) == Verdict(true) {
        ConjMeaning(kids[1..], scope);
        assert forall i :: 0 < i < |kids| ==> kids[i] == kids[1..][i - 1];
      }
    }
  }

  lemma {:induction false} DisjMeaning(kids: seq<Json>, scope: Json)
    requires Disj(kids, scope).Verdict?
    ensures Disj(kids, scope).value <==> exists i :: 0 <= i < |kids| && Satisfies(kids[i], scope)
    decreases kids, 0
  {
    if kids != [] {
      VerdictIsTruth(kids[0], scope);
      if Eval(kids[0], scope) == Verdict(false) {
        DisjMeaning(kids[1..], scope);
        assert forall i :: 0 < i < |kids| ==> kids[i] == kids[1..][i - 1];
      }
    }
  }

  lemma {:induction false} QuantifierMeaning(n: Json, scope: Json)
    requires HeadOp(n) == Some(All) || HeadOp(n) == Some(Any)
    requires Eval(n, scope).Verdict?
    ensures Eval(n, scope).value <==> Satisfies(n, scope)
    decreases n, 0
  {
    var found := Lookup(scope, n.items[1]);
    OpOfSound(n.items[0].text);
    forall v ensures Reads(scope, n.items[1], v) <==> found == Value(v) {
      LookupReads(scope, n.items[1], v);
    }
    if found.Value? {
      if HeadOp(n) == Some(All) {
        EveryMeaning(n.items[2], found.v.items);
      } else {
        SomeMeaning(n.items[2], found.v.items);
      }
    }
  }

  lemma {:induction false} EveryMeaning(child: Json, elems: seq<Json>)
    requires EveryOf(child, elems).Verdict?
    ensures EveryOf(child, elems).value <==> forall e :: e in elems ==> Satisfies(child, e)
    decreases child, 2, |elems|
  {
    if elems != [] {
      VerdictIsTruth(child, elems[0]);
      if Eval(child, elems[0]) == Verdict(true) {
        EveryMeaning(child, elems[1..]);
        assert forall e :: e in elems <==> e == elems[0] || e in elems[1..];
      }
    }
  }

  lemma {:induction false} SomeMeaning(child: Json, elems: seq<Json>)
    requires SomeOf(child, elems).Verdict?
    ensures SomeOf(child, elems).value <==> exists e :: e in elems && Satisfies(child, e)
    decreases child, 2, |elems|
  {
    if elems != [] {
      VerdictIsTruth(child, elems[0]);
      if Eval(child, elems[0]) == Verdict(false) {
        SomeMeaning(child, elems[1..]);
        assert forall e :: e in elems <==> e == elems[0] || e in elems[1..];
      }
    }
  }

  // ----- audit trail -----

  datatype Step = Step(op: Op, path: string, result: bool, missing: bool)

  function LeafTrace(op: Op, r: LeafResult): seq<Step> {
    match r
    case Absent(f) => [Step(op, f, false, true)]
    case Judged(f, b) => [Step(op, f, b, false)]
    case Broken(_) => []
  }

  function Trace(n: Json, scope: Json): seq<Step>
    decreases n, 0
  {
    if HeadOp(n).None? then [] else TraceOp(HeadOp(n).value, n.items[1..], scope)
  }

  /** The step that records a finished sub-predicate; nothing is recorded after an error. */
  function Mark(op: Op, path: string, r: Outcome): seq<Step> {
    if r.Verdict? then [Step(op, path, r.value, false)] else []
  }

  function TraceOp(op: Op, args: seq<Json>, scope: Json): seq<Step>
    decreases args, 1
  {
    match op
    case And => ConjTrace(args, scope)
    case Or => DisjTrace(args, scope)
    case Not =>
      if |args| != 1 then []
      else Trace(args[0], scope) + Mark(Not, "", Negated(Eval(args[0], scope)))
    case All =>
      if |args| != 2 then []
      else
        (match Lookup(scope, args[0])
         case BadPath => []
         case Missing => [Step(op, args[0].text, false, true)]
         case Value(v) => if v.List? then EveryTrace(args[0].text, args[1], v.items) else [])
    case Any =>
      if |args| != 2 then []
      else
        (match Lookup(scope, args[0])
         case BadPath => []
         case Missing => [Step(op, args[0].text, false, true)]
         case Value(v) => if v.List? then SomeTrace(args[0].text, args[1], v.items) else [])
    case _ => LeafTrace(op, EvalLeaf(op, args, scope))
  }

  /** An operand of a connective: its own steps, then the connective's. */
  function KidTrace(op: Op, kid: Json, scope: Json): seq<Step>
    decreases kid, 2
  {
    Trace(kid, scope) + Mark(op, "", Eval(kid, scope))
  }

  function ConjTrace(kids: seq<Json>, scope: Json): seq<Step>
    decreases kids, 0
  {
    if kids == [] then []
    else
      KidTrace(And, kids[0], scope)
      + if Eval(kids[0], scope) == Verdict(true) then ConjTrace(kids[1..], scope) else []
  }

  function DisjTrace(kids: seq<Json>, scope: Json): seq<Step>
    decreases kids, 0
  {
    if kids == [] then []
    else
      KidTrace(Or, kids[0], scope)
      + if Eval(kids[0], scope) == Verdict(false) then DisjTrace(kids[1..], scope) else []
  }

  function EveryTrace(path: string, child: Json, elems: seq<Json>): seq<Step>
    decreases child, 1, |elems|
  {
    if elems == [] then [Step(All, path, true, false)]
    else
      var r := Eval(child, elems[0]);
      Trace(child, elems[0])
      + if r == Verdict(true) then EveryTrace(path, child, elems[1..]) else Mark(All, path, r)
  }

  function SomeTrace(path: string, child: Json, elems: seq<Json>): seq<Step>
    decreases child, 1, |elems|
  {
    if elems == [] then [Step(Any, path, false, false)]
    else
      var r := Eval(child, elems[0]);
      Trace(child, elems[0])
      + if r == Verdict(false) then SomeTrace(path, child, elems[1..]) else Mark(Any, path, r)
  }

  /** The trail is not empty and its last step shows the verdict. */
  ghost predicate EndsIn(steps: seq<Step>, b: bool) {
    |steps| > 0 && steps[|steps| - 1].result == b
  }

  lemma {:induction false} TraceEndsInVerdict(n: Json, scope: Json)
    requires Eval(n, scope).Verdict?
    ensures EndsIn(Trace(n, scope), Eval(n, scope).value)
  {
    OpTraceEnds(HeadOp(n).value, n.items[1..], scope);
  }

  lemma {:induction false} OpTraceEnds(op: Op, args: seq<Json>, scope: Json)
    requires EvalOp(op, args, scope).Verdict?
    ensures EndsIn(TraceOp(op, args, scope), EvalOp(op, args, scope).value)
  {
    match op
    case And => ConjTraceEnds(args, scope);
    case Or => DisjTraceEnds(args, scope);
    case All =>
      var found := Lookup(scope, args[0]);
      if found.Value? {
        EveryTraceEnds(args[0].text, args[1], found.v.items);
      }
    case Any =>
      var found := Lookup(scope, args[0]);
      if found.Value? {
        SomeTraceEnds(args[0].text, args[1], found.v.items);
      }
    case _ =>
  }

  lemma {:induction false} ConjTraceEnds(kids: seq<Json>, scope: Json)
    requires kids != [] && Conj(kids, scope).Verdict?
    ensures EndsIn(ConjTrace(kids, scope), Conj(kids, scope).value)
  {
    if Eval(kids[0], scope) == Verdict(true) && kids[1..] != [] {
      ConjTraceEnds(kids[1..], scope);
    }
  }

  lemma {:induction false} DisjTraceEnds(kids: seq<Json>, scope: Json)
    requires kids != [] && Disj(kids, scope).Verdict?
    ensures EndsIn(DisjTrace(kids, scope), Disj(kids, scope).value)
  {
    if Eval(kids[0], scope) == Verdict(false) && kids[1..] != [] {
      DisjTraceEnds(kids[1..], scope);
    }
  }

  lemma {:induction false} EveryTraceEnds(path: string, child: Json, elems: seq<Json>)
    requires EveryOf(child, elems).Verdict?
    ensures EndsIn(EveryTrace(path, child, elems), EveryOf(child, elems).value)
    decreases |elems|
  {
    if elems != [] && Eval(child, elems[0]) == Verdict(true) {
      EveryTraceEnds(path, child, elems[1..]);
    }
  }

  lemma {:induction false} SomeTraceEnds(path: string, child: Json, elems: seq<Json>)
    requires SomeOf(child, elems).Verdict?
    ensures EndsIn(SomeTrace(path, child, elems), SomeOf(child, elems).value)
    decreases |elems|
  {
    if elems != [] && Eval(child, elems[0]) == Verdict(false) {
      SomeTraceEnds(path, child, elems[1..]);
    }
  }

  // ----- the evaluator -----

  /** The recursive evaluator together with the list of steps it appends to. */
  class Evaluation {
    var steps: seq<Step>

    constructor ()
      ensures steps == []
    {
      steps := [];
    }

    method Append(op: Op, path: string, result: bool, missing: bool)
      modifies this
      ensures steps == old(steps) + [Step(op, path, result, missing)]
    {
      steps := steps + [Step(op, path, result, missing)];
    }

    method EvalNode(n: Json, scope: Json) returns (r: Outcome)
      modifies this
      ensures r == Eval(n, scope)
      ensures steps == old(steps) + Trace(n, scope)
      decreases n, 1
    {
      if !IsOpList(n) {
        return Fail(BadNode);
      }
      var known := OpOf(n.items[0].text);
      if known.None? {
        return Fail(UnknownOp(n.items[0].text));
      }
      r := EvalKnown(known.value, n.items[1..], scope);
    }

    method EvalKnown(op: Op, args: seq<Json>, scope: Json) returns (r: Outcome)
      modifies this
      ensures r == EvalOp(op, args, scope)
      ensures steps == old(steps) + TraceOp(op, args, scope)
      decreases args, 1
    {
      if op.And? || op.Or? {
        if |args| == 0 {
          return Fail(BadArity(op));
        }
        if op.And? {
          r := EvalAnd(args, scope);
        } else {
          r := EvalOr(args, scope);
        }
      } else if op.Not? {
        if |args| != 1 {
          return Fail(BadArity(op));
        }
        r := EvalNot(args[0], scope);
      } else if op.All? || op.Any? {
        r := EvalQuantifier(op, args, scope);
      } else {
        var leaf := EvalLeaf(op, args, scope);
        if leaf.Absent? {
          Append(op, leaf.field, false, true);
        } else if leaf.Judged? {
          Append(op, leaf.field, leaf.value, false);
        }
        r := LeafOutcome(leaf);
      }
    }

    method EvalNot(child: Json, scope: Json) returns (r: Outcome)
      modifies this
      ensures r == Negated(Eval(child, scope))
      ensures steps == old(steps) + (Trace(child, scope) + Mark(Not, "", r))
      decreases child, 2
    {
      r := EvalNode(child, scope);
      if r.Verdict? {
        Append(Not, "", !r.value, false);
        r := Verdict(!r.value);
      }
    }

    method EvalKid(op: Op, kid: Json, scope: Json) returns (r: Outcome)
      modifies this
      ensures r == Eval(kid, scope)
      ensures steps == old(steps) + KidTrace(op, kid, scope)
      decreases kid, 2
    {
      r := EvalNode(kid, scope);
      if r.Verdict? {
        Append(op, "", r.value, false);
      }
    }

    method EvalAnd(kids: seq<Json>, scope: Json) returns (r: Outcome)
      modifies this
      ensures r == Conj(kids, scope)
      ensures steps == old(steps) + ConjTrace(kids, scope)
      decreases kids, 0
    {
      for i := 0 to |kids|
        invariant Conj(kids, scope) == Conj(kids[i..], scope)
        invariant steps + ConjTrace(kids[i..], scope) == old(steps) + ConjTrace(kids, scope)
      {
        assert kids[i..][1..] == kids[i + 1..];
        ConcatAssociates(steps, KidTrace(And, kids[i], scope), ConjTrace(kids[i + 1..], scope));
        r := EvalKid(And, kids[i], scope);
        if r.Fail? || !r.value {
          return;
        }
      }
      r := Verdict(true);
    }

    method EvalOr(kids: seq<Json>, scope: Json) returns (r: Outcome)
      modifies this
      ensures r == Disj(kids, scope)
      ensures steps == old(steps) + DisjTrace(kids, scope)
      decreases kids, 0
    {
      for i := 0 to |kids|
        invariant Disj(kids, scope) == Disj(kids[i..], scope)
        invariant steps + DisjTrace(kids[i..], scope) == old(steps) + DisjTrace(kids, scope)
      {
        assert kids[i..][1..] == kids[i + 1..];
        ConcatAssociates(steps, KidTrace(Or, kids[i], scope), DisjTrace(kids[i + 1..], scope));
        r := EvalKid(Or, kids[i], scope);
        if r.Fail? || r.value {
          return;
        }
      }
      r := Verdict(false);
    }

    method EvalQuantifier(op: Op, args: seq<Json>, scope: Json) returns (r: Outcome)
      requires op.All? || op.Any?
      modifies this
      ensures r == EvalOp(op, args, scope)
      ensures steps == old(steps) + TraceOp(op, args, scope)
      decreases args, 0
    {
      if |args| != 2 {
        return Fail(BadArity(op));
      }
      var found := Lookup(scope, args[0]);
      if found.BadPath? {
        return Fail(HostError);
      }
      var path := args[0].text;
      if found.Missing? {
        Append(op, path, false, true);
        return Verdict(false);
      }
      if !found.v.List? {
        return Fail(NotAList(op, path, KindOf(found.v)));
      }
      if op.All? {
        r := EvalAll(path, args[1], found.v.items);
      } else {
        r := EvalAny(path, args[1], found.v.items);
      }
    }

    method EvalAll(path: string, child: Json, elems: seq<Json>) returns (r: Outcome)
      modifies this
      ensures r == EveryOf(child, elems)
      ensures steps == old(steps) + EveryTrace(path, child, elems)
      decreases child, 2
    {
      for i := 0 to |elems|
        invariant EveryOf(child, elems) == EveryOf(child, elems[i..])
        invariant steps + EveryTrace(path, child, elems[i..]) == old(steps) + EveryTrace(path, child, elems)
      {
        r := EvalNode(child, elems[i]);
        if r.Fail? {
          return;
        }
        if !r.value {
          Append(All, path, false, false);
          return;
        }
        assert elems[i..][1..] == elems[i + 1..];
      }
      Append(All, path, true, false);
      r := Verdict(true);
    }

    method EvalAny(path: string, child: Json, elems: seq<Json>) returns (r: Outcome)
      modifies this
      ensures r == SomeOf(child, elems)
      ensures steps == old(steps) + SomeTrace(path, child, elems)
      decreases child, 2
    {
      for i := 0 to |elems|
        invariant SomeOf(child, elems) == SomeOf(child, elems[i..])
        invariant steps + SomeTrace(path, child, elems[i..]) == old(steps) + SomeTrace(path, child, elems)
      {
        r := EvalNode(child, elems[i]);
        if r.Fail? {
          return;
        }
        if r.value {
          Append(Any, path, true, false);
          return;
        }
        assert elems[i..][1..] == elems[i + 1..];
      }
      Append(Any, path, false, false);
      r := Verdict(false);
    }
  }

  function FirstFailure(steps: seq<Step>): (first: Option<Step>)
    ensures first.None? <==> forall s :: s in steps ==> s.result
    ensures first.Some? ==> first.value in steps && !first.value.result
  {
    if steps == [] then None
    else if !steps[0].result then Some(steps[0])
    else FirstFailure(steps[1..])
  }

  /** `evaluate_traced`: on a verdict the trail ends in that verdict, so a false verdict
      always has a first failing step to show. */
  method EvaluateTraced(n: Json, state: Json) returns (r: Outcome, steps: seq<Step>)
    ensures !state.Dict? ==> r == Fail(StateNotDict)
    ensures state.Dict? ==> r == Eval(n, state) && steps == Trace(n, state)
    ensures r.Verdict? ==> |steps| > 0 && steps[|steps| - 1].result == r.value
    ensures r == Verdict(false) ==> FirstFailure(steps).Some?
    ensures r.Verdict? ==> (r.value <==> Satisfies(n, state))
  {
    if !state.Dict? {
      return Fail(StateNotDict), [];
    }
    var evaluation := new Evaluation();
    r := evaluation.EvalNode(n, state);
    steps := evaluation.steps;
    if r.Verdict? {
      VerdictIsTruth(n, state);
      TraceEndsInVerdict(n, state);
      assert steps[|steps| - 1] in steps;
    }
  }
}
