/** The conditions of an authority grant over the facts of a request: three-valued, so that
    what cannot be judged never passes. */
module Conditions {
  import opened JsonValues
  import Text

  datatype ConditionOp = Eq | Ne | In | NotIn | Gt | Gte | Lt | Lte | Exists
  datatype Truth = True | False | Unknown
  datatype Condition = Condition(field: string, op: ConditionOp, value: Json)

  type Facts = map<string, Json>

  function Truthy(v: Json): bool {
    match v
    case Null => false
    case Bool(b) => b
    case Int(i) => i != 0
    case Float(r) => r != 0.0
    case Str(s) => s != ""
    case List(xs) => xs != []
    case Dict(m) => m != map[]
  }

  /** Three-way comparison of values Python can order; lists compare at the first
      position where they differ. */
  datatype Order = Before | Same | After | Incomparable

  function Compared(a: Json, b: Json): Order
    decreases a
  {
    if IsNumeric(a) && IsNumeric(b) then
      if Amount(a) < Amount(b) then Before else if Amount(a) == Amount(b) then Same else After
    else if a.Str? && b.Str? then
      if a.text == b.text then Same else if Text.Less(a.text, b.text) then Before else After
    else if a.List? && b.List? then ComparedLists(a.items, b.items)
    else Incomparable
  }

  function ComparedLists(xs: seq<Json>, ys: seq<Json>): Order
    decreases xs
  {
    if xs == [] then (if ys == [] then Same else Before)
    else if ys == [] then After
    else if PyEq(xs[0], ys[0]) then ComparedLists(xs[1..], ys[1..])
    else Compared(xs[0], ys[0])
  }

  function Judge(b: bool): Truth {
    if b then True else False
  }

  function Holds(c: Condition, facts: Facts): Truth {
    var present := c.field in facts;
    if c.op.Exists? then Judge(present == (c.value.Null? || Truthy(c.value)))
    else if !present then Unknown
    else
      var v := facts[c.field];
      match c.op
      case Eq => Judge(PyEq(v, c.value))
      case Ne => Judge(!PyEq(v, c.value))
      case In => if c.value.List? then Judge(Contains(c.value.items, v)) else Unknown
      case NotIn => if c.value.List? then Judge(!Contains(c.value.items, v)) else Unknown
      case _ =>
        var order := Compared(v, c.value);
        if order.Incomparable? then Unknown
        else Judge(match c.op
                   case Gt => order.After?
                   case Gte => !order.Before?
                   case Lt => order.Before?
                   case _ => !order.After?)
  }

  predicate Contains(items: seq<Json>, v: Json) {
    exists i :: 0 <= i < |items| && PyEq(v, items[i])
  }

  // ----- what the conditions say -----

  /** The lists are equal, element by element, up to `k`. */
  ghost predicate AgreeUpTo(xs: seq<Json>, ys: seq<Json>, k: nat) {
    k <= |xs| && k <= |ys| && forall i :: 0 <= i < k ==> Plain(xs[i]) == Plain(ys[i])
  }

  /** The first list ends first, or has the smaller element where they part. */
  ghost predicate ListBelow(xs: seq<Json>, ys: seq<Json>)
    decreases xs
  {
    exists k: nat :: AgreeUpTo(xs, ys, k) && k < |ys|
                     && (k == |xs| || (Plain(xs[k]) != Plain(ys[k]) && Below(xs[k], ys[k])))
  }

  /** Numbers by size, texts by the first character that differs, lists by the first element. */
  ghost predicate Below(a: Json, b: Json)
    decreases a
  {
    if Plain(a).Float? && Plain(b).Float? then Plain(a).quantity < Plain(b).quantity
    else if a.Str? && b.Str? then exists k: nat :: Text.PartsAt(a.text, b.text, k)
    else a.List? && b.List? && ListBelow(a.items, b.items)
  }

  /** Equal values of a kind that has an order. */
  ghost predicate Level(a: Json, b: Json) {
    ((Plain(a).Float? && Plain(b).Float?) || (a.Str? && b.Str?) || (a.List? && b.List?)) && Plain(a) == Plain(b)
  }

  /** The condition is met: never by an absent fact, unless absence is what it asks for. */
  ghost predicate Meets(c: Condition, facts: Facts) {
    if c.op.Exists? then
      c.field in facts <==> c.value !in {Bool(false), Int(0), Float(0.0), Str(""), List([]), Dict(map[])}
    else
      c.field in facts
      && var v := facts[c.field];
         match c.op
         case Eq => Plain(v) == Plain(c.value)
         case Ne => Plain(v) != Plain(c.value)
         case In => c.value.List? && exists m :: m in c.value.items && Plain(m) == Plain(v)
         case NotIn => c.value.List? && forall m :: m in c.value.items ==> Plain(m) != Plain(v)
         case Gt => Below(c.value, v)
         case Gte => Below(c.value, v) || Level(c.value, v)
         case Lt => Below(v, c.value)
         case _ => Below(v, c.value) || Level(v, c.value)
  }

  lemma AgreeOneLater(xs: seq<Json>, ys: seq<Json>, k: nat)
    requires |xs| > 0 && |ys| > 0 && Plain(xs[0]) == Plain(ys[0])
    ensures AgreeUpTo(xs[1..], ys[1..], k) <==> AgreeUpTo(xs, ys, k + 1)
  {
    if AgreeUpTo(xs, ys, k + 1) {
      assert forall i :: 0 <= i < k ==> xs[1..][i] == xs[i + 1] && ys[1..][i] == ys[i + 1];
    }
    if AgreeUpTo(xs[1..], ys[1..], k) {
      assert forall i :: 1 <= i < k + 1 ==> xs[i] == xs[1..][i - 1] && ys[i] == ys[1..][i - 1];
    }
  }

  lemma ListBelowSkips(xs: seq<Json>, ys: seq<Json>)
    requires |xs| > 0 && |ys| > 0 && Plain(xs[0]) == Plain(ys[0])
    ensures ListBelow(xs, ys) <==> ListBelow(xs[1..], ys[1..])
  {
    if ListBelow(xs, ys) {
      var k: nat :| AgreeUpTo(xs, ys, k) && k < |ys|
                    && (k == |xs| || (Plain(xs[k]) != Plain(ys[k]) && Below(xs[k], ys[k])));
      AgreeOneLater(xs, ys, k - 1);
      assert AgreeUpTo(xs[1..], ys[1..], k - 1);
    }
    if ListBelow(xs[1..], ys[1..]) {
      var k: nat :| AgreeUpTo(xs[1..], ys[1..], k) && k < |ys[1..]|
                    && (k == |xs[1..]| || (Plain(xs[1..][k]) != Plain(ys[1..][k]) && Below(xs[1..][k], ys[1..][k])));
      AgreeOneLater(xs, ys, k);
      assert AgreeUpTo(xs, ys, k + 1);
    }
  }

  lemma ListBelowAtOnce(xs: seq<Json>, ys: seq<Json>)
    requires |xs| > 0 && |ys| > 0 && Plain(xs[0]) != Plain(ys[0])
    ensures ListBelow(xs, ys) <==> Below(xs[0], ys[0])
  {
    assert AgreeUpTo(xs, ys, 0);
    assert forall k: nat :: AgreeUpTo(xs, ys, k) ==> k == 0;
  }

  lemma {:induction false} ComparedListsMeaning(xs: seq<Json>, ys: seq<Json>)
    ensures ComparedLists(xs, ys).Before? <==> ListBelow(xs, ys)
    ensures ComparedLists(xs, ys).After? <==> ListBelow(ys, xs)
    ensures ComparedLists(xs, ys).Same? <==> Plain(List(xs)) == Plain(List(ys))
    decreases xs
  {
    PlainLists(xs, ys);
    if xs == [] || ys == [] {
      assert AgreeUpTo(xs, ys, 0) && AgreeUpTo(ys, xs, 0);
    } else {
      PyEqIffSamePlain(xs[0], ys[0]);
      if PyEq(xs[0], ys[0]) {
        ComparedListsMeaning(xs[1..], ys[1..]);
        ListBelowSkips(xs, ys);
        ListBelowSkips(ys, xs);
        PlainLists(xs[1..], ys[1..]);
        assert forall i :: 0 <= i < |xs| - 1 ==> xs[1..][i] == xs[i + 1];
        assert forall i :: 0 <= i < |ys| - 1 ==> ys[1..][i] == ys[i + 1];
        assert forall i :: 1 <= i < |xs| ==> xs[i] == xs[1..][i - 1];
      } else {
        ComparedMeaning(xs[0], ys[0]);
        ListBelowAtOnce(xs, ys);
        ListBelowAtOnce(ys, xs);
      }
    }
  }

  /** The three-way comparison is the order of numbers, texts and lists. */
  lemma {:induction false} ComparedMeaning(a: Json, b: Json)
    ensures Compared(a, b).Before? <==> Below(a, b)
    ensures Compared(a, b).After? <==> Below(b, a)
    ensures Compared(a, b).Same? <==> Level(a, b)
    decreases a
  {
    AmountIsPlain(a);
    AmountIsPlain(b);
    if a.Str? && b.Str? {
      Text.LessAtFirstDifference(a.text, b.text);
      Text.LessAtFirstDifference(b.text, a.text);
      Text.LessIsTotal(a.text, b.text);
      Text.LessIsIrreflexive(a.text);
      if Text.Less(a.text, b.text) {
        Text.LessIsAsymmetric(a.text, b.text);
      }
    } else if a.List? && b.List? {
      ComparedListsMeaning(a.items, b.items);
    }
  }

  /** A condition evaluates to true exactly when it is met, and to false exactly when its
      opposite is; otherwise nothing is known. */
  lemma HoldsIffMet(c: Condition, facts: Facts)
    ensures Holds(c, facts).True? <==> Meets(c, facts)
    ensures Holds(c, facts).False? <==> Meets(Opposite(c), facts)
  {
    if c.op.Exists? {
      TruthyMeaning(c.value);
    } else if c.field in facts {
      PresentHoldsIffMet(c, facts);
    }
  }

  lemma TruthyMeaning(v: Json)
    ensures v.Null? || Truthy(v) <==> v !in {Bool(false), Int(0), Float(0.0), Str(""), List([]), Dict(map[])}
  {
  }

  lemma PresentHoldsIffMet(c: Condition, facts: Facts)
    requires !c.op.Exists? && c.field in facts
    ensures Holds(c, facts).True? <==> Meets(c, facts)
    ensures Holds(c, facts).False? <==> Meets(Opposite(c), facts)
  {
    var v := facts[c.field];
    PyEqIffSamePlain(v, c.value);
    ComparedMeaning(v, c.value);
    if c.value.List? {
      ContainsMeaning(c.value.items, v);
    }
  }

  lemma ContainsMeaning(items: seq<Json>, v: Json)
    ensures Contains(items, v) <==> exists m :: m in items && Plain(m) == Plain(v)
  {
    forall i | 0 <= i < |items| ensures PyEq(v, items[i]) <==> Plain(items[i]) == Plain(v) {
      PyEqIffSamePlain(v, items[i]);
    }
    if m :| m in items && Plain(m) == Plain(v) {
      var i :| 0 <= i < |items| && items[i] == m;
      assert PyEq(v, items[i]);
    }
  }

  // ----- limits -----

  ghost predicate Limited(c: Condition, facts: Facts) {
    c.field in facts && IsNumeric(facts[c.field]) && IsNumeric(c.value)
  }

  /** On numbers the ordering conditions are the inequalities, and always known. */
  lemma LimitIsInequality(c: Condition, facts: Facts)
    requires Limited(c, facts)
    ensures var x, limit := Amount(facts[c.field]), Amount(c.value);
            && (c.op.Gt? ==> Holds(c, facts) == Judge(x > limit))
            && (c.op.Gte? ==> Holds(c, facts) == Judge(x >= limit))
            && (c.op.Lt? ==> Holds(c, facts) == Judge(x < limit))
            && (c.op.Lte? ==> Holds(c, facts) == Judge(x <= limit))
  {
  }

  /** An upper limit that passes at one amount passes at every smaller one, and stays passed
      when it is raised. */
  lemma UpperLimitIsMonotone(c: Condition, facts: Facts, v: Json, raised: Json)
    requires (c.op.Lt? || c.op.Lte?) && Limited(c, facts) && Holds(c, facts).True?
    requires IsNumeric(v) && Amount(v) <= Amount(facts[c.field])
    requires IsNumeric(raised) && Amount(c.value) <= Amount(raised)
    ensures Holds(c.(value := raised), facts[c.field := v]).True?
  {
    LimitIsInequality(c, facts);
    LimitIsInequality(c.(value := raised), facts[c.field := v]);
  }

  function Opposite(c: Condition): Condition {
    match c.op
    case Eq => c.(op := Ne)
    case Ne => c.(op := Eq)
    case In => c.(op := NotIn)
    case NotIn => c.(op := In)
    case Gt => c.(op := Lte)
    case Lte => c.(op := Gt)
    case Gte => c.(op := Lt)
    case Lt => c.(op := Gte)
    case Exists => c.(value := Bool(!(c.value.Null? || Truthy(c.value))))
  }

  /** A condition and its opposite never both pass, and the unknown stays unknown under
      negation: uncertainty cannot be turned into permission by restating a condition. */
  lemma OppositesExclude(c: Condition, facts: Facts)
    ensures Holds(c, facts).True? <==> Holds(Opposite(c), facts).False?
    ensures Holds(c, facts).Unknown? <==> Holds(Opposite(c), facts).Unknown?
    ensures Holds(c, facts).Unknown?
            ==> c.field !in facts || c.op.In? || c.op.NotIn? || Compared(facts[c.field], c.value).Incomparable?
  {
  }
}
