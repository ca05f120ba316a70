/** What a predicate says about a state, read off its text: no interpreter, no errors, no
    order of evaluation.  The interpreter is proved to agree with it. */
module PredicateMeaning {
  import opened JsonValues
  import Text

  // ----- fields -----

  /** Following the names through nested dictionaries ends at `v`. */
  ghost predicate Leads(cur: Json, names: seq<string>, v: Json) {
    if names == [] then v == cur
    else cur.Dict? && names[0] in cur.entries && Leads(cur.entries[names[0]], names[1..], v)
  }

  /** The path is these names with dots between them. */
  ghost predicate Spells(names: seq<string>, path: string) {
    |names| > 0 && Text.Unbroken(names, '.') && Text.Join(names, '.') == path
  }

  /** The field has the value `v`; a missing field has none. */
  ghost predicate Reads(scope: Json, field: Json, v: Json) {
    field.Str?
    && if field.text == "." then v == scope
       else exists names :: Spells(names, field.text) && Leads(scope, names, v)
  }

  // ----- leaves -----

  ghost predicate Related(sign: string, a: real, b: real) {
    || (sign == "==" && a == b) || (sign == "!=" && a != b)
    || (sign == "<" && a < b) || (sign == "<=" && a <= b)
    || (sign == ">" && a > b) || (sign == ">=" && a >= b)
  }

  /** Equal values, where a boolean is never equal to a number. */
  ghost predicate Identical(a: Json, b: Json) {
    (a.Bool? <==> b.Bool?) && Plain(a) == Plain(b)
  }

  /** Python's `in`: an equal member, a substring, or a key. */
  ghost predicate Belongs(v: Json, members: Json) {
    || (members.List? && exists m :: m in members.items && Plain(m) == Plain(v))
    || (members.Str? && v.Str? && Text.IsSubstring(v.text, members.text))
    || (members.Dict? && v.Str? && v.text in members.entries)
  }

  ghost predicate Bears(sign: string, v: Json, literal: Json) {
    if sign == "==" then Identical(v, literal)
    else if sign == "!=" then !Identical(v, literal)
    else (v.Int? || v.Float?) && (literal.Int? || literal.Float?)
         && Related(sign, Plain(v).quantity, Plain(literal).quantity)
  }

  /** What a leaf asks of the value of its field. */
  ghost predicate Asks(op: string, args: seq<Json>, v: Json) {
    if op == "exists" then true
    else if op == "count" then
      |args| == 3 && v.List? && args[1].Str? && Plain(args[2]).Float?
      && Related(args[1].text, |v.items| as real, Plain(args[2]).quantity)
    else if op == "in" then |args| == 2 && Belongs(v, args[1])
    else |args| == 2 && Bears(op, v, args[1])
  }

  ghost predicate LeafHolds(op: string, args: seq<Json>, scope: Json) {
    |args| > 0 && exists v :: Reads(scope, args[0], v) && Asks(op, args, v)
  }

  // ----- trees -----

  ghost predicate Satisfies(n: Json, scope: Json)
    decreases n
  {
    n.List? && |n.items| > 0 && n.items[0].Str?
    && var op := n.items[0].text;
       if op == "and" then forall i :: 0 < i < |n.items| ==> Satisfies(n.items[i], scope)
       else if op == "or" then exists i :: 0 < i < |n.items| && Satisfies(n.items[i], scope)
       else if op == "not" then |n.items| == 2 && !Satisfies(n.items[1], scope)
       else if op == "all" then
         |n.items| == 3 && exists v :: Reads(scope, n.items[1], v) && v.List?
                                       && forall e :: e in v.items ==> Satisfies(n.items[2], e)
       else if op == "any" then
         |n.items| == 3 && exists v :: Reads(scope, n.items[1], v) && v.List?
                                       && exists e :: e in v.items && Satisfies(n.items[2], e)
       else LeafHolds(op, n.items[1..], scope)
  }

  // ----- states of the right types -----

  /** The operator can be applied to the value. */
  ghost predicate Suits(op: string, v: Json) {
    if op == "count" then v.List?
    else if op == "==" || op == "!=" then !v.List? && !v.Dict?
    else if op == "exists" || op == "in" then true
    else v.Int? || v.Float?
  }

  /** Every field that is present has a type its operator can be applied to. */
  ghost predicate Fits(n: Json, scope: Json)
    decreases n
  {
    n.List? && |n.items| > 0 && n.items[0].Str?
    && var op := n.items[0].text;
       if op == "and" || op == "or" then forall i :: 0 < i < |n.items| ==> Fits(n.items[i], scope)
       else if op == "not" then |n.items| == 2 && Fits(n.items[1], scope)
       else if op == "all" || op == "any" then
         |n.items| == 3
         && forall v :: Reads(scope, n.items[1], v)
                        ==> v.List? && forall e :: e in v.items ==> Fits(n.items[2], e)
       else |n.items| > 1 && forall v :: Reads(scope, n.items[1], v) ==> Suits(op, v)
  }

  // ----- upper limits -----

  /** The same value with some of its numbers lowered. */
  ghost predicate Lowered(a: Json, b: Json)
    decreases a
  {
    if (a.Int? || a.Float?) && (b.Int? || b.Float?) then Plain(b).quantity <= Plain(a).quantity
    else if a.List? && b.List? then
      |a.items| == |b.items| && forall i :: 0 <= i < |a.items| ==> Lowered(a.items[i], b.items[i])
    else if a.Dict? && b.Dict? then
      a.entries.Keys == b.entries.Keys
      && forall k :: k in a.entries.Keys ==> Lowered(a.entries[k], b.entries[k])
    else a == b
  }

  /** The tree limits numbers only from above (`upper`), or only from below. */
  ghost predicate Limits(n: Json, upper: bool)
    decreases n
  {
    n.List? && |n.items| > 0 && n.items[0].Str?
    && var op := n.items[0].text;
       if op == "and" || op == "or" then forall i :: 0 < i < |n.items| ==> Limits(n.items[i], upper)
       else if op == "not" then |n.items| == 2 && Limits(n.items[1], !upper)
       else if op == "all" || op == "any" then |n.items| == 3 && Limits(n.items[2], upper)
       else if op == "<" || op == "<=" then upper
       else if op == ">" || op == ">=" then !upper
       else op == "exists" || op == "count"
  }

  lemma {:induction false} LoweredLeads(cur: Json, low: Json, names: seq<string>, v: Json)
    requires Lowered(cur, low) && Leads(cur, names, v)
    ensures exists w :: Leads(low, names, w) && Lowered(v, w)
    decreases |names|
  {
    if names == [] {
      assert Leads(low, names, low);
    } else {
      LoweredLeads(cur.entries[names[0]], low.entries[names[0]], names[1..], v);
      var w :| Leads(low.entries[names[0]], names[1..], w) && Lowered(v, w);
      assert Leads(low, names, w);
    }
  }

  lemma {:induction false} RaisedLeads(cur: Json, low: Json, names: seq<string>, w: Json)
    requires Lowered(cur, low) && Leads(low, names, w)
    ensures exists v :: Leads(cur, names, v) && Lowered(v, w)
    decreases |names|
  {
    if names == [] {
      assert Leads(cur, names, cur);
    } else {
      RaisedLeads(cur.entries[names[0]], low.entries[names[0]], names[1..], w);
      var v :| Leads(cur.entries[names[0]], names[1..], v) && Lowered(v, w);
      assert Leads(cur, names, v);
    }
  }

  lemma LoweredReads(scope: Json, low: Json, field: Json, v: Json) returns (w: Json)
    requires Lowered(scope, low) && Reads(scope, field, v)
    ensures Reads(low, field, w) && Lowered(v, w)
  {
    if field.text == "." {
      w := low;
    } else {
      var names :| Spells(names, field.text) && Leads(scope, names, v);
      LoweredLeads(scope, low, names, v);
      w :| Leads(low, names, w) && Lowered(v, w);
    }
  }

  lemma RaisedReads(scope: Json, low: Json, field: Json, w: Json) returns (v: Json)
    requires Lowered(scope, low) && Reads(low, field, w)
    ensures Reads(scope, field, v) && Lowered(v, w)
  {
    if field.text == "." {
      v := scope;
    } else {
      var names :| Spells(names, field.text) && Leads(low, names, w);
      RaisedLeads(scope, low, names, w);
      v :| Leads(scope, names, v) && Lowered(v, w);
    }
  }

  lemma LimitLeaf(op: string, args: seq<Json>, scope: Json, low: Json)
    requires Lowered(scope, low) && LeafHolds(op, args, scope)
    requires op == "<" || op == "<=" || op == "exists" || op == "count"
    ensures LeafHolds(op, args, low)
  {
    var v :| Reads(scope, args[0], v) && Asks(op, args, v);
    var w := LoweredReads(scope, low, args[0], v);
    assert Asks(op, args, w);
  }

  lemma FloorLeaf(op: string, args: seq<Json>, scope: Json, low: Json)
    requires Lowered(scope, low) && LeafHolds(op, args, low)
    requires op == ">" || op == ">=" || op == "exists" || op == "count"
    ensures LeafHolds(op, args, scope)
  {
    var w :| Reads(low, args[0], w) && Asks(op, args, w);
    var v := RaisedReads(scope, low, args[0], w);
    assert Asks(op, args, v);
  }

  /** Lowering numbers never makes an upper limit false, however it is composed, and never
      makes a lower limit true. */
  lemma {:induction false} LoweringKeepsLimits(n: Json, upper: bool, scope: Json, low: Json)
    requires Limits(n, upper) && Lowered(scope, low)
    ensures upper && Satisfies(n, scope) ==> Satisfies(n, low)
    ensures !upper && Satisfies(n, low) ==> Satisfies(n, scope)
    decreases n, 1
  {
    var op := n.items[0].text;
    if op == "and" || op == "or" {
      forall i | 0 < i < |n.items|
        ensures upper && Satisfies(n.items[i], scope) ==> Satisfies(n.items[i], low)
        ensures !upper && Satisfies(n.items[i], low) ==> Satisfies(n.items[i], scope)
      {
        LoweringKeepsLimits(n.items[i], upper, scope, low);
      }
    } else if op == "not" {
      LoweringKeepsLimits(n.items[1], !upper, scope, low);
    } else if op == "all" || op == "any" {
      if upper && Satisfies(n, scope) {
        QuantifierLowered(n, scope, low);
      } else if !upper && Satisfies(n, low) {
        QuantifierRaised(n, scope, low);
      }
    } else if upper && Satisfies(n, scope) {
      LimitLeaf(op, n.items[1..], scope, low);
    } else if !upper && Satisfies(n, low) {
      FloorLeaf(op, n.items[1..], scope, low);
    }
  }

  lemma {:induction false} QuantifierLowered(n: Json, scope: Json, low: Json)
    requires Limits(n, true) && Lowered(scope, low) && Satisfies(n, scope)
    requires n.items[0].text == "all" || n.items[0].text == "any"
    ensures Satisfies(n, low)
    decreases n, 0
  {
    var child := n.items[2];
    var v :| Reads(scope, n.items[1], v) && v.List?
             && if n.items[0].text == "all" then forall e :: e in v.items ==> Satisfies(child, e)
                else exists e :: e in v.items && Satisfies(child, e);
    var w := LoweredReads(scope, low, n.items[1], v);
    forall i | 0 <= i < |v.items| ensures Satisfies(child, v.items[i]) ==> Satisfies(child, w.items[i]) {
      LoweringKeepsLimits(child, true, v.items[i], w.items[i]);
    }
    Quantified(child, v.items, w.items);
  }

  lemma {:induction false} QuantifierRaised(n: Json, scope: Json, low: Json)
    requires Limits(n, false) && Lowered(scope, low) && Satisfies(n, low)
    requires n.items[0].text == "all" || n.items[0].text == "any"
    ensures Satisfies(n, scope)
    decreases n, 0
  {
    var child := n.items[2];
    var w :| Reads(low, n.items[1], w) && w.List?
             && if n.items[0].text == "all" then forall e :: e in w.items ==> Satisfies(child, e)
                else exists e :: e in w.items && Satisfies(child, e);
    var v := RaisedReads(scope, low, n.items[1], w);
    forall i | 0 <= i < |v.items| ensures Satisfies(child, w.items[i]) ==> Satisfies(child, v.items[i]) {
      LoweringKeepsLimits(child, false, v.items[i], w.items[i]);
    }
    Quantified(child, w.items, v.items);
  }

  /** A quantifier carries over to a list whose elements satisfy whatever the old ones did. */
  lemma Quantified(child: Json, xs: seq<Json>, ys: seq<Json>)
    requires |xs| == |ys| && forall i :: 0 <= i < |xs| ==> Satisfies(child, xs[i]) ==> Satisfies(child, ys[i])
    ensures (forall e :: e in xs ==> Satisfies(child, e)) ==> forall e :: e in ys ==> Satisfies(child, e)
    ensures (exists e :: e in xs && Satisfies(child, e)) ==> exists e :: e in ys && Satisfies(child, e)
  {
    if e :| e in xs && Satisfies(child, e) {
      var i :| 0 <= i < |xs| && xs[i] == e;
      assert ys[i] in ys;
    }
    if forall e :: e in xs ==> Satisfies(child, e) {
      forall e | e in ys ensures Satisfies(child, e) {
        var i :| 0 <= i < |ys| && ys[i] == e;
        assert xs[i] in xs;
      }
    }
  }

  /** Lowering numbers changes no type. */
  lemma {:induction false} LoweringKeepsTypes(n: Json, scope: Json, low: Json)
    requires Fits(n, scope) && Lowered(scope, low)
    ensures Fits(n, low)
    decreases n
  {
    var op := n.items[0].text;
    if op == "and" || op == "or" {
      forall i | 0 < i < |n.items| ensures Fits(n.items[i], low) {
        LoweringKeepsTypes(n.items[i], scope, low);
      }
    } else if op == "not" {
      LoweringKeepsTypes(n.items[1], scope, low);
    } else if op == "all" || op == "any" {
      forall w | Reads(low, n.items[1], w) ensures w.List? && forall e :: e in w.items ==> Fits(n.items[2], e) {
        var v := RaisedReads(scope, low, n.items[1], w);
        forall i | 0 <= i < |w.items| ensures Fits(n.items[2], w.items[i]) {
          assert v.items[i] in v.items;
          LoweringKeepsTypes(n.items[2], v.items[i], w.items[i]);
        }
      }
    } else {
      forall w | Reads(low, n.items[1], w) ensures Suits(op, w) {
        var v := RaisedReads(scope, low, n.items[1], w);
      }
    }
  }
}
