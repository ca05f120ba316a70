/** JSON values as the predicate language sees them: both its syntax trees and the
    states it is evaluated in. */
module JsonValues {

  datatype Json =
    | Null
    | Bool(flag: bool)
    | Int(whole: int)
    | Float(quantity: real)
    | Str(text: string)
    | List(items: seq<Json>)
    | Dict(entries: map<string, Json>)

  datatype Kind = KNull | KBool | KInt | KFloat | KStr | KList | KDict

  function KindOf(v: Json): Kind {
    match v
    case Null => KNull
    case Bool(_) => KBool
    case Int(_) => KInt
    case Float(_) => KFloat
    case Str(_) => KStr
    case List(_) => KList
    case Dict(_) => KDict
  }

  predicate IsScalar(v: Json) {
    v.Str? || v.Int? || v.Float? || v.Bool?
  }

  predicate IsNumber(v: Json) {
    v.Int? || v.Float?
  }

  /** Booleans count as 0 and 1 in Python's arithmetic comparisons. */
  predicate IsNumeric(v: Json) {
    v.Int? || v.Float? || v.Bool?
  }

  function Amount(v: Json): real
    requires IsNumeric(v)
  {
    match v
    case Int(i) => i as real
    case Float(r) => r
    case Bool(b) => if b then 1.0 else 0.0
  }

  /** Python's `==`: numbers and booleans compare by value, containers element-wise. */
  predicate PyEq(a: Json, b: Json)
    decreases a
  {
    if IsNumeric(a) && IsNumeric(b) then Amount(a) == Amount(b)
    else
      match (a, b)
      case (Null, Null) => true
      case (Str(s), Str(t)) => s == t
      case (List(xs), List(ys)) =>
        |xs| == |ys| && forall i :: 0 <= i < |xs| ==> PyEq(xs[i], ys[i])
      case (Dict(m), Dict(n)) =>
        m.Keys == n.Keys && forall k :: k in m.Keys ==> PyEq(m[k], n[k])
      case _ => false
  }

  /** `_strict_eq`: a boolean never equals a number. */
  predicate StrictEq(a: Json, b: Json) {
    if a.Bool? || b.Bool? then a == b else PyEq(a, b)
  }

  // ----- equality by normal form -----

  /** The value with every number and boolean in it written as a real number. */
  function Plain(v: Json): Json {
    match v
    case Bool(b) => Float(if b then 1.0 else 0.0)
    case Int(i) => Float(i as real)
    case List(xs) => List(seq(|xs|, i requires 0 <= i < |xs| => Plain(xs[i])))
    case Dict(m) => Dict(map k | k in m.Keys :: Plain(m[k]))
    case _ => v
  }

  /** Python's `==` is identity of these normal forms; in particular it is an equivalence. */
  lemma {:induction false} PyEqIffSamePlain(a: Json, b: Json)
    ensures PyEq(a, b) <==> Plain(a) == Plain(b)
    decreases a
  {
    match (a, b)
    case (List(xs), List(ys)) =>
      forall i | 0 <= i < |xs| && |xs| == |ys| ensures PyEq(xs[i], ys[i]) <==> Plain(xs[i]) == Plain(ys[i]) {
        PyEqIffSamePlain(xs[i], ys[i]);
      }
      PlainLists(xs, ys);
    case (Dict(m), Dict(n)) =>
      forall k | k in m.Keys && m.Keys == n.Keys ensures PyEq(m[k], n[k]) <==> Plain(m[k]) == Plain(n[k]) {
        PyEqIffSamePlain(m[k], n[k]);
      }
      PlainDicts(m, n);
    case _ =>
  }

  lemma PlainLists(xs: seq<Json>, ys: seq<Json>)
    ensures Plain(List(xs)) == Plain(List(ys))
            <==> |xs| == |ys| && forall i :: 0 <= i < |xs| ==> Plain(xs[i]) == Plain(ys[i])
  {
    var ps, qs := Plain(List(xs)).items, Plain(List(ys)).items;
    assert |ps| == |xs| && |qs| == |ys|;
    assert forall i :: 0 <= i < |xs| ==> ps[i] == Plain(xs[i]);
    assert forall i :: 0 <= i < |ys| ==> qs[i] == Plain(ys[i]);
  }

  lemma PlainDicts(m: map<string, Json>, n: map<string, Json>)
    ensures Plain(Dict(m)) == Plain(Dict(n))
            <==> m.Keys == n.Keys && forall k :: k in m.Keys ==> Plain(m[k]) == Plain(n[k])
  {
    var p, q := Plain(Dict(m)).entries, Plain(Dict(n)).entries;
    assert p.Keys == m.Keys && q.Keys == n.Keys;
    assert forall k :: k in m.Keys ==> p[k] == Plain(m[k]);
    assert forall k :: k in n.Keys ==> q[k] == Plain(n[k]);
  }

  lemma AmountIsPlain(v: Json)
    ensures Plain(v).Float? <==> IsNumeric(v)
    ensures IsNumeric(v) ==> Plain(v) == Float(Amount(v))
  {
  }
}
