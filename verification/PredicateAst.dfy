/** Level-0 predicates as position lists: `["and", p, q]`, `["==", field, literal]`, ... */
module PredicateAst {
  import opened Common
  import opened JsonValues
  import Text

  datatype Op =
    | And | Or | Not | All | Any | Exists | Count | In
    | Eq | Ne | Lt | Le | Gt | Ge

  const OPS: seq<Op> := [And, Or, Not, All, Any, Exists, Count, In, Eq, Ne, Lt, Le, Gt, Ge]

  function OpText(op: Op): string {
    match op
    case And => "and"
    case Or => "or"
    case Not => "not"
    case All => "all"
    case Any => "any"
    case Exists => "exists"
    case Count => "count"
    case In => "in"
    case Eq => "=="
    case Ne => "!="
    case Lt => "<"
    case Le => "<="
    case Gt => ">"
    case Ge => ">="
  }

  function FindOp(text: string, ops: seq<Op>): Option<Op> {
    if ops == [] then None
    else if OpText(ops[0]) == text then Some(ops[0])
    else FindOp(text, ops[1..])
  }

  /** The operator a list head names, `None` outside the finite vocabulary. */
  function OpOf(text: string): Option<Op> {
    FindOp(text, OPS)
  }

  predicate IsComparison(op: Op) {
    op.Eq? || op.Ne? || IsOrdering(op)
  }

  predicate IsOrdering(op: Op) {
    op.Lt? || op.Le? || op.Gt? || op.Ge?
  }

  function Node(op: Op, args: seq<Json>): Json {
    List([Str(OpText(op))] + args)
  }

  /** A non-empty list whose head is a string. */
  predicate IsOpList(n: Json) {
    n.List? && |n.items| > 0 && n.items[0].Str?
  }

  function HeadOp(n: Json): Option<Op> {
    if IsOpList(n) then OpOf(n.items[0].text) else None
  }

  function Args(n: Json): seq<Json>
    requires IsOpList(n)
  {
    n.items[1..]
  }

  // ----- field paths -----

  predicate IsIdentStart(c: char) {
    'A' <= c <= 'Z' || 'a' <= c <= 'z' || c == '_'
  }

  predicate IsIdent(s: string) {
    |s| > 0 && IsIdentStart(s[0])
    && forall i :: 0 < i < |s| ==> IsIdentStart(s[i]) || '0' <= s[i] <= '9'
  }

  /** The field pattern: dotted identifiers.  Its `$` also matches before one final
      newline, so that is accepted too. */
  predicate IsFieldPath(s: string) {
    forall part :: part in Text.Split(FieldBody(s), '.') ==> IsIdent(part)
  }

  function FieldBody(s: string): string {
    if |s| > 0 && s[|s| - 1] == '\n' then s[..|s| - 1] else s
  }

  /** What the parser accepts where a field is expected. */
  predicate IsFieldRef(s: string) {
    s == "." || IsFieldPath(s)
  }

  /** The pattern `[A-Za-z_][A-Za-z0-9_]*(\.[A-Za-z_][A-Za-z0-9_]*)*` as an automaton;
      `first` says that the next character begins an identifier. */
  ghost predicate Scans(s: string, first: bool) {
    if s == "" then !first
    else if 'a' <= s[0] <= 'z' || 'A' <= s[0] <= 'Z' || s[0] == '_' then Scans(s[1..], false)
    else !first && (('0' <= s[0] <= '9' && Scans(s[1..], false)) || (s[0] == '.' && Scans(s[1..], true)))
  }

  lemma {:induction false} ScansPartwise(s: string, first: bool)
    ensures var parts := Text.Split(s, '.');
            Scans(s, first)
            <==> IsIdent(if first then parts[0] else "_" + parts[0])
                 && forall i :: 1 <= i < |parts| ==> IsIdent(parts[i])
  {
    if s != "" {
      var rest, parts := Text.Split(s[1..], '.'), Text.Split(s, '.');
      ScansPartwise(s[1..], true);
      ScansPartwise(s[1..], false);
      if s[0] == '.' {
        assert parts == [""] + rest;
        assert forall i :: 0 <= i < |rest| ==> rest[i] == parts[i + 1];
        assert IsIdent("_" + "") && parts[1] == rest[0];
      } else {
        assert parts == [[s[0]] + rest[0]] + rest[1..];
        assert forall i :: 1 <= i < |parts| ==> parts[i] == rest[i];
        FirstPartScans(s[0], rest[0]);
      }
    }
  }

  lemma FirstPartScans(c: char, part: string)
    ensures IsIdent([c] + part) <==> IsIdentStart(c) && IsIdent("_" + part)
    ensures IsIdent("_" + ([c] + part)) <==> (IsIdentStart(c) || '0' <= c <= '9') && IsIdent("_" + part)
  {
    assert forall i :: 1 <= i < |part| + 1 ==> ([c] + part)[i] == ("_" + part)[i];
    assert forall i :: 2 <= i < |part| + 2 ==> ("_" + ([c] + part))[i] == ("_" + part)[i - 1];
    assert forall i :: 1 <= i < |part| + 1 ==> ("_" + part)[i] == ("_" + ([c] + part))[i + 1];
    assert ("_" + ([c] + part))[1] == c;
  }

  lemma EveryPart(parts: seq<string>)
    requires |parts| > 0
    ensures (forall part :: part in parts ==> IsIdent(part))
            <==> IsIdent(parts[0]) && forall i :: 1 <= i < |parts| ==> IsIdent(parts[i])
  {
  }

  lemma PartsAreScanned(s: string)
    ensures (forall part :: part in Text.Split(s, '.') ==> IsIdent(part)) <==> Scans(s, true)
  {
    ScansPartwise(s, true);
    EveryPart(Text.Split(s, '.'));
  }

  lemma FinalNewlineIsIgnored(s: string)
    requires s == "" || s[|s| - 1] != '\n'
    ensures FieldBody(s) == s && FieldBody(s + "\n") == s
  {
  }

  /** A field path is what the automaton accepts, with or without a final newline. */
  lemma FieldPathIsScanned(s: string)
    requires s == "" || s[|s| - 1] != '\n'
    ensures IsFieldPath(s) <==> Scans(s, true)
    ensures IsFieldPath(s + "\n") <==> Scans(s, true)
  {
    PartsAreScanned(s);
    FinalNewlineIsIgnored(s);
  }

  // ----- the operator table is a bijection -----

  lemma OpTextInjective(a: Op, b: Op)
    requires OpText(a) == OpText(b)
    ensures a == b
  {
    assert |OpText(a)| == |OpText(b)|;
    assert OpText(a)[0] == OpText(b)[0];
    assert |OpText(a)| > 1 ==> OpText(a)[1] == OpText(b)[1];
  }

  lemma {:induction false} FindOpFinds(op: Op, ops: seq<Op>)
    requires op in ops
    ensures FindOp(OpText(op), ops) == Some(op)
  {
    if OpText(ops[0]) == OpText(op) {
      OpTextInjective(ops[0], op);
    } else {
      FindOpFinds(op, ops[1..]);
    }
  }

  lemma {:induction false} FindOpSound(text: string, ops: seq<Op>)
    ensures FindOp(text, ops).Some? ==> text == OpText(FindOp(text, ops).value)
  {
    if ops != [] && OpText(ops[0]) != text {
      FindOpSound(text, ops[1..]);
    }
  }

  lemma OpIsListed(op: Op)
    ensures op in OPS
  {
    match op
    case And => assert OPS[0] == op;
    case Or => assert OPS[1] == op;
    case Not => assert OPS[2] == op;
    case All => assert OPS[3] == op;
    case Any => assert OPS[4] == op;
    case Exists => assert OPS[5] == op;
    case Count => assert OPS[6] == op;
    case In => assert OPS[7] == op;
    case Eq => assert OPS[8] == op;
    case Ne => assert OPS[9] == op;
    case Lt => assert OPS[10] == op;
    case Le => assert OPS[11] == op;
    case Gt => assert OPS[12] == op;
    case Ge => assert OPS[13] == op;
  }

  /** Reading an operator's text gives the operator back. */
  lemma OpRoundTrip(op: Op)
    ensures OpOf(OpText(op)) == Some(op)
  {
    OpIsListed(op);
    FindOpFinds(op, OPS);
  }

  lemma OpOfSound(text: string)
    ensures OpOf(text).Some? ==> text == OpText(OpOf(text).value)
  {
    FindOpSound(text, OPS);
  }

  /** A list headed by a known operator is the node of that operator. */
  lemma HeadOpNode(n: Json)
    requires HeadOp(n).Some?
    ensures n == Node(HeadOp(n).value, Args(n))
  {
    OpOfSound(n.items[0].text);
    assert n.items == [n.items[0]] + n.items[1..];
  }

  lemma NodeHeadOp(op: Op, args: seq<Json>)
    ensures IsOpList(Node(op, args)) && HeadOp(Node(op, args)) == Some(op) && Args(Node(op, args)) == args
  {
    OpRoundTrip(op);
  }
}
