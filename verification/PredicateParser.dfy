/** The recursive-descent parser with its moving cursor, proved to compute what the
    grammar's parsing functions say. */
module PredicateParser {
  import opened Common
  import opened JsonValues
  import opened PredicateAst
  import opened PredicateValidate
  import opened PredicateGrammar
  import opened PredicateRoundTrip

  class Parser {
    const toks: seq<Token>
    var i: nat

    constructor (toks: seq<Token>)
      ensures this.toks == toks && i == 0
    {
      this.toks, i := toks, 0;
    }

    ghost predicate Valid()
      reads this
    {
      i <= |toks|
    }

    /** The tokens not yet consumed. */
    ghost function Ahead(): seq<Token>
      requires Valid()
      reads this
    {
      toks[i..]
    }

    /** The method's result and the cursor are what the grammar function promises. */
    ghost predicate Follows<T(!new)>(r: Result<T, SyntaxError>, p: Parse<T>)
      requires Valid()
      reads this
    {
      match p
      case Parsed(v, rest) => r == Ok(v) && Ahead() == rest
      case Rejected(e) => r == Err(e)
    }

    method PeekKeyword() returns (op: Option<Op>)
      requires Valid()
      ensures op == Keyword(Ahead())
    {
      if i < |toks| && toks[i].Word? {
        op := OpOf(toks[i].word);
      } else {
        op := None;
      }
    }

    method PeekIsComma() returns (b: bool)
      requires Valid()
      ensures b <==> Ahead() != [] && Ahead()[0].Comma?
    {
      b := i < |toks| && toks[i].Comma?;
    }

    method Skip()
      requires Valid() && Ahead() != []
      modifies this
      ensures Valid() && Ahead() == old(Ahead())[1..] && i == old(i) + 1
    {
      i := i + 1;
    }

    method ExpectToken(t: Token) returns (r: Result<Token, SyntaxError>)
      requires Valid()
      modifies this
      ensures Valid() && Follows(r, Expect(old(Ahead()), t))
    {
      if i >= |toks| {
        return Err(UnexpectedEnd);
      }
      i := i + 1;
      r := if toks[i - 1] == t then Ok(t) else Err(Expected("token"));
    }

    method Field() returns (r: Result<string, SyntaxError>)
      requires Valid()
      modifies this
      ensures Valid() && Follows(r, ParseField(old(Ahead())))
    {
      if i >= |toks| {
        return Err(UnexpectedEnd);
      }
      var t := toks[i];
      i := i + 1;
      if !t.Word? {
        return Err(Expected("field path"));
      }
      r := if IsFieldRef(t.word) then Ok(t.word) else Err(BadFieldPath(t.word));
    }

    method Comparator() returns (r: Result<CmpOp, SyntaxError>)
      requires Valid()
      modifies this
      ensures Valid() && Follows(r, ParseCmp(old(Ahead())))
    {
      if i >= |toks| {
        return Err(UnexpectedEnd);
      }
      var t := toks[i];
      i := i + 1;
      r := if t.Cmp? then Ok(t.op) else Err(Expected("comparison"));
    }

    method Number() returns (r: Result<Json, SyntaxError>)
      requires Valid()
      modifies this
      ensures Valid() && Follows(r, ParseNumber(old(Ahead())))
    {
      if i >= |toks| {
        return Err(UnexpectedEnd);
      }
      var t := toks[i];
      i := i + 1;
      match t
      case IntTok(n) => r := Ok(Int(n));
      case FloatTok(x) => r := Ok(Float(x));
      case _ => r := Err(Expected("number"));
    }

    method Literal() returns (r: Result<Json, SyntaxError>)
      requires Valid()
      modifies this
      ensures Valid() && Follows(r, ParseLiteral(old(Ahead())))
    {
      if i >= |toks| {
        return Err(UnexpectedEnd);
      }
      var t := toks[i];
      i := i + 1;
      match t
      case StrTok(s) => r := Ok(Str(s));
      case IntTok(n) => r := Ok(Int(n));
      case FloatTok(x) => r := Ok(Float(x));
      case Word(w) =>
        r := if w == "true" then Ok(Bool(true))
             else if w == "false" then Ok(Bool(false))
             else Err(Expected("literal"));
      case _ => r := Err(Expected("literal"));
    }

    method Members() returns (r: Result<seq<Json>, SyntaxError>)
      requires Valid()
      modifies this
      ensures Valid() && Follows(r, ParseMembers(old(Ahead())))
    {
      var members: seq<Json> := [];
      ghost var spec := ParseMembers(Ahead());
      PrependNothing(spec);
      while true
        invariant Valid()
        invariant spec == Prepend(members, ParseMembers(Ahead()))
        decreases |toks| - i
      {
        ghost var before := Ahead();
        var m := Literal();
        if m.Err? {
          return Err(m.error);
        }
        var comma := PeekIsComma();
        if !comma {
          return Ok(members + [m.value]);
        }
        Skip();
        assert ParseMembers(before) == Prepend([m.value], ParseMembers(Ahead()));
        PrependTwice(members, [m.value], ParseMembers(Ahead()));
        members := members + [m.value];
      }
    }

    /** A field compared with a literal, or tested against a set. */
    method Compared() returns (r: Result<Json, SyntaxError>)
      requires Valid()
      modifies this
      ensures Valid() && Follows(r, ParseComparison(old(Ahead())))
    {
      var f := Field();
      if f.Err? {
        return Err(f.error);
      }
      var op := PeekKeyword();
      if op == Some(In) {
        Skip();
        var open := ExpectToken(LBrace);
        if open.Err? {
          return Err(open.error);
        }
        var members := Members();
        if members.Err? {
          return Err(members.error);
        }
        var close := ExpectToken(RBrace);
        if close.Err? {
          return Err(close.error);
        }
        return Ok(Node(In, [Str(f.value), List(members.value)]));
      }
      var cmp := Comparator();
      if cmp.Err? {
        return Err(cmp.error);
      }
      var lit := Literal();
      if lit.Err? {
        return Err(lit.error);
      }
      r := Ok(Node(cmp.value, [Str(f.value), lit.value]));
    }

    method ExistsCall() returns (r: Result<Json, SyntaxError>)
      requires Valid()
      modifies this
      ensures Valid() && Follows(r, ParseExists(old(Ahead())))
    {
      var f := Field();
      if f.Err? {
        return Err(f.error);
      }
      var close := ExpectToken(RParen);
      if close.Err? {
        return Err(close.error);
      }
      r := Ok(Node(Exists, [Str(f.value)]));
    }

    method CountCall() returns (r: Result<Json, SyntaxError>)
      requires Valid()
      modifies this
      ensures Valid() && Follows(r, ParseCount(old(Ahead())))
    {
      var f := Field();
      if f.Err? {
        return Err(f.error);
      }
      var close := ExpectToken(RParen);
      if close.Err? {
        return Err(close.error);
      }
      var cmp := Comparator();
      if cmp.Err? {
        return Err(cmp.error);
      }
      var bound := Number();
      if bound.Err? {
        return Err(bound.error);
      }
      r := Ok(Node(Count, [Str(f.value), Str(OpText(cmp.value)), bound.value]));
    }

    /** Operands and operators are collected first, then folded from the left. */
    method Chain() returns (r: Result<Json, SyntaxError>)
      requires Valid()
      modifies this
      ensures Valid() && Follows(r, ParseChain(old(Ahead())))
      decreases |toks| - i, 2
    {
      ghost var spec := ParseChain(Ahead());
      ghost var start := i;
      var first := Term();
      if first.Err? {
        return Err(first.error);
      }
      var terms, ops := [first.value], [];
      while true
        invariant Valid() && i > start && |terms| == |ops| + 1
        invariant spec == ParseChainRest(FoldLeft(terms, ops), Ahead())
        decreases |toks| - i
      {
        var op := PeekKeyword();
        if op != Some(And) && op != Some(Or) {
          break;
        }
        Skip();
        var t := Term();
        if t.Err? {
          return Err(t.error);
        }
        FoldLeftStep(terms, ops, t.value, op.value);
        terms, ops := terms + [t.value], ops + [op.value];
      }
      var node := terms[0];
      for k := 0 to |ops|
        invariant node == FoldLeft(terms[..k + 1], ops[..k])
      {
        assert terms[..k + 2][..k + 1] == terms[..k + 1] && ops[..k + 1][..k] == ops[..k];
        node := Node(ops[k], [node, terms[k + 1]]);
      }
      assert terms[..|ops| + 1] == terms && ops[..|ops|] == ops;
      r := Ok(node);
    }

    method Term() returns (r: Result<Json, SyntaxError>)
      requires Valid()
      modifies this
      ensures Valid() && Follows(r, ParseTerm(old(Ahead())))
      decreases |toks| - i, 1
    {
      var op := PeekKeyword();
      if op == Some(Not) {
        Skip();
        var inner := Term();
        r := if inner.Ok? then Ok(Node(Not, [inner.value])) else inner;
      } else {
        r := Atom();
      }
    }

    method Atom() returns (r: Result<Json, SyntaxError>)
      requires Valid()
      modifies this
      ensures Valid() && Follows(r, ParseAtom(old(Ahead())))
      decreases |toks| - i, 0
    {
      if i >= |toks| {
        return Err(UnexpectedEnd);
      }
      if toks[i].LParen? {
        Skip();
        r := Chain();
        if r.Ok? {
          var close := ExpectToken(RParen);
          if close.Err? {
            r := Err(close.error);
          }
        }
        return;
      }
      if !toks[i].Word? {
        return Err(Expected("predicate"));
      }
      var call := i + 1 < |toks| && toks[i + 1].LParen?;
      var op := PeekKeyword();
      if call && op.Some? && IsCallable(op.value) {
        assert Ahead()[1..][1..] == Ahead()[2..];
        Skip();
        Skip();
        r := Call(op.value);
      } else {
        r := Compared();
      }
    }

    /** The body of a call, after its name and opening parenthesis. */
    method Call(op: Op) returns (r: Result<Json, SyntaxError>)
      requires Valid() && IsCallable(op)
      modifies this
      ensures Valid() && Follows(r, CallBody(op, old(Ahead())))
      decreases |toks| - i, 4
    {
      if op.And? || op.Or? {
        var kids := Predicates();
        if kids.Err? {
          return Err(kids.error);
        }
        var close := ExpectToken(RParen);
        if close.Err? {
          return Err(close.error);
        }
        return Ok(Node(op, kids.value));
      } else if op.All? || op.Any? {
        r := Quantifier(op);
      } else if op.Exists? {
        r := ExistsCall();
      } else {
        r := CountCall();
      }
    }

    method Predicates() returns (r: Result<seq<Json>, SyntaxError>)
      requires Valid()
      modifies this
      ensures Valid() && Follows(r, ParsePredicates(old(Ahead())))
      decreases |toks| - i, 3
    {
      var kids: seq<Json> := [];
      ghost var spec := ParsePredicates(Ahead());
      ghost var start := i;
      PrependNothing(spec);
      while true
        invariant Valid() && i >= start
        invariant spec == Prepend(kids, ParsePredicates(Ahead()))
        decreases |toks| - i
      {
        ghost var before := Ahead();
        var n := Chain();
        if n.Err? {
          return Err(n.error);
        }
        var comma := PeekIsComma();
        if !comma {
          return Ok(kids + [n.value]);
        }
        Skip();
        assert ParsePredicates(before) == Prepend([n.value], ParsePredicates(Ahead()));
        PrependTwice(kids, [n.value], ParsePredicates(Ahead()));
        kids := kids + [n.value];
      }
    }

    method Quantifier(op: Op) returns (r: Result<Json, SyntaxError>)
      requires Valid()
      modifies this
      ensures Valid() && Follows(r, ParseQuantifier(op, old(Ahead())))
      decreases |toks| - i, 3
    {
      var f := Field();
      if f.Err? {
        return Err(f.error);
      }
      var comma := ExpectToken(Comma);
      if comma.Err? {
        return Err(comma.error);
      }
      var body := Chain();
      if body.Err? {
        return Err(body.error);
      }
      var close := ExpectToken(RParen);
      if close.Err? {
        return Err(close.error);
      }
      r := Ok(Node(op, [Str(f.value), body.value]));
    }
  }

  /** `parse` on a token list: the result is a tree of the grammar or a syntax error, and
      every tree of the grammar is the result of some token list (`ParserImage`). */
  method ParseAll(toks: seq<Token>) returns (r: Result<Json, SyntaxError>)
    ensures r == ParseTokens(toks)
    ensures r.Ok? ==> Grammar(r.value) && OnlyContextual(Flaws(r.value, false))
  {
    var parser := new Parser(toks);
    assert parser.Ahead() == toks;
    r := parser.Chain();
    if r.Ok? {
      ChainInGrammar(toks);
      ParsedTreeFlaws(r.value, false);
      if parser.i < |toks| {
        r := Err(TrailingToken);
      }
    }
  }

  predicate IsCallable(op: Op) {
    op.And? || op.Or? || op.All? || op.Any? || op.Exists? || op.Count?
  }

  function CallBody(op: Op, ts: seq<Token>): Parse<Json>
    requires IsCallable(op)
  {
    if op.And? || op.Or? then ParseCall(op, ts)
    else if op.All? || op.Any? then ParseQuantifier(op, ts)
    else if op.Exists? then ParseExists(ts)
    else ParseCount(ts)
  }

  function FoldLeft(terms: seq<Json>, ops: seq<Op>): Json
    requires |terms| == |ops| + 1
  {
    if ops == [] then terms[0]
    else Node(ops[|ops| - 1], [FoldLeft(terms[..|terms| - 1], ops[..|ops| - 1]), terms[|terms| - 1]])
  }

  lemma FoldLeftStep(terms: seq<Json>, ops: seq<Op>, t: Json, op: Op)
    requires |terms| == |ops| + 1
    ensures FoldLeft(terms + [t], ops + [op]) == Node(op, [FoldLeft(terms, ops), t])
  {
    assert (terms + [t])[..|terms|] == terms && (ops + [op])[..|ops|] == ops;
  }

  lemma PrependNothing<T>(p: Parse<seq<T>>)
    ensures Prepend([], p) == p
  {
    if p.Parsed? {
      assert [] + p.value == p.value;
    }
  }

  lemma PrependTwice<T>(a: seq<T>, b: seq<T>, p: Parse<seq<T>>)
    ensures Prepend(a, Prepend(b, p)) == Prepend(a + b, p)
  {
    if p.Parsed? {
      ConcatAssociates(a, b, p.value);
    }
  }

  /** Values already read, put before those still to come. */
  function Prepend<T>(done: seq<T>, p: Parse<seq<T>>): Parse<seq<T>> {
    match p
    case Parsed(more, rest) => Parsed(done + more, rest)
    case Rejected(e) => Rejected(e)
  }
}
