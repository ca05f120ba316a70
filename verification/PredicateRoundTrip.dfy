/** The parser and the grammar describe the same trees: everything it returns belongs to
    the documented grammar, and every tree of the grammar can be written and read back. */
module PredicateRoundTrip {
  import opened Common
  import opened JsonValues
  import opened PredicateAst
  import opened PredicateEval
  import opened PredicateValidate
  import opened PredicateCanon
  import opened PredicateGrammar

  // ----- the documented grammar -----

  /** The field of a comparison may not be spelled `not`: that word always starts a
      negation. */
  predicate ComparedField(v: Json) {
    v.Str? && IsFieldRef(v.text) && OpOf(v.text) != Some(Not)
  }

  predicate GrammarLeaf(op: Op, args: seq<Json>)
    requires IsLeaf(op)
  {
    && |args| == LeafArity(op)
    && match op
       case Exists => args[0].Str? && IsFieldRef(args[0].text)
       case Count => args[0].Str? && IsFieldRef(args[0].text) && NamesComparison(args[1]) && IsNumber(args[2])
       case In =>
         ComparedField(args[0]) && args[1].List? && args[1].items != []
         && forall m :: m in args[1].items ==> IsScalar(m)
       case _ => ComparedField(args[0]) && IsScalar(args[1])
  }

  predicate Grammar(n: Json)
    decreases n, 0
  {
    HeadOp(n).Some? && GrammarOp(HeadOp(n).value, n.items[1..])
  }

  predicate GrammarOp(op: Op, args: seq<Json>)
    decreases args, 1
  {
    if op.And? || op.Or? then args != [] && GrammarKids(args)
    else if op.Not? then |args| == 1 && Grammar(args[0])
    else if op.All? || op.Any? then
      |args| == 2 && args[0].Str? && IsFieldRef(args[0].text) && Grammar(args[1])
    else GrammarLeaf(op, args)
  }

  predicate GrammarKids(kids: seq<Json>)
    decreases kids, 0
  {
    kids == [] || (Grammar(kids[0]) && GrammarKids(kids[1..]))
  }

  lemma GrammarNode(op: Op, args: seq<Json>)
    ensures Grammar(Node(op, args)) <==> GrammarOp(op, args)
  {
    NodeHeadOp(op, args);
  }

  // ----- what the parser returns is in the grammar -----

  lemma ComparisonInGrammar(ts: seq<Token>)
    requires ParseComparison(ts).Parsed? && Keyword(ts) != Some(Not)
    ensures Grammar(ParseComparison(ts).value)
  {
    var field := ParseField(ts);
    if Keyword(field.rest) == Some(In) {
      var ms := ParseMembers(field.rest[2..]).value;
      GrammarNode(In, [Str(field.value), List(ms)]);
    } else {
      var op := ParseCmp(field.rest).value;
      GrammarNode(op, [Str(field.value), ParseLiteral(field.rest[1..]).value]);
    }
  }

  lemma SimpleCallsInGrammar(ts: seq<Token>)
    ensures ParseExists(ts).Parsed? ==> Grammar(ParseExists(ts).value)
    ensures ParseCount(ts).Parsed? ==> Grammar(ParseCount(ts).value)
  {
    if ParseExists(ts).Parsed? {
      GrammarNode(Exists, [Str(ParseField(ts).value)]);
    }
    if ParseCount(ts).Parsed? {
      var op := ParseCmp(ts[2..]).value;
      OpRoundTrip(op);
      GrammarNode(Count, [Str(ParseField(ts).value), Str(OpText(op)), ParseNumber(ts[3..]).value]);
    }
  }

  lemma {:induction false} ChainInGrammar(ts: seq<Token>)
    requires ParseChain(ts).Parsed?
    ensures Grammar(ParseChain(ts).value)
    decreases |ts|, 2
  {
    TermInGrammar(ts);
    ChainRestInGrammar(ParseTerm(ts).value, ParseTerm(ts).rest);
  }

  lemma {:induction false} ChainRestInGrammar(n: Json, ts: seq<Token>)
    requires Grammar(n) && ParseChainRest(n, ts).Parsed?
    ensures Grammar(ParseChainRest(n, ts).value)
    decreases |ts|, 0
  {
    if Keyword(ts) == Some(And) || Keyword(ts) == Some(Or) {
      var op, term := Keyword(ts).value, ParseTerm(ts[1..]);
      TermInGrammar(ts[1..]);
      assert GrammarKids([term.value]);
      assert [n, term.value][1..] == [term.value];
      GrammarNode(op, [n, term.value]);
      ChainRestInGrammar(Node(op, [n, term.value]), term.rest);
    }
  }

  lemma {:induction false} TermInGrammar(ts: seq<Token>)
    requires ParseTerm(ts).Parsed?
    ensures Grammar(ParseTerm(ts).value)
    decreases |ts|, 1
  {
    if Keyword(ts) == Some(Not) {
      TermInGrammar(ts[1..]);
      GrammarNode(Not, [ParseTerm(ts[1..]).value]);
    } else {
      AtomInGrammar(ts);
    }
  }

  lemma {:induction false} AtomInGrammar(ts: seq<Token>)
    requires ParseAtom(ts).Parsed? && Keyword(ts) != Some(Not)
    ensures Grammar(ParseAtom(ts).value)
    decreases |ts|, 0
  {
    if ts[0].LParen? {
      ChainInGrammar(ts[1..]);
    } else if |ts| > 1 && ts[1].LParen? && Keyword(ts).Some? {
      match Keyword(ts).value
      case And => CallInGrammar(And, ts[2..]);
      case Or => CallInGrammar(Or, ts[2..]);
      case All => QuantifierInGrammar(All, ts[2..]);
      case Any => QuantifierInGrammar(Any, ts[2..]);
      case Exists => SimpleCallsInGrammar(ts[2..]);
      case Count => SimpleCallsInGrammar(ts[2..]);
      case _ => ComparisonInGrammar(ts);
    } else {
      ComparisonInGrammar(ts);
    }
  }

  lemma {:induction false} CallInGrammar(op: Op, ts: seq<Token>)
    requires (op.And? || op.Or?) && ParseCall(op, ts).Parsed?
    ensures Grammar(ParseCall(op, ts).value)
    decreases |ts|, 4
  {
    PredicatesInGrammar(ts);
    GrammarNode(op, ParsePredicates(ts).value);
  }

  lemma {:induction false} PredicatesInGrammar(ts: seq<Token>)
    requires ParsePredicates(ts).Parsed?
    ensures ParsePredicates(ts).value != [] && GrammarKids(ParsePredicates(ts).value)
    decreases |ts|, 3
  {
    var first := ParseChain(ts);
    ChainInGrammar(ts);
    if first.rest != [] && first.rest[0].Comma? {
      PredicatesInGrammar(first.rest[1..]);
      var more := ParsePredicates(first.rest[1..]).value;
      assert ([first.value] + more)[1..] == more;
    }
  }

  lemma {:induction false} QuantifierInGrammar(op: Op, ts: seq<Token>)
    requires (op.All? || op.Any?) && ParseQuantifier(op, ts).Parsed?
    ensures Grammar(ParseQuantifier(op, ts).value)
    decreases |ts|, 4
  {
    var field := ParseField(ts);
    var body := Expect(field.rest, Comma).rest;
    ChainInGrammar(body);
    GrammarNode(op, [Str(field.value), ParseChain(body).value]);
  }

  // ----- writing a tree in function form -----

  function LiteralToken(v: Json): Token
    requires IsScalar(v)
  {
    match v
    case Str(s) => StrTok(s)
    case Int(i) => IntTok(i)
    case Float(r) => FloatTok(r)
    case Bool(b) => Word(if b then "true" else "false")
  }

  /** The tokens of a set's members, followed by `rest`. */
  function WriteMembers(ms: seq<Json>, rest: seq<Token>): seq<Token>
    requires ms != [] && forall m :: m in ms ==> IsScalar(m)
  {
    if |ms| == 1 then [LiteralToken(ms[0])] + rest
    else [LiteralToken(ms[0]), Comma] + WriteMembers(ms[1..], rest)
  }

  function WriteLeaf(op: Op, args: seq<Json>, rest: seq<Token>): seq<Token>
    requires IsLeaf(op) && GrammarLeaf(op, args)
  {
    match op
    case Exists => [Word(OpText(op)), LParen] + ([Word(args[0].text), RParen] + rest)
    case Count =>
      [Word(OpText(op)), LParen]
      + ([Word(args[0].text), RParen] + ([Cmp(OpOf(args[1].text).value), LiteralToken(args[2])] + rest))
    case In =>
      [Word(args[0].text), Word(OpText(In))] + ([LBrace] + WriteMembers(args[1].items, [RBrace] + rest))
    case _ => [Word(args[0].text), Cmp(op)] + ([LiteralToken(args[1])] + rest)
  }

  /** The tokens of a tree in function form, followed by `rest`. */
  function Write(n: Json, rest: seq<Token>): seq<Token>
    requires Grammar(n)
    decreases n, 0
  {
    WriteOp(HeadOp(n).value, n.items[1..], rest)
  }

  function WriteOp(op: Op, args: seq<Json>, rest: seq<Token>): seq<Token>
    requires GrammarOp(op, args)
    decreases args, 1
  {
    if op.And? || op.Or? then [Word(OpText(op)), LParen] + WriteKids(args, [RParen] + rest)
    else if op.Not? then [Word(OpText(op)), LParen] + Write(args[0], [RParen] + rest)
    else if op.All? || op.Any? then
      [Word(OpText(op)), LParen] + ([Word(args[0].text), Comma] + Write(args[1], [RParen] + rest))
    else WriteLeaf(op, args, rest)
  }

  function WriteKids(kids: seq<Json>, rest: seq<Token>): seq<Token>
    requires kids != [] && GrammarKids(kids)
    decreases kids, 0
  {
    if |kids| == 1 then Write(kids[0], rest)
    else Write(kids[0], [Comma] + WriteKids(kids[1..], rest))
  }

  /** The tokens that may follow a complete chain. */
  predicate EndsChain(rest: seq<Token>) {
    Keyword(rest) != Some(And) && Keyword(rest) != Some(Or)
  }

  lemma LiteralReadsBack(v: Json, rest: seq<Token>)
    requires IsScalar(v)
    ensures ParseLiteral([LiteralToken(v)] + rest) == Parsed(v, rest)
    ensures IsNumber(v) ==> ParseNumber([LiteralToken(v)] + rest) == Parsed(v, rest)
  {
    assert ([LiteralToken(v)] + rest)[1..] == rest;
  }

  lemma {:induction false} MembersReadBack(ms: seq<Json>, rest: seq<Token>)
    requires ms != [] && forall m :: m in ms ==> IsScalar(m)
    requires rest == [] || !rest[0].Comma?
    ensures ParseMembers(WriteMembers(ms, rest)) == Parsed(ms, rest)
  {
    var ts := WriteMembers(ms, rest);
    if |ms| == 1 {
      LiteralReadsBack(ms[0], rest);
      assert ms == [ms[0]];
    } else {
      var tail := WriteMembers(ms[1..], rest);
      LiteralReadsBack(ms[0], [Comma] + tail);
      assert ts == [LiteralToken(ms[0])] + ([Comma] + tail);
      MembersReadBack(ms[1..], rest);
      assert ([Comma] + tail)[1..] == tail && ms == [ms[0]] + ms[1..];
    }
  }

  /** A keyword followed by a parenthesis selects the parser of that call. */
  lemma CallDispatch(op: Op, body: seq<Token>)
    ensures op.And? || op.Or? ==> ParseTerm([Word(OpText(op)), LParen] + body) == ParseCall(op, body)
    ensures op.All? || op.Any? ==> ParseTerm([Word(OpText(op)), LParen] + body) == ParseQuantifier(op, body)
    ensures op.Exists? ==> ParseTerm([Word(OpText(op)), LParen] + body) == ParseExists(body)
    ensures op.Count? ==> ParseTerm([Word(OpText(op)), LParen] + body) == ParseCount(body)
  {
    var ts := [Word(OpText(op)), LParen] + body;
    OpRoundTrip(op);
    assert ts[2..] == body;
    assert op.And? || op.Or? || op.All? || op.Any? || op.Exists? || op.Count? ==> ParseTerm(ts) == ParseAtom(ts);
  }

  lemma ComparisonDispatch(f: string, second: Token, body: seq<Token>)
    requires OpOf(f) != Some(Not) && !second.LParen?
    ensures ParseTerm([Word(f), second] + body) == ParseComparison([Word(f), second] + body)
  {
    var ts := [Word(f), second] + body;
    assert ParseTerm(ts) == ParseAtom(ts);
  }

  lemma ExistsReadsBack(f: string, rest: seq<Token>)
    requires IsFieldRef(f)
    ensures ParseExists([Word(f), RParen] + rest) == Parsed(Node(Exists, [Str(f)]), rest)
  {
    var ts := [Word(f), RParen] + rest;
    assert ts[1..] == [RParen] + rest && ts[1..][1..] == rest;
  }

  lemma CountReadsBack(f: string, op: CmpOp, bound: Json, rest: seq<Token>)
    requires IsFieldRef(f) && IsNumber(bound)
    ensures ParseCount([Word(f), RParen] + ([Cmp(op), LiteralToken(bound)] + rest))
            == Parsed(Node(Count, [Str(f), Str(OpText(op)), bound]), rest)
  {
    var tail := [Cmp(op), LiteralToken(bound)] + rest;
    var ts := [Word(f), RParen] + tail;
    assert ts[1..][1..] == tail;
    assert tail[1..] == [LiteralToken(bound)] + rest;
    LiteralReadsBack(bound, rest);
  }

  lemma ComparisonReadsBack(f: string, op: CmpOp, lit: Json, rest: seq<Token>)
    requires IsFieldRef(f) && IsScalar(lit)
    ensures ParseComparison([Word(f), Cmp(op)] + ([LiteralToken(lit)] + rest)) == Parsed(Node(op, [Str(f), lit]), rest)
  {
    var ts := [Word(f), Cmp(op)] + ([LiteralToken(lit)] + rest);
    assert ts[1..][1..] == [LiteralToken(lit)] + rest;
    LiteralReadsBack(lit, rest);
  }

  lemma InReadsBack(f: string, ms: seq<Json>, rest: seq<Token>)
    requires IsFieldRef(f) && ms != [] && forall m :: m in ms ==> IsScalar(m)
    ensures ParseComparison([Word(f), Word(OpText(In))] + ([LBrace] + WriteMembers(ms, [RBrace] + rest)))
            == Parsed(Node(In, [Str(f), List(ms)]), rest)
  {
    var tail := WriteMembers(ms, [RBrace] + rest);
    var ts := [Word(f), Word(OpText(In))] + ([LBrace] + tail);
    OpRoundTrip(In);
    assert ts[1..][1..] == [LBrace] + tail && ([LBrace] + tail)[1..] == tail;
    MembersReadBack(ms, [RBrace] + rest);
    assert ([RBrace] + rest)[1..] == rest;
  }

  lemma LeafReadsBack(op: Op, args: seq<Json>, rest: seq<Token>)
    requires IsLeaf(op) && GrammarLeaf(op, args)
    ensures ParseTerm(WriteLeaf(op, args, rest)) == Parsed(Node(op, args), rest)
  {
    if op.Exists? {
      CallDispatch(op, [Word(args[0].text), RParen] + rest);
      ExistsReadsBack(args[0].text, rest);
      assert args == [args[0]];
    } else if op.Count? {
      CountLeafReadsBack(args, rest);
    } else if op.In? {
      InLeafReadsBack(args, rest);
    } else {
      ComparisonDispatch(args[0].text, Cmp(op), [LiteralToken(args[1])] + rest);
      ComparisonReadsBack(args[0].text, op, args[1], rest);
      assert args == [args[0], args[1]];
    }
  }

  lemma CountLeafReadsBack(args: seq<Json>, rest: seq<Token>)
    requires GrammarLeaf(Count, args)
    ensures ParseTerm(WriteLeaf(Count, args, rest)) == Parsed(Node(Count, args), rest)
  {
    var cmp := OpOf(args[1].text).value;
    OpOfSound(args[1].text);
    CallDispatch(Count, [Word(args[0].text), RParen] + ([Cmp(cmp), LiteralToken(args[2])] + rest));
    CountReadsBack(args[0].text, cmp, args[2], rest);
    assert args == [args[0], args[1], args[2]];
  }

  lemma InLeafReadsBack(args: seq<Json>, rest: seq<Token>)
    requires GrammarLeaf(In, args)
    ensures ParseTerm(WriteLeaf(In, args, rest)) == Parsed(Node(In, args), rest)
  {
    ComparisonDispatch(args[0].text, Word(OpText(In)), [LBrace] + WriteMembers(args[1].items, [RBrace] + rest));
    InReadsBack(args[0].text, args[1].items, rest);
    assert args == [args[0], args[1]];
  }

  lemma {:induction false} TermReadsBack(n: Json, rest: seq<Token>)
    requires Grammar(n)
    ensures ParseTerm(Write(n, rest)) == Parsed(n, rest)
    decreases n, 0
  {
    HeadOpNode(n);
    OpReadsBack(HeadOp(n).value, n.items[1..], rest);
  }

  lemma {:induction false} ChainReadsBack(n: Json, rest: seq<Token>)
    requires Grammar(n) && EndsChain(rest)
    ensures ParseChain(Write(n, rest)) == Parsed(n, rest)
    decreases n, 1
  {
    TermReadsBack(n, rest);
  }

  lemma {:induction false} OpReadsBack(op: Op, args: seq<Json>, rest: seq<Token>)
    requires GrammarOp(op, args)
    ensures ParseTerm(WriteOp(op, args, rest)) == Parsed(Node(op, args), rest)
    decreases args, 1
  {
    if op.And? || op.Or? {
      KidsReadBack(args, [RParen] + rest);
      CallDispatch(op, WriteKids(args, [RParen] + rest));
      assert ([RParen] + rest)[1..] == rest;
    } else if op.Not? {
      ChainReadsBack(args[0], [RParen] + rest);
      NegationReadsBack(args[0], Write(args[0], [RParen] + rest), rest);
      assert args == [args[0]];
    } else if op.All? || op.Any? {
      ChainReadsBack(args[1], [RParen] + rest);
      QuantifierReadsBack(op, args, Write(args[1], [RParen] + rest), rest);
    } else {
      LeafReadsBack(op, args, rest);
    }
  }

  lemma NegationReadsBack(n: Json, body: seq<Token>, rest: seq<Token>)
    requires ParseChain(body) == Parsed(n, [RParen] + rest)
    ensures ParseTerm([Word(OpText(Not)), LParen] + body) == Parsed(Node(Not, [n]), rest)
  {
    var ts := [Word(OpText(Not)), LParen] + body;
    var inner := ts[1..];
    OpRoundTrip(Not);
    assert inner == [LParen] + body && inner[1..] == body && ([RParen] + rest)[1..] == rest;
    assert ParseAtom(inner) == Parsed(n, rest);
    assert ParseTerm(inner) == ParseAtom(inner);
  }

  lemma QuantifierReadsBack(op: Op, args: seq<Json>, body: seq<Token>, rest: seq<Token>)
    requires (op.All? || op.Any?) && |args| == 2 && args[0].Str? && IsFieldRef(args[0].text)
    requires ParseChain(body) == Parsed(args[1], [RParen] + rest)
    ensures ParseTerm([Word(OpText(op)), LParen] + ([Word(args[0].text), Comma] + body)) == Parsed(Node(op, args), rest)
  {
    var ts := [Word(args[0].text), Comma] + body;
    CallDispatch(op, ts);
    assert ts[1..] == [Comma] + body && ts[1..][1..] == body && ([RParen] + rest)[1..] == rest;
    assert args == [args[0], args[1]];
  }

  lemma {:induction false} KidsReadBack(kids: seq<Json>, rest: seq<Token>)
    requires kids != [] && GrammarKids(kids)
    requires EndsChain(rest) && (rest == [] || !rest[0].Comma?)
    ensures ParsePredicates(WriteKids(kids, rest)) == Parsed(kids, rest)
    decreases kids, 0
  {
    if |kids| == 1 {
      ChainReadsBack(kids[0], rest);
      assert kids == [kids[0]];
    } else {
      var tail := WriteKids(kids[1..], rest);
      ChainReadsBack(kids[0], [Comma] + tail);
      KidsReadBack(kids[1..], rest);
      assert ([Comma] + tail)[1..] == tail && kids == [kids[0]] + kids[1..];
    }
  }

  /** Every tree of the grammar, written in function form, is read back unchanged. */
  lemma WrittenTreeReadsBack(n: Json)
    requires Grammar(n)
    ensures ParseTokens(Write(n, [])) == Ok(n)
  {
    ChainReadsBack(n, []);
  }

  /** The parser's results are exactly the trees of the grammar. */
  lemma ParserImage(n: Json)
    ensures (exists ts :: ParseTokens(ts) == Ok(n)) <==> Grammar(n)
  {
    if Grammar(n) {
      WrittenTreeReadsBack(n);
    }
    if ts :| ParseTokens(ts) == Ok(n) {
      ChainInGrammar(ts);
    }
  }

  // ----- infix and function form -----

  /** `t0 op t1 op ... tn`, each operand in function form, followed by `rest`. */
  function WriteInfix(op: Op, terms: seq<Json>, rest: seq<Token>): seq<Token>
    requires terms != [] && GrammarKids(terms)
  {
    if |terms| == 1 then Write(terms[0], rest)
    else Write(terms[0], [Word(OpText(op))] + WriteInfix(op, terms[1..], rest))
  }

  /** The chain after its first operand has been read as `left`. */
  function Extend(op: Op, left: Json, terms: seq<Json>): Json
    decreases |terms|
  {
    if terms == [] then left else Extend(op, Node(op, [left, terms[0]]), terms[1..])
  }

  lemma {:induction false} ExtendIsLeftChain(op: Op, done: seq<Json>, terms: seq<Json>)
    requires done != []
    ensures Extend(op, LeftChain(op, done), terms) == LeftChain(op, done + terms)
    decreases |terms|
  {
    if terms == [] {
      assert done + terms == done;
    } else {
      var next := done + [terms[0]];
      assert next[..|next| - 1] == done;
      ExtendIsLeftChain(op, next, terms[1..]);
      assert next + terms[1..] == done + terms;
    }
  }

  lemma {:induction false} InfixReadsBack(op: Op, left: Json, terms: seq<Json>, rest: seq<Token>)
    requires (op.And? || op.Or?) && terms != [] && GrammarKids(terms) && EndsChain(rest)
    ensures ParseChainRest(left, [Word(OpText(op))] + WriteInfix(op, terms, rest))
            == Parsed(Extend(op, left, terms), rest)
    decreases |terms|
  {
    var tail := WriteInfix(op, terms, rest);
    var ts := [Word(OpText(op))] + tail;
    OpRoundTrip(op);
    assert ts[1..] == tail;
    var joined := Node(op, [left, terms[0]]);
    if |terms| == 1 {
      TermReadsBack(terms[0], rest);
      assert ParseChainRest(joined, rest) == Parsed(joined, rest);
      assert Extend(op, joined, terms[1..]) == joined;
    } else {
      var more := [Word(OpText(op))] + WriteInfix(op, terms[1..], rest);
      TermReadsBack(terms[0], more);
      InfixReadsBack(op, joined, terms[1..], rest);
    }
  }

  /** Operands joined infix and the same operands in one call parse to trees with the
      same canonical form, hence the same replay key. */
  lemma InfixAndCallAgree(op: Op, terms: seq<Json>, key: Key)
    requires (op.And? || op.Or?) && |terms| > 1 && GrammarKids(terms)
    ensures Grammar(Node(op, terms))
    ensures ParseTokens(Write(Node(op, terms), [])) == Ok(Node(op, terms))
    ensures ParseTokens(WriteInfix(op, terms, [])) == Ok(LeftChain(op, terms))
    ensures Canon(LeftChain(op, terms), key) == Canon(Node(op, terms), key)
  {
    GrammarNode(op, terms);
    WrittenTreeReadsBack(Node(op, terms));
    var more := [Word(OpText(op))] + WriteInfix(op, terms[1..], []);
    TermReadsBack(terms[0], more);
    InfixReadsBack(op, terms[0], terms[1..], []);
    ExtendIsLeftChain(op, [terms[0]], terms[1..]);
    assert [terms[0]] + terms[1..] == terms;
    ChainMatchesCall(op, terms, key);
  }

  // ----- what validation can still reject -----

  predicate OnlyContextual(flaws: seq<Flaw>) {
    forall f :: f in flaws ==> f.DotOutsideQuantifier? || f.OrderNeedsNumber?
  }

  lemma {:induction false} ScalarMembersHaveNoFlaw(ms: seq<Json>)
    requires forall m :: m in ms ==> IsScalar(m)
    ensures MemberFlaws(ms) == []
  {
    MemberFlawsMeaning(ms);
  }

  /** A tree the parser returned can be rejected only for `.` outside a quantifier or an
      ordering comparison with something other than a number. */
  lemma {:induction false} ParsedTreeFlaws(n: Json, inQuantifier: bool)
    requires Grammar(n)
    ensures OnlyContextual(Flaws(n, inQuantifier))
    decreases n, 0
  {
    ParsedOpFlaws(HeadOp(n).value, n.items[1..], inQuantifier);
  }

  lemma {:induction false} ParsedOpFlaws(op: Op, args: seq<Json>, inQuantifier: bool)
    requires GrammarOp(op, args)
    ensures OnlyContextual(OpFlaws(op, args, inQuantifier))
    decreases args, 1
  {
    if op.And? || op.Or? {
      ParsedKidsFlaws(args, inQuantifier);
    } else if op.Not? {
      ParsedTreeFlaws(args[0], inQuantifier);
    } else if op.All? || op.Any? {
      ParsedTreeFlaws(args[1], true);
    } else if op.In? {
      ScalarMembersHaveNoFlaw(args[1].items);
    }
  }

  lemma {:induction false} ParsedKidsFlaws(kids: seq<Json>, inQuantifier: bool)
    requires GrammarKids(kids)
    ensures OnlyContextual(KidsFlaws(kids, inQuantifier))
    decreases kids, 0
  {
    if kids != [] {
      ParsedTreeFlaws(kids[0], inQuantifier);
      ParsedKidsFlaws(kids[1..], inQuantifier);
    }
  }
}
