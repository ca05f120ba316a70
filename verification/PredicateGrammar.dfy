/** The grammar of level-0 predicates: what a token list parses to, which trees can be
    written, and how they are written in function form. */
module PredicateGrammar {
  import opened Common
  import opened JsonValues
  import opened PredicateAst

  type CmpOp = op: Op | IsComparison(op) witness Eq

  /** Lexer output.  Numbers and strings carry the value `int`, `float` or `_unescape`
      gives their text. */
  datatype Token =
    | LParen | RParen | LBrace | RBrace | Comma
    | Cmp(op: CmpOp)
    | IntTok(whole: int)
    | FloatTok(quantity: real)
    | StrTok(text: string)
    | Word(word: string)

  datatype SyntaxError = UnexpectedEnd | Expected(what: string) | BadFieldPath(word: string) | TrailingToken

  /** A parsed value and the tokens left over, or a syntax error. */
  datatype Parse<+T> = Parsed(value: T, rest: seq<Token>) | Rejected(error: SyntaxError)

  function Keyword(ts: seq<Token>): Option<Op> {
    if ts != [] && ts[0].Word? then OpOf(ts[0].word) else None
  }

  function Expect(ts: seq<Token>, t: Token): (p: Parse<Token>)
    ensures p.Parsed? ==> ts == [t] + p.rest
  {
    if ts == [] then Rejected(UnexpectedEnd)
    else if ts[0] == t then Parsed(t, ts[1..])
    else Rejected(Expected("token"))
  }

  function ParseField(ts: seq<Token>): (p: Parse<string>)
    ensures p.Parsed? ==> |p.rest| < |ts| && IsFieldRef(p.value)
  {
    if ts == [] then Rejected(UnexpectedEnd)
    else if !ts[0].Word? then Rejected(Expected("field path"))
    else if !IsFieldRef(ts[0].word) then Rejected(BadFieldPath(ts[0].word))
    else Parsed(ts[0].word, ts[1..])
  }

  /** A field is one word: a single dot, or what the automaton of field paths accepts. */
  lemma FieldIsReadIff(ts: seq<Token>, f: string, rest: seq<Token>)
    requires f == "" || f[|f| - 1] != '\n'
    ensures ParseField(ts) == Parsed(f, rest) <==> ts == [Word(f)] + rest && (f == "." || Scans(f, true))
  {
    FieldPathIsScanned(f);
    if ts != [] {
      assert ts == [ts[0]] + ts[1..];
    }
  }

  function ParseCmp(ts: seq<Token>): (p: Parse<CmpOp>)
    ensures p.Parsed? ==> |p.rest| < |ts|
  {
    if ts == [] then Rejected(UnexpectedEnd)
    else if ts[0].Cmp? then Parsed(ts[0].op, ts[1..])
    else Rejected(Expected("comparison"))
  }

  function ParseNumber(ts: seq<Token>): (p: Parse<Json>)
    ensures p.Parsed? ==> |p.rest| < |ts| && IsNumber(p.value)
  {
    if ts == [] then Rejected(UnexpectedEnd)
    else
      match ts[0]
      case IntTok(i) => Parsed(Int(i), ts[1..])
      case FloatTok(r) => Parsed(Float(r), ts[1..])
      case _ => Rejected(Expected("number"))
  }

  function ParseLiteral(ts: seq<Token>): (p: Parse<Json>)
    ensures p.Parsed? ==> |p.rest| < |ts| && IsScalar(p.value)
  {
    if ts == [] then Rejected(UnexpectedEnd)
    else
      match ts[0]
      case StrTok(s) => Parsed(Str(s), ts[1..])
      case IntTok(i) => Parsed(Int(i), ts[1..])
      case FloatTok(r) => Parsed(Float(r), ts[1..])
      case Word(w) =>
        if w == "true" then Parsed(Bool(true), ts[1..])
        else if w == "false" then Parsed(Bool(false), ts[1..])
        else Rejected(Expected("literal"))
      case _ => Rejected(Expected("literal"))
  }

  /** One or more literals separated by commas. */
  function ParseMembers(ts: seq<Token>): (p: Parse<seq<Json>>)
    ensures p.Parsed? ==> |p.rest| < |ts| && p.value != [] && forall m :: m in p.value ==> IsScalar(m)
    decreases |ts|
  {
    match ParseLiteral(ts)
    case Rejected(e) => Rejected(e)
    case Parsed(m, rest) =>
      if rest == [] || !rest[0].Comma? then Parsed([m], rest)
      else
        match ParseMembers(rest[1..])
        case Rejected(e) => Rejected(e)
        case Parsed(ms, rest2) => Parsed([m] + ms, rest2)
  }

  /** `field cmp literal` or `field in { literals }`. */
  function ParseComparison(ts: seq<Token>): (p: Parse<Json>)
    ensures p.Parsed? ==> |p.rest| < |ts|
  {
    match ParseField(ts)
    case Rejected(e) => Rejected(e)
    case Parsed(f, rest) =>
      if Keyword(rest) == Some(In) then
        match Expect(rest[1..], LBrace)
        case Rejected(e) => Rejected(e)
        case Parsed(_, rest2) =>
          match ParseMembers(rest2)
          case Rejected(e) => Rejected(e)
          case Parsed(ms, rest3) =>
            match Expect(rest3, RBrace)
            case Rejected(e) => Rejected(e)
            case Parsed(_, rest4) => Parsed(Node(In, [Str(f), List(ms)]), rest4)
      else
        match ParseCmp(rest)
        case Rejected(e) => Rejected(e)
        case Parsed(op, rest2) =>
          match ParseLiteral(rest2)
          case Rejected(e) => Rejected(e)
          case Parsed(lit, rest3) => Parsed(Node(op, [Str(f), lit]), rest3)
  }

  /** After `exists (`. */
  function ParseExists(ts: seq<Token>): (p: Parse<Json>)
    ensures p.Parsed? ==> |p.rest| < |ts|
  {
    match ParseField(ts)
    case Rejected(e) => Rejected(e)
    case Parsed(f, rest) =>
      match Expect(rest, RParen)
      case Rejected(e) => Rejected(e)
      case Parsed(_, rest2) => Parsed(Node(Exists, [Str(f)]), rest2)
  }

  /** After `count (`. */
  function ParseCount(ts: seq<Token>): (p: Parse<Json>)
    ensures p.Parsed? ==> |p.rest| < |ts|
  {
    match ParseField(ts)
    case Rejected(e) => Rejected(e)
    case Parsed(f, rest) =>
      match Expect(rest, RParen)
      case Rejected(e) => Rejected(e)
      case Parsed(_, rest2) =>
        match ParseCmp(rest2)
        case Rejected(e) => Rejected(e)
        case Parsed(op, rest3) =>
          match ParseNumber(rest3)
          case Rejected(e) => Rejected(e)
          case Parsed(bound, rest4) => Parsed(Node(Count, [Str(f), Str(OpText(op)), bound]), rest4)
  }

  function ParseChain(ts: seq<Token>): (p: Parse<Json>)
    ensures p.Parsed? ==> |p.rest| < |ts|
    decreases |ts|, 2
  {
    match ParseTerm(ts)
    case Rejected(e) => Rejected(e)
    case Parsed(n, rest) => ParseChainRest(n, rest)
  }

  /** Left-associative continuation with `and` / `or`. */
  function ParseChainRest(n: Json, ts: seq<Token>): (p: Parse<Json>)
    ensures p.Parsed? ==> |p.rest| <= |ts|
    decreases |ts|, 0
  {
    if Keyword(ts) == Some(And) || Keyword(ts) == Some(Or) then
      match ParseTerm(ts[1..])
      case Rejected(e) => Rejected(e)
      case Parsed(t, rest) => ParseChainRest(Node(Keyword(ts).value, [n, t]), rest)
    else Parsed(n, ts)
  }

  function ParseTerm(ts: seq<Token>): (p: Parse<Json>)
    ensures p.Parsed? ==> |p.rest| < |ts|
    decreases |ts|, 1
  {
    if Keyword(ts) == Some(Not) then
      match ParseTerm(ts[1..])
      case Rejected(e) => Rejected(e)
      case Parsed(n, rest) => Parsed(Node(Not, [n]), rest)
    else ParseAtom(ts)
  }

  function ParseAtom(ts: seq<Token>): (p: Parse<Json>)
    ensures p.Parsed? ==> |p.rest| < |ts|
    decreases |ts|, 0
  {
    if ts == [] then Rejected(UnexpectedEnd)
    else if ts[0].LParen? then
      match ParseChain(ts[1..])
      case Rejected(e) => Rejected(e)
      case Parsed(n, rest) =>
        match Expect(rest, RParen)
        case Rejected(e) => Rejected(e)
        case Parsed(_, rest2) => Parsed(n, rest2)
    else if !ts[0].Word? then Rejected(Expected("predicate"))
    else if |ts| > 1 && ts[1].LParen? && Keyword(ts).Some? then
      match Keyword(ts).value
      case And => ParseCall(And, ts[2..])
      case Or => ParseCall(Or, ts[2..])
      case All => ParseQuantifier(All, ts[2..])
      case Any => ParseQuantifier(Any, ts[2..])
      case Exists => ParseExists(ts[2..])
      case Count => ParseCount(ts[2..])
      case _ => ParseComparison(ts)
    else ParseComparison(ts)
  }

  /** After `and (` or `or (`. */
  function ParseCall(op: Op, ts: seq<Token>): (p: Parse<Json>)
    ensures p.Parsed? ==> |p.rest| < |ts|
    decreases |ts|, 4
  {
    match ParsePredicates(ts)
    case Rejected(e) => Rejected(e)
    case Parsed(kids, rest) =>
      match Expect(rest, RParen)
      case Rejected(e) => Rejected(e)
      case Parsed(_, rest2) => Parsed(Node(op, kids), rest2)
  }

  function ParsePredicates(ts: seq<Token>): (p: Parse<seq<Json>>)
    ensures p.Parsed? ==> |p.rest| < |ts|
    decreases |ts|, 3
  {
    match ParseChain(ts)
    case Rejected(e) => Rejected(e)
    case Parsed(n, rest) =>
      if rest == [] || !rest[0].Comma? then Parsed([n], rest)
      else
        match ParsePredicates(rest[1..])
        case Rejected(e) => Rejected(e)
        case Parsed(ns, rest2) => Parsed([n] + ns, rest2)
  }

  /** After `all (` or `any (`. */
  function ParseQuantifier(op: Op, ts: seq<Token>): (p: Parse<Json>)
    ensures p.Parsed? ==> |p.rest| < |ts|
    decreases |ts|, 4
  {
    match ParseField(ts)
    case Rejected(e) => Rejected(e)
    case Parsed(f, rest) =>
      match Expect(rest, Comma)
      case Rejected(e) => Rejected(e)
      case Parsed(_, rest2) =>
        match ParseChain(rest2)
        case Rejected(e) => Rejected(e)
        case Parsed(n, rest3) =>
          match Expect(rest3, RParen)
          case Rejected(e) => Rejected(e)
          case Parsed(_, rest4) => Parsed(Node(op, [Str(f), n]), rest4)
  }

  /** A whole token list must be one predicate. */
  function ParseTokens(ts: seq<Token>): Result<Json, SyntaxError> {
    match ParseChain(ts)
    case Rejected(e) => Err(e)
    case Parsed(n, rest) => if rest == [] then Ok(n) else Err(TrailingToken)
  }
}
