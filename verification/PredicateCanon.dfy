/** Canonical forms and replay keys.  `json.dumps` on a set member and the hash of a
    whole canonical form are parameters; where they must not collide, it is said. */
module PredicateCanon {
  import opened Common
  import opened JsonValues
  import opened PredicateAst
  import opened PredicateEval
  import opened PredicateValidate
  import Text

  type Key = Json -> string

  /** The key tells the members of one list apart. */
  ghost predicate Separates(key: Key, members: seq<Json>) {
    forall a, b :: a in members && b in members && key(a) == key(b) ==> a == b
  }

  // ----- sorting and de-duplicating an `in` set -----

  /** Store `m` under its key in a list ordered by key; a later member replaces an equal one. */
  function Insert(m: Json, sorted: seq<Json>, key: Key): seq<Json> {
    if sorted == [] then [m]
    else if key(m) == key(sorted[0]) then [m] + sorted[1..]
    else if Text.Less(key(m), key(sorted[0])) then [m] + sorted
    else [sorted[0]] + Insert(m, sorted[1..], key)
  }

  function SortSet(members: seq<Json>, key: Key): seq<Json> {
    if members == [] then []
    else Insert(members[|members| - 1], SortSet(members[..|members| - 1], key), key)
  }

  ghost predicate KeySorted(s: seq<Json>, key: Key) {
    forall i, j :: 0 <= i < j < |s| ==> Text.Less(key(s[i]), key(s[j]))
  }

  ghost predicate SameMembers(s: seq<Json>, t: seq<Json>) {
    forall x :: x in s <==> x in t
  }

  lemma {:induction false} InsertMembers(m: Json, sorted: seq<Json>, key: Key, x: Json)
    requires Separates(key, [m] + sorted)
    ensures x in Insert(m, sorted, key) <==> x == m || x in sorted
  {
    if sorted != [] {
      assert sorted == [sorted[0]] + sorted[1..];
      assert m in [m] + sorted && sorted[0] in [m] + sorted;
      assert forall y :: y in [m] + sorted[1..] ==> y in [m] + sorted;
      if key(m) != key(sorted[0]) && !Text.Less(key(m), key(sorted[0])) {
        InsertMembers(m, sorted[1..], key, x);
      }
    }
  }

  lemma {:induction false} InsertSorted(m: Json, sorted: seq<Json>, key: Key)
    requires Separates(key, [m] + sorted) && KeySorted(sorted, key)
    ensures KeySorted(Insert(m, sorted, key), key)
  {
    if sorted == [] || key(m) == key(sorted[0]) {
    } else if Text.Less(key(m), key(sorted[0])) {
      forall j | 0 < j < |sorted|
        ensures Text.Less(key(m), key(sorted[j]))
      {
        Text.LessIsTransitive(key(m), key(sorted[0]), key(sorted[j]));
      }
    } else {
      var rest := Insert(m, sorted[1..], key);
      assert forall y :: y in [m] + sorted[1..] ==> y in [m] + sorted;
      InsertSorted(m, sorted[1..], key);
      Text.LessIsTotal(key(m), key(sorted[0]));
      forall j | 0 <= j < |rest|
        ensures Text.Less(key(sorted[0]), key(rest[j]))
      {
        InsertMembers(m, sorted[1..], key, rest[j]);
      }
    }
  }

  /** The canonical set is strictly ordered by key and has exactly the given members. */
  lemma {:induction false} SortSetCorrect(members: seq<Json>, key: Key)
    requires Separates(key, members)
    ensures KeySorted(SortSet(members, key), key) && SameMembers(SortSet(members, key), members)
  {
    if members != [] {
      var front, last := members[..|members| - 1], members[|members| - 1];
      assert members == front + [last];
      SortSetCorrect(front, key);
      assert forall y :: y in [last] + SortSet(front, key) ==> y in members;
      InsertSorted(last, SortSet(front, key), key);
      forall x
        ensures x in SortSet(members, key) <==> x in members
      {
        InsertMembers(last, SortSet(front, key), key, x);
      }
    }
  }

  lemma {:induction false} HeadIsNotInTail(s: seq<Json>, key: Key, x: Json)
    requires s != [] && KeySorted(s, key)
    ensures x in s[1..] <==> x in s && x != s[0]
  {
    assert s == [s[0]] + s[1..];
    if x in s[1..] {
      var i :| 0 < i < |s| && s[i] == x;
      Text.LessIsIrreflexive(key(x));
    }
  }

  /** There is only one strictly ordered list of given members. */
  lemma {:induction false} KeySortedIsUnique(s: seq<Json>, t: seq<Json>, key: Key)
    requires KeySorted(s, key) && KeySorted(t, key) && SameMembers(s, t)
    ensures s == t
  {
    assert s != [] ==> s[0] in t;
    assert t != [] ==> t[0] in s;
    if s != [] {
      var j :| 0 <= j < |t| && t[j] == s[0];
      var i :| 0 <= i < |s| && s[i] == t[0];
      if j > 0 && i > 0 {
        Text.LessIsAsymmetric(key(t[0]), key(s[0]));
      }
      assert s[0] == t[0];
      forall x
        ensures x in s[1..] <==> x in t[1..]
      {
        HeadIsNotInTail(s, key, x);
        HeadIsNotInTail(t, key, x);
      }
      KeySortedIsUnique(s[1..], t[1..], key);
    }
  }

  // ----- canonical form -----

  /** `canonical`, with Python tuples as lists.  Only sets given as lists are sorted. */
  function Canon(n: Json, key: Key): Json
    decreases n, 0
  {
    if !n.List? then n
    else if HeadOp(n) == Some(In) && |n.items| == 3 && n.items[2].List? then
      List([n.items[0], n.items[1], List(SortSet(n.items[2].items, key))])
    else if HeadOp(n) == Some(And) || HeadOp(n) == Some(Or) then
      List([n.items[0]] + CanonKids(HeadOp(n).value, n.items[1..], key))
    else List(CanonAll(n.items, key))
  }

  /** A canonical operand of the same connective is spliced in, any other kept whole. */
  function Splice(op: Op, c: Json): seq<Json> {
    if HeadOp(c) == Some(op) then c.items[1..] else [c]
  }

  function CanonKids(op: Op, kids: seq<Json>, key: Key): seq<Json>
    decreases kids, 0
  {
    if kids == [] then [] else Splice(op, Canon(kids[0], key)) + CanonKids(op, kids[1..], key)
  }

  function CanonAll(items: seq<Json>, key: Key): seq<Json>
    decreases items, 0
  {
    if items == [] then [] else [Canon(items[0], key)] + CanonAll(items[1..], key)
  }

  /** The key tells the members of every `in` set of the tree apart. */
  ghost predicate Separated(n: Json, key: Key)
    decreases n, 0
  {
    HeadOp(n).Some? ==> SeparatedArgs(HeadOp(n).value, n.items[1..], key)
  }

  ghost predicate SeparatedArgs(op: Op, args: seq<Json>, key: Key)
    decreases args, 1
  {
    if op.And? || op.Or? then SeparatedKids(args, key)
    else if op.Not? then |args| == 1 ==> Separated(args[0], key)
    else if op.All? || op.Any? then |args| == 2 ==> Separated(args[1], key)
    else if op.In? then |args| == 2 && args[1].List? ==> Separates(key, args[1].items)
    else true
  }

  ghost predicate SeparatedKids(kids: seq<Json>, key: Key)
    decreases kids, 0
  {
    kids == [] || (Separated(kids[0], key) && SeparatedKids(kids[1..], key))
  }

  /** How the arguments of a valid node are rewritten, operator by operator. */
  function CanonArgs(op: Op, args: seq<Json>, key: Key): seq<Json> {
    if op.And? || op.Or? then CanonKids(op, args, key)
    else if op.In? && |args| == 2 && args[1].List? then [args[0], List(SortSet(args[1].items, key))]
    else if op.Not? && |args| == 1 then [Canon(args[0], key)]
    else if (op.All? || op.Any?) && |args| == 2 then [args[0], Canon(args[1], key)]
    else args
  }

  lemma {:induction false} CanonAllOfScalars(items: seq<Json>, key: Key)
    requires forall x :: x in items ==> IsScalar(x)
    ensures CanonAll(items, key) == items
  {
    if items != [] {
      assert items == [items[0]] + items[1..];
      assert items[0] in items;
      CanonAllOfScalars(items[1..], key);
    }
  }

  lemma {:induction false} CanonAllStep(x: Json, rest: seq<Json>, key: Key)
    ensures CanonAll([x] + rest, key) == [Canon(x, key)] + CanonAll(rest, key)
  {
    assert ([x] + rest)[1..] == rest;
  }

  lemma {:induction false} CanonAllOfOne(x: Json, key: Key)
    ensures CanonAll([x], key) == [Canon(x, key)]
  {
    assert [x] + [] == [x];
    CanonAllStep(x, [], key);
  }

  lemma {:induction false} CanonAllMatchesArgs(op: Op, args: seq<Json>, key: Key)
    requires !op.And? && !op.Or? && !op.In?
    requires op.Not? ==> |args| == 1
    requires op.All? || op.Any? ==> |args| == 2 && !args[0].List?
    requires !op.Not? && !op.All? && !op.Any? ==> forall x :: x in args ==> IsScalar(x)
    ensures CanonAll(args, key) == CanonArgs(op, args, key)
  {
    if op.Not? {
      assert args == [args[0]];
      CanonAllOfOne(args[0], key);
    } else if op.All? || op.Any? {
      assert args == [args[0]] + [args[1]];
      CanonAllOfOne(args[1], key);
      CanonAllStep(args[0], [args[1]], key);
    } else {
      CanonAllOfScalars(args, key);
    }
  }

  lemma {:induction false} CanonNode(n: Json, inQuantifier: bool, key: Key)
    requires Valid(n, inQuantifier)
    ensures Canon(n, key) == Node(HeadOp(n).value, CanonArgs(HeadOp(n).value, n.items[1..], key))
  {
    var op, args := HeadOp(n).value, n.items[1..];
    HeadOpNode(n);
    assert n.items == [n.items[0]] + args;
    if !op.And? && !op.Or? && !op.In? {
      assert CanonAll(n.items, key) == [n.items[0]] + CanonAll(args, key);
      if !op.Not? && !op.All? && !op.Any? {
        assert forall x :: x in args ==> IsScalar(x);
      }
      CanonAllMatchesArgs(op, args, key);
    }
  }

  // ----- canonicalising preserves meaning -----

  lemma {:induction false} EvalOfNode(op: Op, args: seq<Json>, scope: Json)
    ensures Eval(Node(op, args), scope) == EvalOp(op, args, scope)
  {
    NodeHeadOp(op, args);
  }

  lemma {:induction false} ConjAppend(a: seq<Json>, b: seq<Json>, scope: Json)
    ensures Conj(a + b, scope) == if Conj(a, scope) == Verdict(true) then Conj(b, scope) else Conj(a, scope)
  {
    if a == [] {
      assert a + b == b;
    } else {
      assert (a + b)[0] == a[0] && (a + b)[1..] == a[1..] + b;
      ConjAppend(a[1..], b, scope);
    }
  }

  lemma {:induction false} DisjAppend(a: seq<Json>, b: seq<Json>, scope: Json)
    ensures Disj(a + b, scope) == if Disj(a, scope) == Verdict(false) then Disj(b, scope) else Disj(a, scope)
  {
    if a == [] {
      assert a + b == b;
    } else {
      assert (a + b)[0] == a[0] && (a + b)[1..] == a[1..] + b;
      DisjAppend(a[1..], b, scope);
    }
  }

  /** A validated predicate and its canonical form give the same boolean, or fail with
      the same error, in every scope. */
  lemma {:induction false} CanonPreservesMeaning(n: Json, inQuantifier: bool, scope: Json, key: Key)
    requires Valid(n, inQuantifier) && Separated(n, key)
    ensures Eval(Canon(n, key), scope) == Eval(n, scope)
    decreases n, 0
  {
    var op, args := HeadOp(n).value, n.items[1..];
    CanonNode(n, inQuantifier, key);
    EvalOfNode(op, CanonArgs(op, args, key), scope);
    CanonArgsMeaning(op, args, inQuantifier, scope, key);
  }

  lemma {:induction false} CanonArgsMeaning(op: Op, args: seq<Json>, inQuantifier: bool, scope: Json, key: Key)
    requires ValidOp(op, args, inQuantifier) && SeparatedArgs(op, args, key)
    ensures EvalOp(op, CanonArgs(op, args, key), scope) == EvalOp(op, args, scope)
    decreases args, 1
  {
    if op.And? || op.Or? {
      CanonKidsMeaning(op, args, inQuantifier, scope, key);
    } else if op.Not? {
      CanonPreservesMeaning(args[0], inQuantifier, scope, key);
    } else if op.All? || op.Any? {
      var found := Lookup(scope, args[0]);
      if found.Value? && found.v.List? {
        CanonElementsMeaning(args[1], found.v.items, key);
      }
    } else if op.In? {
      CanonSetMeaning(args, scope, key);
    }
  }

  lemma {:induction false} CanonSetMeaning(args: seq<Json>, scope: Json, key: Key)
    requires |args| == 2 && args[1].List? && Separates(key, args[1].items)
    ensures EvalLeaf(In, [args[0], List(SortSet(args[1].items, key))], scope) == EvalLeaf(In, args, scope)
  {
    var members := args[1].items;
    SortSetCorrect(members, key);
    forall v
      ensures IsMember(v, SortSet(members, key)) <==> IsMember(v, members)
    {
      if IsMember(v, SortSet(members, key)) {
        MembersDecide(v, SortSet(members, key), members);
      }
      if IsMember(v, members) {
        MembersDecide(v, members, SortSet(members, key));
      }
    }
  }

  lemma {:induction false} MembersDecide(v: Json, s: seq<Json>, t: seq<Json>)
    requires SameMembers(s, t) && IsMember(v, s)
    ensures IsMember(v, t)
  {
    var i :| 0 <= i < |s| && PyEq(v, s[i]);
    assert s[i] in t;
  }

  lemma {:induction false} CanonElementsMeaning(child: Json, elems: seq<Json>, key: Key)
    requires Valid(child, true) && Separated(child, key)
    ensures EveryOf(Canon(child, key), elems) == EveryOf(child, elems)
    ensures SomeOf(Canon(child, key), elems) == SomeOf(child, elems)
    decreases child, 1, |elems|
  {
    if elems != [] {
      CanonPreservesMeaning(child, true, elems[0], key);
      CanonElementsMeaning(child, elems[1..], key);
    }
  }

  /** Flattening one operand of a connective does not change the connective. */
  lemma {:induction false} SpliceMeaning(op: Op, c: Json, rest: seq<Json>, scope: Json)
    requires op.And? || op.Or?
    requires HeadOp(c) == Some(op) ==> c.items[1..] != []
    ensures Splice(op, c) != []
    ensures op.And? ==> Conj(Splice(op, c) + rest, scope) == Conj([c] + rest, scope)
    ensures op.Or? ==> Disj(Splice(op, c) + rest, scope) == Disj([c] + rest, scope)
  {
    if HeadOp(c) == Some(op) {
      assert ([c] + rest)[0] == c && ([c] + rest)[1..] == rest;
      assert Eval(c, scope) == EvalOp(op, c.items[1..], scope);
      ConjAppend(c.items[1..], rest, scope);
      DisjAppend(c.items[1..], rest, scope);
    }
  }

  lemma {:induction false} CanonKidsMeaning(op: Op, kids: seq<Json>, inQuantifier: bool, scope: Json, key: Key)
    requires op.And? || op.Or?
    requires ValidKids(kids, inQuantifier) && SeparatedKids(kids, key)
    ensures kids != [] ==> CanonKids(op, kids, key) != []
    ensures op.And? ==> Conj(CanonKids(op, kids, key), scope) == Conj(kids, scope)
    ensures op.Or? ==> Disj(CanonKids(op, kids, key), scope) == Disj(kids, scope)
    decreases kids, 0
  {
    if kids != [] {
      var c, rest := Canon(kids[0], key), CanonKids(op, kids[1..], key);
      CanonPreservesMeaning(kids[0], inQuantifier, scope, key);
      CanonKidsMeaning(op, kids[1..], inQuantifier, scope, key);
      CanonIsValid(kids[0], inQuantifier, key);
      SpliceMeaning(op, c, rest, scope);
      assert ([c] + rest)[0] == c && ([c] + rest)[1..] == rest;
    }
  }

  // ----- canonical forms are valid and stable -----

  lemma {:induction false} ValidNode(op: Op, args: seq<Json>, inQuantifier: bool)
    ensures Valid(Node(op, args), inQuantifier) <==> ValidOp(op, args, inQuantifier)
  {
    NodeHeadOp(op, args);
  }

  lemma {:induction false} ValidKidsAppend(a: seq<Json>, b: seq<Json>, inQuantifier: bool)
    ensures ValidKids(a + b, inQuantifier) <==> ValidKids(a, inQuantifier) && ValidKids(b, inQuantifier)
  {
    if a == [] {
      assert a + b == b;
    } else {
      assert (a + b)[0] == a[0] && (a + b)[1..] == a[1..] + b;
      ValidKidsAppend(a[1..], b, inQuantifier);
    }
  }

  lemma {:induction false} CanonIsValid(n: Json, inQuantifier: bool, key: Key)
    requires Valid(n, inQuantifier) && Separated(n, key)
    ensures Valid(Canon(n, key), inQuantifier)
    decreases n, 0
  {
    var op, args := HeadOp(n).value, n.items[1..];
    CanonNode(n, inQuantifier, key);
    ValidNode(op, CanonArgs(op, args, key), inQuantifier);
    if op.And? || op.Or? {
      CanonKidsAreValid(op, args, inQuantifier, key);
    } else if op.Not? {
      CanonIsValid(args[0], inQuantifier, key);
    } else if op.All? || op.Any? {
      CanonIsValid(args[1], true, key);
    } else if op.In? {
      SortSetCorrect(args[1].items, key);
      assert args[1].items[0] in SortSet(args[1].items, key);
    }
  }

  lemma {:induction false} CanonKidsAreValid(op: Op, kids: seq<Json>, inQuantifier: bool, key: Key)
    requires op.And? || op.Or?
    requires ValidKids(kids, inQuantifier) && SeparatedKids(kids, key)
    ensures ValidKids(CanonKids(op, kids, key), inQuantifier)
    ensures kids != [] ==> CanonKids(op, kids, key) != []
    decreases kids, 0
  {
    if kids != [] {
      var c := Canon(kids[0], key);
      CanonIsValid(kids[0], inQuantifier, key);
      CanonKidsAreValid(op, kids[1..], inQuantifier, key);
      ValidKidsAppend(Splice(op, c), CanonKids(op, kids[1..], key), inQuantifier);
      assert ValidKids([c], inQuantifier);
    }
  }

  /** Operands that canonicalising leaves alone: canonical, and not of the same connective. */
  ghost predicate Settled(op: Op, kids: seq<Json>, key: Key) {
    forall c :: c in kids ==> Canon(c, key) == c && HeadOp(c) != Some(op)
  }

  lemma {:induction false} SettledKidsStay(op: Op, kids: seq<Json>, key: Key)
    requires Settled(op, kids, key)
    ensures CanonKids(op, kids, key) == kids
  {
    if kids != [] {
      assert kids[0] in kids && kids == [kids[0]] + kids[1..];
      SettledKidsStay(op, kids[1..], key);
    }
  }

  /** Canonicalising twice changes nothing more. */
  lemma {:induction false} CanonIsIdempotent(n: Json, inQuantifier: bool, key: Key)
    requires Valid(n, inQuantifier) && Separated(n, key)
    ensures Canon(Canon(n, key), key) == Canon(n, key)
    decreases n, 0
  {
    var op, args := HeadOp(n).value, n.items[1..];
    var canonArgs := CanonArgs(op, args, key);
    CanonNode(n, inQuantifier, key);
    CanonIsValid(n, inQuantifier, key);
    NodeHeadOp(op, canonArgs);
    CanonNode(Canon(n, key), inQuantifier, key);
    if op.And? || op.Or? {
      CanonKidsSettle(op, args, inQuantifier, key);
      SettledKidsStay(op, canonArgs, key);
    } else if op.Not? {
      CanonIsIdempotent(args[0], inQuantifier, key);
    } else if op.All? || op.Any? {
      CanonIsIdempotent(args[1], true, key);
    } else if op.In? {
      var members := SortSet(args[1].items, key);
      SortSetCorrect(args[1].items, key);
      SortSetCorrect(members, key);
      KeySortedIsUnique(SortSet(members, key), members, key);
    }
  }

  lemma {:induction false} CanonKidsSettle(op: Op, kids: seq<Json>, inQuantifier: bool, key: Key)
    requires op.And? || op.Or?
    requires ValidKids(kids, inQuantifier) && SeparatedKids(kids, key)
    ensures Settled(op, CanonKids(op, kids, key), key)
    decreases kids, 0
  {
    if kids != [] {
      var kid := kids[0];
      CanonKidsSettle(op, kids[1..], inQuantifier, key);
      CanonNode(kid, inQuantifier, key);
      NodeHeadOp(HeadOp(kid).value, CanonArgs(HeadOp(kid).value, kid.items[1..], key));
      if HeadOp(kid) == Some(op) {
        assert ValidOp(op, kid.items[1..], inQuantifier) && SeparatedArgs(op, kid.items[1..], key);
        CanonKidsSettle(op, kid.items[1..], inQuantifier, key);
      } else {
        CanonIsIdempotent(kid, inQuantifier, key);
      }
    }
  }

  // ----- infix chains and n-ary calls -----

  /** What the parser builds for `t0 op t1 op t2 ...`. */
  function LeftChain(op: Op, terms: seq<Json>): Json
    requires terms != []
  {
    if |terms| == 1 then terms[0]
    else Node(op, [LeftChain(op, terms[..|terms| - 1]), terms[|terms| - 1]])
  }

  lemma {:induction false} CanonKidsAppend(op: Op, a: seq<Json>, b: seq<Json>, key: Key)
    ensures CanonKids(op, a + b, key) == CanonKids(op, a, key) + CanonKids(op, b, key)
  {
    if a == [] {
      assert a + b == b;
    } else {
      assert (a + b)[0] == a[0] && (a + b)[1..] == a[1..] + b;
      CanonKidsAppend(op, a[1..], b, key);
      ConcatAssociates(Splice(op, Canon(a[0], key)), CanonKids(op, a[1..], key), CanonKids(op, b, key));
    }
  }

  lemma {:induction false} CanonOfConnective(op: Op, kids: seq<Json>, key: Key)
    requires op.And? || op.Or?
    ensures Canon(Node(op, kids), key) == Node(op, CanonKids(op, kids, key))
  {
    NodeHeadOp(op, kids);
  }

  lemma {:induction false} CanonKidsOfOne(op: Op, x: Json, key: Key)
    ensures CanonKids(op, [x], key) == Splice(op, Canon(x, key))
  {
    assert [x][1..] == [] && CanonKids(op, [], key) == [];
  }

  lemma {:induction false} SpliceOfConnective(op: Op, kids: seq<Json>, key: Key)
    requires op.And? || op.Or?
    ensures Splice(op, Canon(Node(op, kids), key)) == CanonKids(op, kids, key)
  {
    CanonOfConnective(op, kids, key);
    NodeHeadOp(op, CanonKids(op, kids, key));
  }

  /** Spliced into a connective of its own kind, a chain contributes its operands. */
  lemma {:induction false} ChainFlattens(op: Op, terms: seq<Json>, key: Key)
    requires (op.And? || op.Or?) && terms != []
    ensures Splice(op, Canon(LeftChain(op, terms), key)) == CanonKids(op, terms, key)
    decreases terms, 1
  {
    if |terms| == 1 {
      assert terms == [terms[0]];
      CanonKidsOfOne(op, terms[0], key);
    } else {
      ChainStep(op, terms, key);
      SpliceOfConnective(op, [LeftChain(op, terms[..|terms| - 1]), terms[|terms| - 1]], key);
    }
  }

  lemma {:induction false} ChainStep(op: Op, terms: seq<Json>, key: Key)
    requires (op.And? || op.Or?) && |terms| > 1
    ensures CanonKids(op, [LeftChain(op, terms[..|terms| - 1]), terms[|terms| - 1]], key) == CanonKids(op, terms, key)
    decreases terms, 0
  {
    var front, last := terms[..|terms| - 1], terms[|terms| - 1];
    var head := LeftChain(op, front);
    ChainFlattens(op, front, key);
    CanonKidsOfOne(op, head, key);
    CanonKidsAppend(op, [head], [last], key);
    CanonKidsAppend(op, front, [last], key);
    assert terms == front + [last] && [head, last] == [head] + [last];
  }

  /** A chain written infix and the same operands passed to the n-ary call have one
      canonical form. */
  lemma {:induction false} ChainMatchesCall(op: Op, terms: seq<Json>, key: Key)
    requires (op.And? || op.Or?) && |terms| > 1
    ensures Canon(LeftChain(op, terms), key) == Canon(Node(op, terms), key)
  {
    ChainStep(op, terms, key);
    CanonOfConnective(op, [LeftChain(op, terms[..|terms| - 1]), terms[|terms| - 1]], key);
    CanonOfConnective(op, terms, key);
  }

  // ----- replay keys -----

  function ReplayKey<D>(n: Json, key: Key, digest: Json -> D): D {
    digest(Canon(n, key))
  }

  /** Two validated predicates with one replay key agree, on verdicts and on errors, in
      every state, unless the digest itself collides on their canonical forms; so a cached
      verdict may be reused across spellings. */
  lemma {:induction false} EqualReplayKeysAgree<D>(a: Json, b: Json, state: Json, key: Key, digest: Json -> D)
    requires Valid(a, false) && Valid(b, false) && Separated(a, key) && Separated(b, key)
    requires digest(Canon(a, key)) == digest(Canon(b, key)) ==> Canon(a, key) == Canon(b, key)
    requires ReplayKey(a, key, digest) == ReplayKey(b, key, digest)
    ensures Eval(a, state) == Eval(b, state)
  {
    CanonPreservesMeaning(a, false, state, key);
    CanonPreservesMeaning(b, false, state, key);
  }

  /** Reordering or repeating the members of an `in` set does not change the key. */
  lemma {:induction false} SetOrderIsIrrelevant<D>(field: Json, s: seq<Json>, t: seq<Json>, key: Key, digest: Json -> D)
    requires Separates(key, s) && SameMembers(s, t)
    ensures ReplayKey(Node(In, [field, List(s)]), key, digest) == ReplayKey(Node(In, [field, List(t)]), key, digest)
  {
    NodeHeadOp(In, [field, List(s)]);
    NodeHeadOp(In, [field, List(t)]);
    SortSetCorrect(s, key);
    SortSetCorrect(t, key);
    KeySortedIsUnique(SortSet(s, key), SortSet(t, key), key);
  }

  // ----- separating keys exist -----

  /** The members of all `in` sets of a tree. */
  function SetMembers(n: Json): seq<Json>
    decreases n, 0
  {
    if HeadOp(n).None? then [] else ArgMembers(HeadOp(n).value, n.items[1..])
  }

  function ArgMembers(op: Op, args: seq<Json>): seq<Json>
    decreases args, 1
  {
    if op.And? || op.Or? then KidMembers(args)
    else if op.Not? && |args| == 1 then SetMembers(args[0])
    else if (op.All? || op.Any?) && |args| == 2 then SetMembers(args[1])
    else if op.In? && |args| == 2 && args[1].List? then args[1].items
    else []
  }

  function KidMembers(kids: seq<Json>): seq<Json>
    decreases kids, 0
  {
    if kids == [] then [] else SetMembers(kids[0]) + KidMembers(kids[1..])
  }

  function PositionIn(m: Json, known: seq<Json>): (i: nat)
    ensures i <= |known|
    ensures m in known ==> i < |known| && known[i] == m
  {
    if known == [] || known[0] == m then 0 else 1 + PositionIn(m, known[1..])
  }

  /** Numbers the members of a list: a key that separates them. */
  function NumberingKey(known: seq<Json>): Key {
    (m: Json) => seq(PositionIn(m, known), i => '|')
  }

  lemma {:induction false} NumberingSeparates(known: seq<Json>, members: seq<Json>)
    requires forall m :: m in members ==> m in known
    ensures Separates(NumberingKey(known), members)
  {
    var key := NumberingKey(known);
    forall a, b | a in members && b in members && key(a) == key(b)
      ensures a == b
    {
      assert |key(a)| == PositionIn(a, known) && |key(b)| == PositionIn(b, known);
    }
  }

  /** Every tree, and every finite family of trees, has a key that separates its sets. */
  lemma {:induction false} SeparatingKeyExists(n: Json, known: seq<Json>)
    requires forall m :: m in SetMembers(n) ==> m in known
    ensures Separated(n, NumberingKey(known))
    decreases n, 0
  {
    if HeadOp(n).Some? {
      var op, args := HeadOp(n).value, n.items[1..];
      assert SetMembers(n) == ArgMembers(op, args);
      if op.And? || op.Or? {
        KidsHaveSeparatingKey(args, known);
      } else if op.Not? && |args| == 1 {
        SeparatingKeyExists(args[0], known);
      } else if (op.All? || op.Any?) && |args| == 2 {
        SeparatingKeyExists(args[1], known);
      } else if op.In? && |args| == 2 && args[1].List? {
        NumberingSeparates(known, args[1].items);
      }
    }
  }

  lemma {:induction false} KidsHaveSeparatingKey(kids: seq<Json>, known: seq<Json>)
    requires forall m :: m in KidMembers(kids) ==> m in known
    ensures SeparatedKids(kids, NumberingKey(known))
    decreases kids, 0
  {
    if kids != [] {
      SeparatingKeyExists(kids[0], known);
      KidsHaveSeparatingKey(kids[1..], known);
    }
  }
}
