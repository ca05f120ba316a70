/** The organisation structure: position and edge edits that copy, validate and apply. */
module Org {
  import opened Common
  import opened Graphs
  import opened Positions

  type Chart = map<Id, Position>

  datatype OrgError = Denied | NotFound | SelfSuperior | Duplicate | Ungoverned | NoRootPosition

  ghost predicate Keyed(ps: Chart) {
    forall k :: k in ps ==> ps[k].id == k
  }

  /** The invariant of the structure. */
  ghost predicate Sound(ps: Chart, sem: Semantics) {
    Keyed(ps) && Governed(ps.Values, sem)
  }

  lemma IdsOfChart(ps: Chart)
    requires Keyed(ps)
    ensures Ids(ps.Values) == ps.Keys
  {
    forall k | k in ps
      ensures k in Ids(ps.Values)
    {
      assert ps[k] in ps.Values;
    }
  }

  // ----- edits on copies -----

  function Without(ids: seq<Id>, id: Id): (r: seq<Id>)
    ensures forall x :: x in r <==> x in ids && x != id
  {
    if ids == [] then []
    else (if ids[0] == id then [] else [ids[0]]) + Without(ids[1..], id)
  }

  function With(ids: seq<Id>, id: Id): seq<Id> {
    if id in ids then ids else ids + [id]
  }

  /** `_link_superior`: the old superior forgets `sub`, `sub` gets the new superior, and
      the new superior lists `sub`. */
  function Link(ps: Chart, sub: Id, sup: Option<Id>): Result<Chart, OrgError> {
    if sup == Some(sub) then Err(SelfSuperior)
    else if sup.Some? && sup.value !in ps then Err(NotFound)
    else if sub !in ps then Err(NotFound)
    else
      var former := ps[sub].superior;
      var ps1 :=
        if former.Some? && former.value in ps && former != sup
        then ps[former.value := ps[former.value].(subordinates := Without(ps[former.value].subordinates, sub))]
        else ps;
      var ps2 := ps1[sub := ps1[sub].(superior := sup)];
      Ok(if sup.Some?
         then ps2[sup.value := ps2[sup.value].(subordinates := With(ps2[sup.value].subordinates, sub))]
         else ps2)
  }

  function Unlink(ps: Chart, manager: Id, sub: Id): Result<Chart, OrgError> {
    if manager !in ps || sub !in ps then Err(NotFound)
    else
      var ps1 := ps[manager := ps[manager].(subordinates := Without(ps[manager].subordinates, sub))];
      Ok(if ps1[sub].superior == Some(manager) then ps1[sub := ps1[sub].(superior := None)] else ps1)
  }

  function AddCollaboration(ps: Chart, a: Id, b: Id): Result<Chart, OrgError> {
    if a !in ps || b !in ps then Err(NotFound)
    else Ok(ps[a := ps[a].(collaborators := With(ps[a].collaborators, b))])
  }

  function DropCollaboration(ps: Chart, a: Id, b: Id): Result<Chart, OrgError> {
    if a !in ps then Err(NotFound)
    else Ok(ps[a := ps[a].(collaborators := Without(ps[a].collaborators, b))])
  }

  /** A position with every edge to `id` removed. */
  function Detach(p: Position, id: Id): Position {
    p.(superior := if p.superior == Some(id) then None else p.superior,
       subordinates := Without(p.subordinates, id),
       collaborators := Without(p.collaborators, id))
  }

  function Remove(ps: Chart, id: Id): Chart {
    map k | k in ps && k != id :: Detach(ps[k], id)
  }

  function Install(ps: Chart, news: seq<Position>): Chart
    decreases |news|
  {
    if news == [] then ps else Install(ps[news[0].id := news[0]], news[1..])
  }

  datatype Edit =
    | SetSuperior(position: Id, superior: Option<Id>)
    | AddSubordinate(manager: Id, subordinate: Id)
    | RemoveSubordinate(manager: Id, subordinate: Id)
    | AddCollaborator(position: Id, other: Id)
    | RemoveCollaborator(position: Id, other: Id)
    | RemovePosition(position: Id)

  /** The position whose presence is required before anything is copied. */
  function Subject(e: Edit): Id {
    match e
    case SetSuperior(p, _) => p
    case AddSubordinate(m, _) => m
    case RemoveSubordinate(m, _) => m
    case AddCollaborator(p, _) => p
    case RemoveCollaborator(p, _) => p
    case RemovePosition(p) => p
  }

  function Prospective(ps: Chart, e: Edit): Result<Chart, OrgError> {
    match e
    case SetSuperior(p, sup) => Link(ps, p, sup)
    case AddSubordinate(m, s) => Link(ps, s, Some(m))
    case RemoveSubordinate(m, s) => Unlink(ps, m, s)
    case AddCollaborator(p, o) => AddCollaboration(ps, p, o)
    case RemoveCollaborator(p, o) => DropCollaboration(ps, p, o)
    case RemovePosition(p) => Ok(Remove(ps, p))
  }

  /** Permission, presence, edit on a copy, governance; only then is the copy adopted. */
  ghost function Perform(ps: Chart, sem: Semantics, permitted: bool, e: Edit): Result<Chart, OrgError> {
    if !permitted then Err(Denied)
    else if Subject(e) !in ps then Err(NotFound)
    else
      match Prospective(ps, e)
      case Err(error) => Err(error)
      case Ok(next) => if Governed(next.Values, sem) then Ok(next) else Err(Ungoverned)
  }

  // ----- two-way links -----

  /** `s` is listed by `m` exactly when `m` is the superior of `s`. */
  ghost predicate TwoWay(ps: Chart) {
    forall m, s :: m in ps && s in ps ==> (s in ps[m].subordinates <==> ps[s].superior == Some(m))
  }

  lemma EditsKeepKeys(ps: Chart, e: Edit)
    requires Keyed(ps) && Prospective(ps, e).Ok?
    ensures Keyed(Prospective(ps, e).value)
  {
  }

  /** Linking changes one superior and nobody else's. */
  lemma LinkEffect(ps: Chart, sub: Id, sup: Option<Id>, k: Id)
    requires Link(ps, sub, sup).Ok? && k in ps
    ensures var next := Link(ps, sub, sup).value;
            && next.Keys == ps.Keys
            && next[k].superior == (if k == sub then sup else ps[k].superior)
            && next[k].collaborators == ps[k].collaborators
            && (forall s :: s != sub ==> (s in next[k].subordinates <==> s in ps[k].subordinates))
            && (sub in next[k].subordinates <==>
                  sup == Some(k) || (sub in ps[k].subordinates && ps[sub].superior != Some(k)))
  {
  }

  /** What the other edits do to the position `k`: they add or remove the one edge they name,
      and a removal takes every edge to the removed position with it. */
  lemma EditEffect(ps: Chart, e: Edit, k: Id, x: Id)
    requires !e.SetSuperior? && !e.AddSubordinate? && Prospective(ps, e).Ok? && k in ps
    requires e.RemovePosition? ==> k != e.position
    ensures var next := Prospective(ps, e).value;
            && next.Keys == (if e.RemovePosition? then ps.Keys - {e.position} else ps.Keys)
            && next[k].id == ps[k].id
            && (next[k].superior == Some(x)
                <==> ps[k].superior == Some(x)
                     && !(e.RemoveSubordinate? && k == e.subordinate && x == e.manager)
                     && !(e.RemovePosition? && x == e.position))
            && (x in next[k].subordinates
                <==> x in ps[k].subordinates
                     && !(e.RemoveSubordinate? && k == e.manager && x == e.subordinate)
                     && !(e.RemovePosition? && x == e.position))
            && (x in next[k].collaborators
                <==> (x in ps[k].collaborators || (e.AddCollaborator? && k == e.position && x == e.other))
                     && !(e.RemoveCollaborator? && k == e.position && x == e.other)
                     && !(e.RemovePosition? && x == e.position))
  {
  }

  /** Edits fail only for a missing position or a position put under itself. */
  lemma EditFailsIff(ps: Chart, e: Edit)
    ensures Prospective(ps, e).Err?
            <==> match e
                 case SetSuperior(p, sup) => sup == Some(p) || p !in ps || (sup.Some? && sup.value !in ps)
                 case AddSubordinate(m, s) => m == s || m !in ps || s !in ps
                 case RemoveSubordinate(m, s) => m !in ps || s !in ps
                 case AddCollaborator(p, o) => p !in ps || o !in ps
                 case RemoveCollaborator(p, _) => p !in ps
                 case RemovePosition(_) => false
  {
  }

  lemma LinkKeepsTwoWay(ps: Chart, sub: Id, sup: Option<Id>)
    requires TwoWay(ps) && Link(ps, sub, sup).Ok?
    ensures TwoWay(Link(ps, sub, sup).value)
  {
    var next := Link(ps, sub, sup).value;
    LinkEffect(ps, sub, sup, sub);
    forall m, s | m in next && s in next
      ensures s in next[m].subordinates <==> next[s].superior == Some(m)
    {
      LinkEffect(ps, sub, sup, m);
      LinkEffect(ps, sub, sup, s);
    }
  }

  /** Edge edits and removals keep superior and subordinate links mirrored. */
  lemma EditsKeepTwoWay(ps: Chart, e: Edit)
    requires TwoWay(ps) && Prospective(ps, e).Ok?
    ensures TwoWay(Prospective(ps, e).value)
  {
    if e.SetSuperior? {
      LinkKeepsTwoWay(ps, e.position, e.superior);
    } else if e.AddSubordinate? {
      LinkKeepsTwoWay(ps, e.subordinate, Some(e.manager));
    }
  }

  /** A newcomer that names an existing position as its superior is accepted, and is not
      listed there. */
  lemma AddCanBreakTwoWay()
    ensures var boss := Position("a", None, [], []);
            var newcomer := Position("b", Some("a"), [], []);
            && TwoWay(map["a" := boss])
            && Governed({boss, newcomer}, DEFAULT_SEMANTICS)
            && !TwoWay(map["a" := boss, "b" := newcomer])
  {
    var boss := Position("a", None, [], []);
    var newcomer := Position("b", Some("a"), [], []);
    var ps := {boss, newcomer};
    assert boss.id in Ids(ps) && newcomer.id in Ids(ps);
    forall w: seq<Id> | ClosedWalk(Delegation(ps, DEFAULT_SEMANTICS), w)
      ensures false
    {
      DelegationEdge(ps, DEFAULT_SEMANTICS, w[0], w[1]);
    }
    var chart := map["a" := boss, "b" := newcomer];
    assert "a" in chart && "b" in chart && "b" !in chart["a"].subordinates;
  }

  // ----- superior chains -----

  /** The superior `n` levels up, `None` once the chain has ended. */
  ghost function Up(ps: Chart, id: Id, n: nat): Option<Id> {
    if n == 0 then (if id in ps then Some(id) else None)
    else
      var below := Up(ps, id, n - 1);
      if below.Some? && below.value in ps then ps[below.value].superior else None
  }

  lemma SuperiorDelegates(ps: Chart, sem: Semantics, below: Id)
    requires Sound(ps, sem) && TwoWay(ps) && sem.down && below in ps && ps[below].superior.Some?
    ensures ps[below].superior.value in ps
    ensures Edge(Delegation(ps.Values, sem), ps[below].superior.value, below)
  {
    IdsOfChart(ps);
    var boss := ps[below].superior.value;
    assert ps[below] in ps.Values && Anchored(ps[below], Ids(ps.Values));
    assert ps[boss] in ps.Values && ps[boss].id == boss && below in ps[boss].subordinates;
    DelegationEdge(ps.Values, sem, boss, below);
  }

  lemma {:induction false} ChainIsWalk(ps: Chart, sem: Semantics, id: Id, n: nat) returns (w: seq<Id>)
    requires Sound(ps, sem) && TwoWay(ps) && sem.down
    requires Up(ps, id, n).Some?
    ensures |w| == n + 1 && w[0] == Up(ps, id, n).value && Walk(Delegation(ps.Values, sem), w)
    ensures forall x :: x in w ==> x in ps
  {
    if n == 0 {
      w := [id];
    } else {
      var rest := ChainIsWalk(ps, sem, id, n - 1);
      assert rest[0] in rest;
      SuperiorDelegates(ps, sem, rest[0]);
      w := [ps[rest[0]].superior.value] + rest;
      WalkFromAbove(Delegation(ps.Values, sem), w[0], rest);
    }
  }

  /** Where subordinates are delegated to, a mirrored and governed chart has no endless
      superior chain: it ends within as many steps as there are positions. */
  lemma SuperiorChainsEnd(ps: Chart, sem: Semantics, id: Id)
    requires Sound(ps, sem) && TwoWay(ps) && sem.down
    ensures Up(ps, id, |ps|) == None
  {
    if Up(ps, id, |ps|).Some? {
      var w := ChainIsWalk(ps, sem, id, |ps|);
      WalksAreBounded(Delegation(ps.Values, sem), w, ps.Keys);
    }
  }

  // ----- installing and adding -----

  lemma {:induction false} InstallEffect(ps: Chart, news: seq<Position>)
    requires Keyed(ps)
    ensures Keyed(Install(ps, news))
    ensures Install(ps, news).Keys == ps.Keys + Ids(Members(news))
    ensures Install(ps, news).Values <= ps.Values + Members(news)
    decreases |news|
  {
    if news != [] {
      var next := ps[news[0].id := news[0]];
      InstallEffect(next, news[1..]);
      assert news == [news[0]] + news[1..];
      assert Members(news) == {news[0]} + Members(news[1..]);
    }
  }

  /** What is installed after a successful check is governed, even when one id is listed
      twice and only its last position is kept. */
  lemma InstallIsSound(ps: Chart, sem: Semantics, news: seq<Position>)
    requires Sound(ps, sem) && Governed(ps.Values + Members(news), sem)
    ensures Sound(Install(ps, news), sem)
  {
    var next := Install(ps, news);
    InstallEffect(ps, news);
    IdsOfChart(ps);
    IdsOfChart(next);
    assert Ids(ps.Values + Members(news)) == Ids(ps.Values) + Ids(Members(news));
    GovernedSubset(ps.Values + Members(news), next.Values, sem);
  }

  ghost predicate Refused(ps: Chart, sem: Semantics, news: seq<Position>) {
    (exists p :: p in news && p.id in ps) || !Governed(ps.Values + Members(news), sem)
  }

  /** The chart of the newcomers alone; the last of several with one id is kept. */
  function Newcomers(news: seq<Position>): Chart {
    Install(map[], news)
  }

  lemma {:induction false} InstallMerges(ps: Chart, news: seq<Position>)
    ensures Install(ps, news) == ps + Newcomers(news)
    decreases |news|
  {
    if news != [] {
      var p, rest := news[0], news[1..];
      InstallMerges(ps[p.id := p], rest);
      InstallMerges(map[p.id := p], rest);
      assert map[][p.id := p] == map[p.id := p];
      assert ps[p.id := p] + Newcomers(rest) == ps + (map[p.id := p] + Newcomers(rest));
    }
  }

  /** An accepted installation puts a chart of new ids beside the old one, and no old
      position knows a new one. */
  ghost predicate Beside(ps: Chart, added: Chart) {
    && ps.Keys !! added.Keys
    && (forall k :: k in ps ==> Anchored(ps[k], ps.Keys))
    && (forall k :: k in added ==> Anchored(added[k], ps.Keys + added.Keys))
  }

  lemma OldAreAnchored(ps: Chart, sem: Semantics)
    requires Sound(ps, sem)
    ensures forall k :: k in ps ==> Anchored(ps[k], ps.Keys)
  {
    IdsOfChart(ps);
    forall k | k in ps ensures Anchored(ps[k], ps.Keys) {
      assert ps[k] in ps.Values;
    }
  }

  lemma NewcomersAreMembers(news: seq<Position>)
    ensures Newcomers(news).Keys == Ids(Members(news))
    ensures forall k :: k in Newcomers(news) ==> Newcomers(news)[k] in news && Newcomers(news)[k].id == k
  {
    var none: Chart := map[];
    InstallEffect(none, news);
    forall k | k in Newcomers(news) ensures Newcomers(news)[k] in news {
      assert Newcomers(news)[k] in Newcomers(news).Values;
    }
  }

  lemma InstalledBeside(ps: Chart, sem: Semantics, news: seq<Position>)
    requires Sound(ps, sem) && !Refused(ps, sem, news)
    ensures Beside(ps, Newcomers(news))
  {
    var added := Newcomers(news);
    OldAreAnchored(ps, sem);
    NewcomersAreMembers(news);
    IdsOfChart(ps);
    assert Ids(ps.Values + Members(news)) == ps.Keys + added.Keys;
    forall k | k in added ensures k !in ps && Anchored(added[k], ps.Keys + added.Keys) {
      assert added[k] in ps.Values + Members(news);
    }
  }

  /** The position names none of the known ones as superior or subordinate. */
  predicate Aloof(p: Position, known: set<Id>) {
    (p.superior.Some? ==> p.superior.value !in known) && forall s :: s in p.subordinates ==> s !in known
  }

  lemma BesideKeepsTwoWayIff(ps: Chart, added: Chart)
    requires Beside(ps, added) && TwoWay(ps)
    ensures TwoWay(ps + added) <==> TwoWay(added) && forall k :: k in added ==> Aloof(added[k], ps.Keys)
  {
    var all := ps + added;
    assert forall k :: k in ps ==> all[k] == ps[k];
    assert forall k :: k in added ==> all[k] == added[k];
  }

  /** An installation keeps the links mirrored exactly when the newcomers are mirrored among
      themselves and none names a position that was there before; the governance check
      asks for neither. */
  lemma InstallKeepsTwoWayIff(ps: Chart, sem: Semantics, news: seq<Position>)
    requires Sound(ps, sem) && TwoWay(ps) && !Refused(ps, sem, news)
    ensures TwoWay(Install(ps, news))
            <==> TwoWay(Newcomers(news)) && forall k :: k in Newcomers(news) ==> Aloof(Newcomers(news)[k], ps.Keys)
  {
    InstallMerges(ps, news);
    InstalledBeside(ps, sem, news);
    BesideKeepsTwoWayIff(ps, Newcomers(news));
  }

  lemma NewcomerAlone(p: Position)
    ensures Newcomers([p]) == map[p.id := p]
  {
    var none: Chart := map[];
    assert [p][1..] == [] && none[p.id := p] == map[p.id := p];
    assert Install(none[p.id := p], []) == none[p.id := p];
  }

  lemma AloofMeansUnlinked(p: Position, known: set<Id>)
    requires NoSelfEdge(p) && Anchored(p, known + {p.id})
    ensures Aloof(p, known) <==> p.superior == None && p.subordinates == []
    ensures Aloof(p, known) ==> TwoWay(map[p.id := p])
  {
    if p.subordinates != [] {
      assert p.subordinates[0] in p.subordinates;
    }
  }

  lemma AddMerges(ps: Chart, p: Position)
    ensures Install(ps, [p]) == ps + map[p.id := p]
  {
    InstallMerges(ps, [p]);
    NewcomerAlone(p);
  }

  /** A single position keeps the links mirrored exactly when it links to nobody else. */
  lemma AddKeepsTwoWayIff(ps: Chart, sem: Semantics, p: Position)
    requires Sound(ps, sem) && TwoWay(ps) && !Refused(ps, sem, [p])
    ensures TwoWay(Install(ps, [p])) <==> TwoWay(map[p.id := p]) && Aloof(p, ps.Keys)
  {
    var added: Chart := map[p.id := p];
    AddMerges(ps, p);
    NewcomerAlone(p);
    InstalledBeside(ps, sem, [p]);
    BesideKeepsTwoWayIff(ps, added);
    assert added[p.id] == p;
  }

  /** For a position as its constructor admits it: exactly when it brings no link. */
  lemma AddUnlinkedIff(ps: Chart, sem: Semantics, p: Position)
    requires Sound(ps, sem) && TwoWay(ps) && !Refused(ps, sem, [p]) && NoSelfEdge(p)
    ensures TwoWay(Install(ps, [p])) <==> p.superior == None && p.subordinates == []
  {
    AddKeepsTwoWayIff(ps, sem, p);
    InstalledBeside(ps, sem, [p]);
    NewcomerAlone(p);
    assert Newcomers([p])[p.id] == p;
    AloofMeansUnlinked(p, ps.Keys);
  }

  // ----- superior chains under installation -----

  ghost predicate ChainEnds(ps: Chart, id: Id) {
    exists n: nat :: Up(ps, id, n) == None
  }

  lemma {:induction false} UpSplits(ps: Chart, id: Id, a: nat, b: nat)
    requires Up(ps, id, a).Some? && Up(ps, id, a).value in ps
    ensures Up(ps, id, a + b) == Up(ps, Up(ps, id, a).value, b)
  {
    if b > 0 {
      UpSplits(ps, id, a, b - 1);
    }
  }

  /** A chain that starts among the old positions stays there. */
  lemma {:induction false} UpStaysInside(ps: Chart, added: Chart, id: Id, n: nat)
    requires Beside(ps, added) && id in ps
    ensures Up(ps + added, id, n) == Up(ps, id, n)
    ensures Up(ps, id, n).Some? ==> Up(ps, id, n).value in ps
  {
    if n > 0 {
      UpStaysInside(ps, added, id, n - 1);
    }
  }

  /** A chain follows the newcomers as long as it meets them. */
  lemma {:induction false} UpFollowsNewcomers(ps: Chart, added: Chart, id: Id, n: nat)
    requires Up(added, id, n).Some?
    ensures Up(ps + added, id, n) == Up(added, id, n)
  {
    if n > 0 {
      UpFollowsNewcomers(ps, added, id, n - 1);
    }
  }

  lemma {:induction false} FirstEnd(ps: Chart, id: Id, n: nat) returns (m: nat)
    requires Up(ps, id, n) == None
    ensures Up(ps, id, m) == None && (m > 0 ==> Up(ps, id, m - 1).Some?)
  {
    if n == 0 || Up(ps, id, n - 1).Some? {
      m := n;
    } else {
      m := FirstEnd(ps, id, n - 1);
    }
  }

  lemma BesideChainEnds(ps: Chart, added: Chart, id: Id)
    requires Beside(ps, added) && (forall k :: ChainEnds(ps, k)) && ChainEnds(added, id)
    ensures ChainEnds(ps + added, id)
  {
    var all := ps + added;
    var n: nat :| Up(added, id, n) == None;
    var m := FirstEnd(added, id, n);
    var at := id;
    if m > 0 {
      UpFollowsNewcomers(ps, added, id, m - 1);
      at := Up(added, id, m - 1).value;
    }
    if at in ps {
      assert ChainEnds(ps, at);
      var k: nat :| Up(ps, at, k) == None;
      UpStaysInside(ps, added, at, k);
      if m > 0 {
        UpSplits(all, id, m - 1, k);
        assert Up(all, id, m - 1 + k) == None;
      } else {
        assert Up(all, id, k) == None;
      }
    } else {
      assert Up(all, id, m) == None;
    }
  }

  /** Installing keeps every superior chain finite exactly when the newcomers' own chains
      are; the governance check does not look at superiors. */
  lemma InstallKeepsChainsFiniteIff(ps: Chart, sem: Semantics, news: seq<Position>)
    requires Sound(ps, sem) && !Refused(ps, sem, news) && forall k :: ChainEnds(ps, k)
    ensures (forall k :: ChainEnds(Install(ps, news), k)) <==> (forall k :: ChainEnds(Newcomers(news), k))
  {
    var added := Newcomers(news);
    InstallMerges(ps, news);
    InstalledBeside(ps, sem, news);
    if forall k :: ChainEnds(added, k) {
      forall k ensures ChainEnds(ps + added, k) {
        BesideChainEnds(ps, added, k);
      }
    } else {
      var k :| !ChainEnds(added, k);
      forall n: nat ensures Up(ps + added, k, n).Some? {
        assert Up(added, k, n) != None;
        UpFollowsNewcomers(ps, added, k, n);
      }
      assert !ChainEnds(ps + added, k);
    }
  }

  /** A single position never closes a superior chain. */
  lemma AddKeepsChainsFinite(ps: Chart, sem: Semantics, p: Position)
    requires Sound(ps, sem) && !Refused(ps, sem, [p]) && NoSelfEdge(p) && forall k :: ChainEnds(ps, k)
    ensures forall k :: ChainEnds(Install(ps, [p]), k)
  {
    NewcomerAlone(p);
    forall k ensures ChainEnds(Newcomers([p]), k) {
      assert Up(Newcomers([p]), k, 2) == None;
    }
    InstallKeepsChainsFiniteIff(ps, sem, [p]);
  }

  /** Positions without outgoing edges delegate to nobody. */
  lemma NoTargetsIsAcyclic(ps: set<Position>, sem: Semantics)
    requires forall p :: p in ps ==> Targets(p, sem) == {}
    ensures Acyclic(Delegation(ps, sem))
  {
    forall w: seq<Id> | ClosedWalk(Delegation(ps, sem), w)
      ensures false
    {
      DelegationEdge(ps, sem, w[0], w[1]);
    }
  }

  lemma {:induction false} LoopedUp(ps: Chart, a: Id, b: Id, n: nat)
    requires a in ps && b in ps && ps[a].superior == Some(b) && ps[b].superior == Some(a)
    ensures Up(ps, a, n) == Some(a) || Up(ps, a, n) == Some(b)
  {
    if n > 0 {
      LoopedUp(ps, a, b, n - 1);
    }
  }

  lemma ChartOfTwo(p: Position, q: Position)
    requires p.id != q.id
    ensures var ps: Chart := map[p.id := p, q.id := q];
            Keyed(ps) && ps.Values == {p, q} && Ids(ps.Values) == {p.id, q.id}
  {
    var ps: Chart := map[p.id := p, q.id := q];
    assert ps[p.id] == p && ps[q.id] == q;
    assert p in ps.Values && q in ps.Values;
    assert p.id in Ids({p, q}) && q.id in Ids({p, q});
  }

  /** Two newcomers that name each other as superior are installed, and their chains never
      end. */
  lemma MutualSuperiorsNeverEnd(a: Id, b: Id, n: nat)
    requires a != b
    ensures var p, q := Position(a, Some(b), [], []), Position(b, Some(a), [], []);
            && NoSelfEdge(p) && NoSelfEdge(q)
            && !Refused(map[], DEFAULT_SEMANTICS, [p, q])
            && Up(Install(map[], [p, q]), a, n).Some?
  {
    var p, q := Position(a, Some(b), [], []), Position(b, Some(a), [], []);
    var none: Chart := map[];
    var both := none.Values + Members([p, q]);
    assert both == {p, q};
    ChartOfTwo(p, q);
    NoTargetsIsAcyclic(both, DEFAULT_SEMANTICS);
    assert [p, q][1..] == [q] && none[a := p] == map[a := p];
    AddMerges(map[a := p], q);
    LoopedUp(Install(none, [p, q]), a, b, n);
  }

  /** The governance check alone would let a position be its own superior, endlessly; only
      the constructor of a position keeps it out. */
  lemma {:induction false} SelfSuperiorNeverEnds(id: Id, n: nat)
    ensures var p := Position(id, Some(id), [], []);
            && !NoSelfEdge(p)
            && !Refused(map[], DEFAULT_SEMANTICS, [p])
            && Up(Install(map[], [p]), id, n) == Some(id)
  {
    var p := Position(id, Some(id), [], []);
    var none: Chart := map[];
    var only := none.Values + Members([p]);
    assert only == {p} && p.id in Ids(only);
    NoTargetsIsAcyclic(only, DEFAULT_SEMANTICS);
    NewcomerAlone(p);
    LoopedUp(Install(none, [p]), id, id, n);
  }

  lemma OneEdgeIsAcyclic(g: Graph<Id>, a: Id, b: Id)
    requires a != b && forall x, y :: Edge(g, x, y) ==> x == a && y == b
    ensures Acyclic(g)
  {
    forall w: seq<Id> | Walk(g, w) && |w| > 1
      ensures w[0] != w[|w| - 1]
    {
      assert Edge(g, w[0], w[1]);
      assert Edge(g, w[|w| - 2], w[|w| - 1]);
    }
  }

  /** The chart that the edit below produces: "a" lists "b", and each names the other. */
  lemma LoopIsGoverned(p: Position, q: Position)
    requires p.id != q.id && p == Position(p.id, Some(q.id), [q.id], []) && q == Position(q.id, Some(p.id), [], [])
    ensures Governed({p, q}, DEFAULT_SEMANTICS)
  {
    ChartOfTwo(p, q);
    var g := Delegation({p, q}, DEFAULT_SEMANTICS);
    forall x, y | Edge(g, x, y) ensures x == p.id && y == q.id {
      DelegationEdge({p, q}, DEFAULT_SEMANTICS, x, y);
    }
    OneEdgeIsAcyclic(g, p.id, q.id);
  }

  lemma AddedUnderBossIsSound(p: Position, q: Position)
    requires p.id != q.id && p == Position(p.id, Some(q.id), [], []) && q == Position(q.id, None, [], [])
    ensures Sound(map[p.id := p, q.id := q], DEFAULT_SEMANTICS)
  {
    ChartOfTwo(p, q);
    NoTargetsIsAcyclic({p, q}, DEFAULT_SEMANTICS);
  }

  /** A one-way link from an accepted addition lets a later, accepted edit close the chain:
      `a` joins under `b` without being listed there, then `b` is put under `a`. */
  lemma OneWayLinkCanLoop(a: Id, b: Id, n: nat)
    requires a != b
    ensures var p, q := Position(a, Some(b), [], []), Position(b, None, [], []);
            var ps: Chart := map[a := p, b := q];
            var r := Perform(ps, DEFAULT_SEMANTICS, true, SetSuperior(b, Some(a)));
            && NoSelfEdge(p) && Sound(ps, DEFAULT_SEMANTICS) && Up(ps, a, 2) == None
            && r.Ok? && Up(r.value, a, n).Some?
  {
    var p, q := Position(a, Some(b), [], []), Position(b, None, [], []);
    var ps: Chart := map[a := p, b := q];
    AddedUnderBossIsSound(p, q);
    var boss, sub := Position(a, Some(b), [b], []), Position(b, Some(a), [], []);
    var next: Chart := map[a := boss, b := sub];
    var moved := ps[b := sub];
    assert moved[a] == p && p.subordinates + [b] == [b];
    assert moved[a := p.(subordinates := With(p.subordinates, b))] == next;
    assert Link(ps, b, Some(a)) == Ok(next);
    ChartOfTwo(boss, sub);
    LoopIsGoverned(boss, sub);
    LoopedUp(next, a, b, n);
  }

  // ----- every reachable chart -----

  datatype Step =
    | Bootstrap(news: seq<Position>)
    | Add(position: Position)
    | Change(edit: Edit)

  /** The chart after one attempted operation; a refused one changes nothing. */
  ghost function After(ps: Chart, sem: Semantics, permitted: bool, step: Step): Chart {
    match step
    case Bootstrap(news) => if Refused(ps, sem, news) then ps else Install(ps, news)
    case Add(p) => if !permitted || Refused(ps, sem, [p]) then ps else Install(ps, [p])
    case Change(e) =>
      var r := Perform(ps, sem, permitted, e);
      if r.Ok? then r.value else ps
  }

  ghost function Run(ps: Chart, sem: Semantics, steps: seq<(bool, Step)>): Chart
    decreases |steps|
  {
    if steps == [] then ps else Run(After(ps, sem, steps[0].0, steps[0].1), sem, steps[1..])
  }

  lemma StepIsSound(ps: Chart, sem: Semantics, permitted: bool, step: Step)
    requires Sound(ps, sem)
    ensures Sound(After(ps, sem, permitted, step), sem)
  {
    match step
    case Bootstrap(news) =>
      if !Refused(ps, sem, news) {
        InstallIsSound(ps, sem, news);
      }
    case Add(p) =>
      if !Refused(ps, sem, [p]) {
        InstallIsSound(ps, sem, [p]);
      }
    case Change(e) =>
      if Perform(ps, sem, permitted, e).Ok? {
        EditsKeepKeys(ps, e);
      }
  }

  /** In every chart reachable from a sound one, whoever asked for whatever in whichever
      order, delegation is acyclic and no edge dangles. */
  lemma {:induction false} EveryReachableChartIsSound(ps: Chart, sem: Semantics, steps: seq<(bool, Step)>)
    requires Sound(ps, sem)
    ensures Sound(Run(ps, sem, steps), sem)
    decreases |steps|
  {
    if steps != [] {
      StepIsSound(ps, sem, steps[0].0, steps[0].1);
      EveryReachableChartIsSound(After(ps, sem, steps[0].0, steps[0].1), sem, steps[1..]);
    }
  }

  /** From a mirrored chart, edge edits and removals alone never create an endless chain. */
  lemma {:induction false} EditsKeepChainsFinite(ps: Chart, sem: Semantics, steps: seq<(bool, Step)>, id: Id)
    requires Sound(ps, sem) && TwoWay(ps) && sem.down
    requires forall s :: s in steps ==> s.1.Change?
    ensures var last := Run(ps, sem, steps);
            TwoWay(last) && Up(last, id, |last|) == None
    decreases |steps|
  {
    if steps == [] {
      SuperiorChainsEnd(ps, sem, id);
    } else {
      var permitted, e := steps[0].0, steps[0].1.edit;
      var next := After(ps, sem, permitted, Change(e));
      assert steps[0] in steps;
      StepIsSound(ps, sem, permitted, Change(e));
      if Perform(ps, sem, permitted, e).Ok? {
        EditsKeepTwoWay(ps, e);
      }
      EditsKeepChainsFinite(next, sem, steps[1..], id);
    }
  }

  lemma EmptyChartIsSound(sem: Semantics)
    ensures Sound(map[], sem)
  {
    var none: Chart := map[];
    var g := Delegation(none.Values, sem);
    assert g.Keys == {};
    SettledIsAcyclic(g, []);
  }

  // ----- the device -----

  /** What `bootstrap` is told about the root grant. */
  datatype RootGrant = NoRoot | RootWithoutPosition | RootAt(position: Id)

  class OrgStructure {
    const sem: Semantics
    var positions: Chart

    constructor (sem: Semantics)
      ensures this.sem == sem && positions == map[] && Sound(positions, sem)
    {
      this.sem, positions := sem, map[];
      new;
      EmptyChartIsSound(sem);
    }

    /** The positions as a list, in some order. */
    method Values(ps: Chart) returns (l: seq<Position>)
      ensures Members(l) == ps.Values
    {
      l := [];
      var rest := ps.Values;
      while rest != {}
        invariant rest <= ps.Values && Members(l) == ps.Values - rest
        decreases rest
      {
        var p :| p in rest;
        rest := rest - {p};
        assert Members(l + [p]) == Members(l) + {p};
        l := l + [p];
      }
    }

    method Bootstrap(news: seq<Position>, root: RootGrant) returns (error: Option<OrgError>)
      requires Sound(positions, sem)
      modifies this
      ensures Sound(positions, sem)
      ensures positions == After(old(positions), sem, true, Step.Bootstrap(news))
      ensures error.None? <==>
              !Refused(old(positions), sem, news) && !root.RootWithoutPosition?
              && (root.RootAt? ==> root.position in positions)
    {
      if exists p :: p in news && p.id in positions {
        return Some(Duplicate);
      }
      var current := Values(positions);
      var flaw := ValidateGovernance(current + news, sem);
      assert Members(current + news) == positions.Values + Members(news);
      if flaw.Some? {
        return Some(Ungoverned);
      }
      InstallIsSound(positions, sem, news);
      ghost var before := positions;
      for i := 0 to |news|
        invariant Install(positions, news[i..]) == Install(before, news)
      {
        assert news[i..][1..] == news[i + 1..];
        positions := positions[news[i].id := news[i]];
      }
      if root.RootWithoutPosition? {
        return Some(NoRootPosition);
      }
      if root.RootAt? && root.position !in positions {
        return Some(NotFound);
      }
      error := None;
    }

    method AddPosition(p: Position, permitted: bool) returns (error: Option<OrgError>)
      requires Sound(positions, sem)
      modifies this
      ensures Sound(positions, sem)
      ensures positions == After(old(positions), sem, permitted, Add(p))
      ensures error.None? <==> permitted && !Refused(old(positions), sem, [p])
    {
      if !permitted {
        return Some(Denied);
      }
      if p.id in positions {
        assert p in [p];
        return Some(Duplicate);
      }
      var current := Values(positions);
      var flaw := ValidateGovernance(current + [p], sem);
      assert Members(current + [p]) == positions.Values + Members([p]);
      if flaw.Some? {
        return Some(Ungoverned);
      }
      InstallIsSound(positions, sem, [p]);
      assert Install(positions, [p]) == positions[p.id := p] by {
        assert [p][1..] == [];
      }
      positions := positions[p.id := p];
      error := None;
    }

    /** `_link_superior`, edit by edit on the copy. */
    method LinkSuperior(copy: Chart, sub: Id, sup: Option<Id>) returns (r: Result<Chart, OrgError>)
      ensures r == Link(copy, sub, sup)
    {
      if sup == Some(sub) {
        return Err(SelfSuperior);
      }
      if sup.Some? && sup.value !in copy {
        return Err(NotFound);
      }
      if sub !in copy {
        return Err(NotFound);
      }
      var ps := copy;
      var former := ps[sub].superior;
      if former.Some? && former.value in ps && former != sup {
        var boss := ps[former.value];
        ps := ps[former.value := boss.(subordinates := Without(boss.subordinates, sub))];
      }
      ps := ps[sub := ps[sub].(superior := sup)];
      if sup.Some? && sub !in ps[sup.value].subordinates {
        var boss := ps[sup.value];
        ps := ps[sup.value := boss.(subordinates := boss.subordinates + [sub])];
      }
      r := Ok(ps);
      assert sup.Some? ==> ps[sup.value := ps[sup.value]] == ps;
    }

    method Edited(copy: Chart, e: Edit) returns (r: Result<Chart, OrgError>)
      ensures r == Prospective(copy, e)
    {
      match e
      case SetSuperior(p, sup) => r := LinkSuperior(copy, p, sup);
      case AddSubordinate(m, s) => r := LinkSuperior(copy, s, Some(m));
      case RemoveSubordinate(m, s) => r := Unlink(copy, m, s);
      case AddCollaborator(p, o) => r := AddCollaboration(copy, p, o);
      case RemoveCollaborator(p, o) => r := DropCollaboration(copy, p, o);
      case RemovePosition(p) => r := Ok(Remove(copy, p));
    }

    /** The common path of edge edits and removal: copy, validate, apply.  A refused edit
        leaves the positions as they were. */
    method MutatePositions(e: Edit, permitted: bool) returns (error: Option<OrgError>)
      requires Sound(positions, sem)
      modifies this
      ensures Sound(positions, sem)
      ensures match Perform(old(positions), sem, permitted, e)
              case Ok(next) => error == None && positions == next
              case Err(problem) => error == Some(problem) && positions == old(positions)
      ensures old(TwoWay(positions)) ==> TwoWay(positions)
    {
      if !permitted {
        return Some(Denied);
      }
      if Subject(e) !in positions {
        return Some(NotFound);
      }
      var next := Edited(positions, e);
      if next.Err? {
        return Some(next.error);
      }
      var l := Values(next.value);
      var flaw := ValidateGovernance(l, sem);
      if flaw.Some? {
        return Some(Ungoverned);
      }
      EditsKeepKeys(positions, e);
      if TwoWay(positions) {
        EditsKeepTwoWay(positions, e);
      }
      positions := next.value;
      error := None;
    }
  }
}
