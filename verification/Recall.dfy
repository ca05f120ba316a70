/** Trigger-based memory recall: an inverted index kept in step with every write, and
    the query and ranking that run over it. Lower-casing is a parameter. */
module Recall {
  import opened Common
  import Text

  type Id(==, !new) = string
  type Kind(==, !new) = string

  datatype Entry = Entry(id: Id, kind: Kind, title: string, points: seq<string>)

  type Index = map<string, set<Id>>
  type TriggerMap = map<Id, set<string>>

  // ----- triggers -----

  /** The title and the memory points, lower-cased, empty texts left out. */
  function Triggers(lower: string -> string, e: Entry): set<string> {
    (set p | p in e.points && p != "" :: lower(p)) + (if e.title == "" then {} else {lower(e.title)})
  }

  predicate Listed(index: Index, token: string, id: Id) {
    token in index && id in index[token]
  }

  predicate Triggered(triggers: TriggerMap, id: Id, token: string) {
    id in triggers && token in triggers[id]
  }

  /** The index is the inverse relation of the trigger map, without empty buckets. */
  ghost predicate Inverse(index: Index, triggers: TriggerMap) {
    (forall token :: token in index ==> index[token] != {}) &&
    forall token, id :: Listed(index, token, id) <==> Triggered(triggers, id, token)
  }

  /** A trigger map has one inverse, so the index holds no history. */
  lemma {:induction false} InverseIsUnique(a: Index, b: Index, triggers: TriggerMap)
    requires Inverse(a, triggers) && Inverse(b, triggers)
    ensures a == b
  {
    forall token ensures token in a <==> token in b {
      if token in a {
        var id :| id in a[token];
        assert Listed(a, token, id) && Listed(b, token, id);
      }
      if token in b {
        var id :| id in b[token];
        assert Listed(b, token, id) && Listed(a, token, id);
      }
    }
    forall token | token in a ensures a[token] == b[token] {
      forall id ensures id in a[token] <==> id in b[token] {
        assert Listed(a, token, id) <==> Listed(b, token, id);
      }
    }
  }

  function WithEntry(index: Index, token: string, id: Id): Index {
    index[token := (if token in index then index[token] else {}) + {id}]
  }

  /** Discards the id and drops a bucket that becomes empty. */
  function WithoutEntry(index: Index, token: string, id: Id): Index {
    var rest := (if token in index then index[token] else {}) - {id};
    if rest == {} then index - {token} else index[token := rest]
  }

  lemma {:induction false} WithEntryInverts(
    index: Index, triggers: TriggerMap, id: Id, tokens: set<string>, token: string)
    requires Inverse(index, triggers[id := tokens])
    ensures Inverse(WithEntry(index, token, id), triggers[id := tokens + {token}])
  {
    var next := WithEntry(index, token, id);
    forall t, i ensures Listed(next, t, i) <==> Triggered(triggers[id := tokens + {token}], i, t) {
      assert Listed(index, t, i) <==> Triggered(triggers[id := tokens], i, t);
    }
  }

  lemma {:induction false} WithoutEntryInverts(
    index: Index, triggers: TriggerMap, id: Id, tokens: set<string>, token: string)
    requires Inverse(index, triggers[id := tokens])
    ensures Inverse(WithoutEntry(index, token, id), triggers[id := tokens - {token}])
  {
    var next := WithoutEntry(index, token, id);
    forall t, i ensures Listed(next, t, i) <==> Triggered(triggers[id := tokens - {token}], i, t) {
      assert Listed(index, t, i) <==> Triggered(triggers[id := tokens], i, t);
    }
  }

  lemma {:induction false} NoTriggersIsAbsent(index: Index, triggers: TriggerMap, id: Id)
    ensures Inverse(index, triggers[id := {}]) <==> Inverse(index, triggers - {id})
  {
    assert forall i, t :: Triggered(triggers[id := {}], i, t) <==> Triggered(triggers - {id}, i, t);
  }

  // ----- what a run of writes leaves -----

  datatype Write = Put(entry: Entry) | Fold(entry: Entry) | Evict(id: Id)

  /** The entry that `id` was last given, unless it was evicted since. */
  ghost function Latest(writes: seq<Write>, id: Id): Option<Entry> {
    if writes == [] then None
    else
      var last := writes[|writes| - 1];
      if last.Evict? then (if last.id == id then None else Latest(writes[..|writes| - 1], id))
      else if last.entry.id == id then Some(last.entry)
      else Latest(writes[..|writes| - 1], id)
  }

  ghost predicate Reflects(lower: string -> string, triggers: TriggerMap, writes: seq<Write>) {
    forall id :: (id in triggers <==> Latest(writes, id).Some?)
                 && (id in triggers ==> triggers[id] == Triggers(lower, Latest(writes, id).value))
  }

  predicate Matches(q: string, tokens: set<string>) {
    exists token :: token in tokens && Text.IsSubstring(q, token)
  }

  class RecallIndex {
    const lower: string -> string
    var index: Index
    var triggers: TriggerMap

    ghost predicate Valid()
      reads this
    {
      Inverse(index, triggers)
    }

    constructor (lower: string -> string)
      ensures Valid() && triggers == map[] && this.lower == lower
    {
      this.lower := lower;
      index := map[];
      triggers := map[];
    }

    function TriggersOf(id: Id): set<string>
      reads this
    {
      if id in triggers then triggers[id] else {}
    }

    /** Takes `id` out of the bucket of each of its stale tokens. */
    method Drop(id: Id, stale: set<string>, ghost kept: set<string>, ghost base: TriggerMap)
      requires stale !! kept && Inverse(index, base[id := kept + stale])
      modifies this`index
      ensures Inverse(index, base[id := kept])
    {
      var pending := stale;
      while pending != {}
        invariant pending <= stale
        invariant Inverse(index, base[id := kept + pending])
      {
        var token :| token in pending;
        WithoutEntryInverts(index, base, id, kept + pending, token);
        index := WithoutEntry(index, token, id);
        assert kept + pending - {token} == kept + (pending - {token});
        pending := pending - {token};
      }
      assert kept + {} == kept;
    }

    method Enter(id: Id, added: set<string>, ghost kept: set<string>, ghost base: TriggerMap)
      requires Inverse(index, base[id := kept])
      modifies this`index
      ensures Inverse(index, base[id := kept + added])
    {
      var pending := added;
      assert kept + (added - pending) == kept;
      while pending != {}
        invariant pending <= added
        invariant Inverse(index, base[id := kept + (added - pending)])
      {
        var token :| token in pending;
        WithEntryInverts(index, base, id, kept + (added - pending), token);
        index := WithEntry(index, token, id);
        assert kept + (added - pending) + {token} == kept + (added - (pending - {token}));
        pending := pending - {token};
      }
      assert added - {} == added;
    }

    method OnPut(e: Entry)
      requires Valid()
      modifies this
      ensures Valid()
      ensures triggers == old(triggers)[e.id := Triggers(lower, e)]
    {
      var renewed := Triggers(lower, e);
      var stale := TriggersOf(e.id);
      if e.id !in triggers {
        NoTriggersIsAbsent(index, triggers, e.id);
        assert triggers - {e.id} == triggers;
      } else {
        assert triggers[e.id := stale] == triggers;
      }
      assert stale == stale * renewed + (stale - renewed);
      Drop(e.id, stale - renewed, stale * renewed, triggers);
      Enter(e.id, renewed - stale, stale * renewed, triggers);
      assert renewed == stale * renewed + (renewed - stale);
      triggers := triggers[e.id := renewed];
    }

    method OnEvict(id: Id)
      requires Valid()
      modifies this
      ensures Valid()
      ensures triggers == old(triggers) - {id}
    {
      var stale := TriggersOf(id);
      NoTriggersIsAbsent(index, triggers, id);
      if id !in triggers {
        assert triggers - {id} == triggers;
      } else {
        assert triggers[id := stale] == triggers;
      }
      assert {} + stale == stale;
      Drop(id, stale, {}, triggers);
      NoTriggersIsAbsent(index, triggers, id);
      triggers := triggers - {id};
    }

    method OnFold(e: Entry)
      requires Valid()
      modifies this
      ensures Valid()
      ensures triggers == old(triggers)[e.id := Triggers(lower, e)]
    {
      OnPut(e);
    }

    /** Any run of writes leaves the exact inverse of what the run last said of each id. */
    method Perform(writes: seq<Write>)
      requires Valid() && triggers == map[]
      modifies this
      ensures Valid()
      ensures Reflects(lower, triggers, writes)
    {
      for n := 0 to |writes|
        invariant Valid()
        invariant Reflects(lower, triggers, writes[..n])
      {
        var w := writes[n];
        assert writes[..n + 1][..n] == writes[..n] && writes[..n + 1][n] == w;
        ghost var before := triggers;
        match w
        case Put(e) => OnPut(e);
        case Fold(e) => OnFold(e);
        case Evict(id) => OnEvict(id);
        StepReflects(lower, before, triggers, writes[..n], w);
        assert writes[..n] + [w] == writes[..n + 1];
      }
      assert writes[..|writes|] == writes;
    }

    method Lookup(token: string) returns (ids: set<Id>)
      requires Valid()
      ensures forall id :: id in ids <==> Triggered(triggers, id, lower(token))
    {
      var q := lower(token);
      ids := if q in index then index[q] else {};
      assert forall id :: id in ids <==> Listed(index, q, id);
    }

    method SubstringSearch(query: string) returns (ids: set<Id>)
      requires Valid()
      ensures forall id :: id in ids <==> id in triggers && Matches(lower(query), triggers[id])
    {
      var q := lower(query);
      ids := {};
      var pending := index.Keys;
      while pending != {}
        invariant pending <= index.Keys
        invariant forall id :: id in ids
                               <==> exists t :: t in index.Keys - pending && Text.IsSubstring(q, t)
                                                && Listed(index, t, id)
      {
        var token :| token in pending;
        if Text.IsSubstring(q, token) {
          ids := ids + index[token];
        }
        pending := pending - {token};
      }
      forall id ensures id in ids <==> id in triggers && Matches(q, triggers[id]) {
        if id in ids {
          var t :| t in index.Keys && Text.IsSubstring(q, t) && Listed(index, t, id);
          assert Triggered(triggers, id, t);
        }
        if id in triggers && Matches(q, triggers[id]) {
          var t :| t in triggers[id] && Text.IsSubstring(q, t);
          assert Triggered(triggers, id, t);
          assert Listed(index, t, id);
        }
      }
    }
  }

  lemma {:induction false} StepReflects(
    lower: string -> string, before: TriggerMap, after: TriggerMap, writes: seq<Write>, w: Write)
    requires Reflects(lower, before, writes)
    requires after == if w.Evict? then before - {w.id} else before[w.entry.id := Triggers(lower, w.entry)]
    ensures Reflects(lower, after, writes + [w])
  {
    assert (writes + [w])[..|writes|] == writes;
  }

  // ----- querying -----

  type Store = map<Id, Entry>

  datatype Candidate = Candidate(entry: Entry, matched: set<string>, score: nat)

  ghost predicate Keyed(store: Store) {
    forall id :: id in store ==> store[id].id == id
  }

  /** The query terms that occur inside some trigger token. */
  function Hits(lower: string -> string, terms: seq<string>, tokens: set<string>): set<string> {
    set t | t in terms && t != "" && Matches(lower(lower(t)), tokens)
  }

  predicate Wanted(kinds: seq<Kind>, e: Entry) {
    kinds == [] || e.kind in kinds
  }

  ghost predicate Found(
    lower: string -> string, terms: seq<string>, triggers: TriggerMap, store: Store, kinds: seq<Kind>, id: Id)
  {
    id in store && id in triggers && Wanted(kinds, store[id]) && Hits(lower, terms, triggers[id]) != {}
  }

  ghost predicate Genuine(
    lower: string -> string, terms: seq<string>, triggers: TriggerMap, store: Store, kinds: seq<Kind>, c: Candidate)
  {
    var id := c.entry.id;
    Found(lower, terms, triggers, store, kinds, id)
    && c == Candidate(store[id], Hits(lower, terms, triggers[id]), |Hits(lower, terms, triggers[id])|)
  }

  ghost predicate DistinctIds(cs: seq<Candidate>) {
    forall i, j :: 0 <= i < j < |cs| ==> cs[i].entry.id != cs[j].entry.id
  }

  ghost function Ids(cs: seq<Candidate>): set<Id> {
    set c | c in cs :: c.entry.id
  }

  type HitMap = map<Id, set<string>>

  function HitsOf(hits: HitMap, id: Id): set<string> {
    if id in hits then hits[id] else {}
  }

  method AddHits(hits: HitMap, ids: set<Id>, term: string) returns (more: HitMap)
    ensures forall id :: HitsOf(more, id) == HitsOf(hits, id) + if id in ids then {term} else {}
    ensures more.Keys == hits.Keys + ids
  {
    more := hits;
    var pending := ids;
    while pending != {}
      invariant pending <= ids
      invariant forall id :: HitsOf(more, id) == HitsOf(hits, id) + if id in ids - pending then {term} else {}
      invariant more.Keys == hits.Keys + (ids - pending)
    {
      var id :| id in pending;
      more := more[id := HitsOf(more, id) + {term}];
      pending := pending - {id};
    }
  }

  /** The hits collected so far are those of a scan over the trigger map. */
  ghost predicate Collected(lower: string -> string, terms: seq<string>, triggers: TriggerMap, hits: HitMap) {
    && (forall id :: id in hits ==> hits[id] != {} && id in triggers)
    && forall id :: id in triggers ==> HitsOf(hits, id) == Hits(lower, terms, triggers[id])
  }

  lemma {:induction false} TermCollected(
    lower: string -> string, terms: seq<string>, term: string, triggers: TriggerMap, hits: HitMap, more: HitMap,
    ids: set<Id>)
    requires Collected(lower, terms, triggers, hits) && term != ""
    requires forall id :: HitsOf(more, id) == HitsOf(hits, id) + if id in ids then {term} else {}
    requires more.Keys == hits.Keys + ids
    requires forall id :: id in ids <==> id in triggers && Matches(lower(lower(term)), triggers[id])
    ensures Collected(lower, terms + [term], triggers, more)
  {
    forall id | id in triggers ensures HitsOf(more, id) == Hits(lower, terms + [term], triggers[id]) {
      assert HitsOf(hits, id) == Hits(lower, terms, triggers[id]);
    }
    forall id | id in more ensures more[id] != {} && id in triggers {
      assert HitsOf(more, id) == more[id];
    }
  }

  lemma {:induction false} EmptyTermCollected(
    lower: string -> string, terms: seq<string>, triggers: TriggerMap, hits: HitMap)
    requires Collected(lower, terms, triggers, hits)
    ensures Collected(lower, terms + [""], triggers, hits)
  {
    forall id | id in triggers ensures HitsOf(hits, id) == Hits(lower, terms + [""], triggers[id]) {
      assert HitsOf(hits, id) == Hits(lower, terms, triggers[id]);
    }
  }

  method AddBoth(hits: HitMap, exact: set<Id>, partial: set<Id>, term: string) returns (more: HitMap)
    requires exact <= partial
    ensures forall id :: HitsOf(more, id) == HitsOf(hits, id) + if id in partial then {term} else {}
    ensures more.Keys == hits.Keys + partial
  {
    more := AddHits(hits, exact, term);
    more := AddHits(more, partial, term);
  }

  /** Exact lookups first, then containment; an exact match also counts as containment. */
  method CollectTerm(index: RecallIndex, ghost terms: seq<string>, term: string, hits: HitMap) returns (more: HitMap)
    requires index.Valid() && term != ""
    requires Collected(index.lower, terms, index.triggers, hits)
    ensures Collected(index.lower, terms + [term], index.triggers, more)
  {
    var q := index.lower(term);
    var exact := index.Lookup(q);
    var partial := index.SubstringSearch(q);
    assert exact <= partial by {
      TextContainsItself(index.lower(q));
    }
    more := AddBoth(hits, exact, partial, term);
    TermCollected(index.lower, terms, term, index.triggers, hits, more, partial);
  }

  method CollectHits(index: RecallIndex, terms: seq<string>) returns (hits: HitMap)
    requires index.Valid()
    ensures Collected(index.lower, terms, index.triggers, hits)
  {
    hits := map[];
    for n := 0 to |terms|
      invariant Collected(index.lower, terms[..n], index.triggers, hits)
    {
      if terms[n] == "" {
        EmptyTermCollected(index.lower, terms[..n], index.triggers, hits);
      } else {
        hits := CollectTerm(index, terms[..n], terms[n], hits);
      }
      assert terms[..n] + [terms[n]] == terms[..n + 1];
    }
    assert terms[..|terms|] == terms;
  }

  lemma {:induction false} TextContainsItself(s: string)
    ensures Text.IsSubstring(s, s)
  {
    assert s[0..0 + |s|] == s;
    assert Text.OccursAt(s, s, 0);
  }

  /** One candidate for each hit that the store holds and the filter lets through. */
  method MakeCandidates(hits: HitMap, store: Store, kinds: seq<Kind>) returns (cs: seq<Candidate>)
    requires Keyed(store)
    ensures forall c :: c in cs ==> c.entry.id in hits && c.entry.id in store && Wanted(kinds, c.entry)
                                    && c == Candidate(store[c.entry.id], hits[c.entry.id], |hits[c.entry.id]|)
    ensures DistinctIds(cs)
    ensures forall id :: id in hits && id in store && Wanted(kinds, store[id]) ==> id in Ids(cs)
  {
    cs := [];
    var pending := hits.Keys;
    while pending != {}
      invariant pending <= hits.Keys
      invariant forall c :: c in cs
                            ==> c.entry.id in hits.Keys - pending && c.entry.id in store && Wanted(kinds, c.entry)
                                && c == Candidate(store[c.entry.id], hits[c.entry.id], |hits[c.entry.id]|)
      invariant DistinctIds(cs)
      invariant forall id :: id in hits.Keys - pending && id in store && Wanted(kinds, store[id]) ==> id in Ids(cs)
    {
      var id :| id in pending;
      pending := pending - {id};
      if id in store && Wanted(kinds, store[id]) {
        var c := Candidate(store[id], hits[id], |hits[id]|);
        assert Ids(cs + [c]) == Ids(cs) + {id};
        cs := cs + [c];
      }
    }
  }

  /** The keyword query returns the candidates of a plain scan, each once. */
  method Query(index: RecallIndex, terms: seq<string>, store: Store, kinds: seq<Kind>) returns (cs: seq<Candidate>)
    requires index.Valid() && Keyed(store)
    ensures forall c :: c in cs ==> Genuine(index.lower, terms, index.triggers, store, kinds, c)
    ensures DistinctIds(cs)
    ensures forall id :: Found(index.lower, terms, index.triggers, store, kinds, id) <==> id in Ids(cs)
  {
    var hits := CollectHits(index, terms);
    assert forall id :: id in hits ==> HitsOf(hits, id) == hits[id];
    cs := MakeCandidates(hits, store, kinds);
    forall id | Found(index.lower, terms, index.triggers, store, kinds, id) ensures id in Ids(cs) {
      assert HitsOf(hits, id) != {};
    }
  }

  // ----- merging the query terms -----

  /** Lower-casing never empties a text. */
  ghost predicate KeepsContent(lower: string -> string) {
    forall s :: lower(s) == "" <==> s == ""
  }

  function Folded(lower: string -> string, terms: seq<string>): set<string> {
    set t | t in terms :: lower(t)
  }

  ghost predicate DistinctFolds(lower: string -> string, terms: seq<string>) {
    forall i, j :: 0 <= i < j < |terms| ==> lower(terms[i]) != lower(terms[j])
  }

  /** `merged` holds the first term of every spelling in `all`, and only those. */
  ghost predicate Merges(lower: string -> string, all: seq<string>, merged: seq<string>) {
    && DistinctFolds(lower, merged)
    && Folded(lower, merged) == Folded(lower, all)
    && forall t :: t in merged ==> t in all
  }

  method AddTerms(
    lower: string -> string, ghost all: seq<string>, merged: seq<string>, seen: set<string>, terms: seq<string>)
    returns (longer: seq<string>, known: set<string>)
    requires Merges(lower, all, merged) && seen == Folded(lower, merged)
    ensures Merges(lower, all + terms, longer) && known == Folded(lower, longer)
  {
    longer, known := merged, seen;
    assert all + terms[..0] == all;
    for n := 0 to |terms|
      invariant Merges(lower, all + terms[..n], longer) && known == Folded(lower, longer)
    {
      var t := terms[n];
      assert all + terms[..n + 1] == all + terms[..n] + [t];
      assert Folded(lower, all + terms[..n + 1]) == Folded(lower, all + terms[..n]) + {lower(t)};
      if lower(t) !in known {
        assert forall i :: 0 <= i < |longer| ==> longer[i] in longer;
        assert Folded(lower, longer + [t]) == Folded(lower, longer) + {lower(t)};
        known := known + {lower(t)};
        longer := longer + [t];
      }
    }
    assert terms[..|terms|] == terms;
  }

  /** The number of distinct case-folded terms that occur in some trigger. */
  ghost function FoldedHits(lower: string -> string, all: seq<string>, tokens: set<string>): set<string> {
    set q | q in Folded(lower, all) && q != "" && Matches(lower(q), tokens)
  }

  lemma {:induction false} InjectiveImage(f: string -> string, xs: set<string>, ys: set<string>)
    requires forall x, y :: x in xs && y in xs && f(x) == f(y) ==> x == y
    requires ys == set x | x in xs :: f(x)
    ensures |xs| == |ys|
  {
    if xs == {} {
      assert ys == {};
    } else {
      var x :| x in xs;
      var rest := xs - {x};
      assert ys - {f(x)} == set y | y in rest :: f(y);
      InjectiveImage(f, rest, ys - {f(x)});
    }
  }

  lemma {:induction false} MergedHits(
    lower: string -> string, all: seq<string>, merged: seq<string>, tokens: set<string>)
    requires KeepsContent(lower) && Merges(lower, all, merged)
    ensures |Hits(lower, merged, tokens)| == |FoldedHits(lower, all, tokens)|
  {
    var hits := Hits(lower, merged, tokens);
    var folded := FoldedHits(lower, all, tokens);
    forall q ensures q in folded <==> q in (set t | t in hits :: lower(t)) {
      if q in folded {
        assert q in Folded(lower, merged);
        var t :| t in merged && lower(t) == q;
        assert t in hits;
      }
      if t :| t in hits && lower(t) == q {
        assert q in Folded(lower, merged);
      }
    }
    assert folded == set t | t in hits :: lower(t);
    InjectiveImage(lower, hits, folded);
  }

  // ----- ranking -----

  ghost predicate Descending(cs: seq<Candidate>) {
    forall i, j :: 0 <= i < j < |cs| ==> cs[i].score >= cs[j].score
  }

  function Insert(c: Candidate, cs: seq<Candidate>): seq<Candidate> {
    if cs == [] || c.score >= cs[0].score then [c] + cs else [cs[0]] + Insert(c, cs[1..])
  }

  /** `sort(key=score, reverse=True)`: descending, equal scores keep their order. */
  function Ranked(cs: seq<Candidate>): seq<Candidate> {
    if cs == [] then [] else Insert(cs[0], Ranked(cs[1..]))
  }

  lemma {:induction false} InsertKeeps(c: Candidate, cs: seq<Candidate>)
    ensures multiset(Insert(c, cs)) == multiset(cs) + multiset{c}
  {
    if cs != [] && c.score < cs[0].score {
      assert cs == [cs[0]] + cs[1..];
      InsertKeeps(c, cs[1..]);
    }
  }

  lemma {:induction false} InsertBounded(c: Candidate, cs: seq<Candidate>, bound: nat)
    requires c.score <= bound && forall i :: 0 <= i < |cs| ==> cs[i].score <= bound
    ensures forall i :: 0 <= i < |Insert(c, cs)| ==> Insert(c, cs)[i].score <= bound
  {
    if cs != [] && c.score < cs[0].score {
      InsertBounded(c, cs[1..], bound);
    }
  }

  lemma {:induction false} InsertRanks(c: Candidate, cs: seq<Candidate>)
    requires Descending(cs)
    ensures Descending(Insert(c, cs)) && multiset(Insert(c, cs)) == multiset(cs) + multiset{c}
  {
    InsertKeeps(c, cs);
    if cs != [] && c.score < cs[0].score {
      InsertRanks(c, cs[1..]);
      InsertBounded(c, cs[1..], cs[0].score);
    }
  }

  lemma {:induction false} RankedIsSorted(cs: seq<Candidate>)
    ensures Descending(Ranked(cs)) && multiset(Ranked(cs)) == multiset(cs)
  {
    if cs != [] {
      assert cs == [cs[0]] + cs[1..];
      RankedIsSorted(cs[1..]);
      InsertRanks(cs[0], Ranked(cs[1..]));
    }
  }

  /** The length of `xs[:k]`; a negative `k` counts from the end. */
  function Cut(k: int, n: nat): (m: nat)
    ensures m <= n
  {
    if k >= n then n else if k >= 0 then k else if n + k >= 0 then n + k else 0
  }

  ghost predicate Relevant(
    lower: string -> string, all: seq<string>, triggers: TriggerMap, store: Store, kinds: seq<Kind>, id: Id)
  {
    id in store && id in triggers && Wanted(kinds, store[id]) && FoldedHits(lower, all, triggers[id]) != {}
  }

  ghost function Score(lower: string -> string, all: seq<string>, triggers: TriggerMap, id: Id): nat {
    if id in triggers then |FoldedHits(lower, all, triggers[id])| else 0
  }

  /** The score of every entry that a brute-force scan of the trigger map finds. */
  ghost function Scan(
    lower: string -> string, all: seq<string>, triggers: TriggerMap, store: Store, kinds: seq<Kind>): map<Id, nat>
  {
    map id | id in store && Relevant(lower, all, triggers, store, kinds, id) :: Score(lower, all, triggers, id)
  }

  /** `m` of `n` are kept: `k` or all of them, whichever is less; a negative `k` drops that
      many from the end, or all. */
  ghost predicate Keeps(k: int, n: nat, m: nat) {
    && (k >= 0 ==> m <= k && m <= n && (m == k || m == n))
    && (k < 0 ==> m <= n && (n - m == -k || (m == 0 && n <= -k)))
  }

  /** A descending top-k: every candidate carries its score, none appears twice, and
      nothing left out outscores anything returned. */
  ghost predicate Top(scores: map<Id, nat>, k: int, r: seq<Candidate>) {
    && (forall c :: c in r ==> c.entry.id in scores && c.score == scores[c.entry.id])
    && DistinctIds(r) && Descending(r) && Keeps(k, |scores|, |r|)
    && forall id, c :: id in scores && id !in Ids(r) && c in r ==> scores[id] <= c.score
  }

  lemma {:induction false} DistinctIdsCount(cs: seq<Candidate>)
    requires DistinctIds(cs)
    ensures |Ids(cs)| == |cs|
  {
    if cs != [] {
      var rest := cs[..|cs| - 1];
      var last := cs[|cs| - 1];
      assert cs == rest + [last];
      DistinctIdsCount(rest);
      assert Ids(cs) == Ids(rest) + {last.entry.id};
      assert last.entry.id !in Ids(rest);
    }
  }

  lemma {:induction false} IdsAreBounded(cs: seq<Candidate>)
    ensures |Ids(cs)| <= |cs|
  {
    if cs != [] {
      IdsAreBounded(cs[1..]);
      assert Ids(cs) == Ids(cs[1..]) + {cs[0].entry.id};
    }
  }

  lemma {:induction false} DistinctByCount(cs: seq<Candidate>)
    requires |Ids(cs)| == |cs|
    ensures DistinctIds(cs)
  {
    if cs != [] {
      var rest := cs[1..];
      assert Ids(cs) == Ids(rest) + {cs[0].entry.id};
      IdsAreBounded(rest);
      DistinctByCount(rest);
      assert cs[0].entry.id !in Ids(rest);
      assert forall i :: 1 <= i < |cs| ==> cs[i] == rest[i - 1] && cs[i] in rest;
    }
  }

  /** Equal bags of candidates have the same ids, and distinct ids together. */
  lemma {:induction false} PermutedIds(cs: seq<Candidate>, ds: seq<Candidate>)
    requires multiset(cs) == multiset(ds) && DistinctIds(cs)
    ensures DistinctIds(ds) && Ids(ds) == Ids(cs) && |ds| == |cs|
    ensures forall c :: c in cs <==> c in ds
  {
    assert forall c :: c in cs <==> c in multiset(cs);
    assert forall c :: c in ds <==> c in multiset(ds);
    assert |cs| == |multiset(cs)| && |ds| == |multiset(ds)|;
    assert Ids(ds) == Ids(cs);
    DistinctIdsCount(cs);
    DistinctByCount(ds);
  }

  lemma {:induction false} PrefixOutscores(ranked: seq<Candidate>, n: nat, c: Candidate, d: Candidate)
    requires Descending(ranked) && n <= |ranked|
    requires c in ranked[..n] && d in ranked && d.entry.id !in Ids(ranked[..n])
    ensures d.score <= c.score
  {
    var i :| 0 <= i < n && ranked[..n][i] == c;
    var j :| 0 <= j < |ranked| && ranked[j] == d;
    assert forall m :: 0 <= m < n ==> ranked[..n][m] in ranked[..n] && ranked[..n][m] == ranked[m];
  }

  lemma {:induction false} OmittedScoreNoMore(
    scores: map<Id, nat>, ranked: seq<Candidate>, n: nat, id: Id, c: Candidate)
    requires forall d :: d in ranked ==> d.entry.id in scores && d.score == scores[d.entry.id]
    requires Ids(ranked) == scores.Keys && Descending(ranked) && n <= |ranked|
    requires id in scores && id !in Ids(ranked[..n]) && c in ranked[..n]
    ensures scores[id] <= c.score
  {
    assert id in Ids(ranked);
    var d :| d in ranked && d.entry.id == id;
    PrefixOutscores(ranked, n, c, d);
  }

  lemma CutKeeps(k: int, n: nat)
    ensures Keeps(k, n, Cut(k, n))
  {
  }

  lemma {:induction false} PrefixIsScored(scores: map<Id, nat>, ranked: seq<Candidate>, n: nat)
    requires n <= |ranked| && forall c :: c in ranked ==> c.entry.id in scores && c.score == scores[c.entry.id]
    requires DistinctIds(ranked) && Descending(ranked)
    ensures forall c :: c in ranked[..n] ==> c.entry.id in scores && c.score == scores[c.entry.id]
    ensures DistinctIds(ranked[..n]) && Descending(ranked[..n])
  {
  }

  lemma {:induction false} CutIsTop(scores: map<Id, nat>, ranked: seq<Candidate>, k: int)
    requires forall c :: c in ranked ==> c.entry.id in scores && c.score == scores[c.entry.id]
    requires Ids(ranked) == scores.Keys && DistinctIds(ranked) && Descending(ranked)
    ensures Top(scores, k, ranked[..Cut(k, |ranked|)])
  {
    var n := Cut(k, |ranked|);
    DistinctIdsCount(ranked);
    assert |scores| == |scores.Keys|;
    CutKeeps(k, |ranked|);
    PrefixIsScored(scores, ranked, n);
    forall id, c | id in scores && id !in Ids(ranked[..n]) && c in ranked[..n] ensures scores[id] <= c.score {
      OmittedScoreNoMore(scores, ranked, n, id, c);
    }
  }

  /** Everything relevant is returned when there is room for it. */
  lemma TopReturnsAllThatFit(scores: map<Id, nat>, k: int, r: seq<Candidate>)
    requires Top(scores, k, r) && |scores| <= k
    ensures Ids(r) == scores.Keys
  {
    DistinctIdsCount(r);
    assert Ids(r) <= scores.Keys && |scores.Keys| == |scores|;
    SameSizeIsAll(Ids(r), scores.Keys);
  }

  lemma {:induction false} SameSizeIsAll<T>(a: set<T>, b: set<T>)
    requires a <= b && |a| == |b|
    ensures a == b
  {
    assert b == a + (b - a) && |b - a| == 0;
  }

  /** With `k >= 0` an entry is left out only for `k` others that score no less; with a
      negative `k` exactly `-k` entries are, or all if there are no more. */
  lemma LeftOutOfTop(scores: map<Id, nat>, k: int, r: seq<Candidate>)
    requires Top(scores, k, r)
    ensures k >= 0 ==> forall id :: id in scores && id !in Ids(r)
                                    ==> |r| == k && forall c :: c in r ==> c.score >= scores[id]
    ensures k < 0 ==> |scores.Keys - Ids(r)| == if |scores| < -k then |scores| else -k
  {
    DistinctIdsCount(r);
    assert Ids(r) <= scores.Keys && |scores.Keys| == |scores|;
    assert |scores.Keys - Ids(r)| == |scores| - |r| by {
      assert scores.Keys == Ids(r) + (scores.Keys - Ids(r));
    }
    if id :| id in scores && id !in Ids(r) {
      assert id in scores.Keys - Ids(r);
    }
  }

  // ----- ties -----

  function OfScore(cs: seq<Candidate>, n: nat): seq<Candidate> {
    if cs == [] then []
    else if cs[0].score == n then [cs[0]] + OfScore(cs[1..], n)
    else OfScore(cs[1..], n)
  }

  lemma OfScoreFront(c: Candidate, cs: seq<Candidate>, n: nat)
    ensures OfScore([c] + cs, n) == if c.score == n then [c] + OfScore(cs, n) else OfScore(cs, n)
  {
    assert ([c] + cs)[1..] == cs;
  }

  lemma {:induction false} InsertIsStable(c: Candidate, cs: seq<Candidate>, n: nat)
    ensures OfScore(Insert(c, cs), n) == if c.score == n then [c] + OfScore(cs, n) else OfScore(cs, n)
  {
    OfScoreFront(c, cs, n);
    if cs != [] && c.score < cs[0].score {
      InsertIsStable(c, cs[1..], n);
      OfScoreFront(cs[0], Insert(c, cs[1..]), n);
    }
  }

  /** Ranking keeps the order of equal scores. */
  lemma {:induction false} RankedIsStable(cs: seq<Candidate>, n: nat)
    ensures OfScore(Ranked(cs), n) == OfScore(cs, n)
  {
    if cs != [] {
      RankedIsStable(cs[1..], n);
      InsertIsStable(cs[0], Ranked(cs[1..]), n);
    }
  }

  // ----- from merged terms to candidates -----

  /** Scoring the merged terms is scoring the distinct case-folded ones. */
  lemma {:induction false} MergedScan(
    lower: string -> string, all: seq<string>, merged: seq<string>, triggers: TriggerMap, store: Store,
    kinds: seq<Kind>, id: Id)
    requires KeepsContent(lower) && Merges(lower, all, merged)
    ensures Found(lower, merged, triggers, store, kinds, id) <==> Relevant(lower, all, triggers, store, kinds, id)
    ensures id in triggers ==> |Hits(lower, merged, triggers[id])| == Score(lower, all, triggers, id)
  {
    if id in triggers {
      MergedHits(lower, all, merged, triggers[id]);
    }
  }

  lemma {:induction false} QueryIsScan(
    lower: string -> string, all: seq<string>, merged: seq<string>, triggers: TriggerMap, store: Store,
    kinds: seq<Kind>, cs: seq<Candidate>)
    requires KeepsContent(lower) && Merges(lower, all, merged)
    requires forall c :: c in cs ==> Genuine(lower, merged, triggers, store, kinds, c)
    requires forall id :: Found(lower, merged, triggers, store, kinds, id) <==> id in Ids(cs)
    ensures forall c :: c in cs ==> c.entry.id in Scan(lower, all, triggers, store, kinds)
                                    && c.score == Scan(lower, all, triggers, store, kinds)[c.entry.id]
                                    && c.entry.id in store && c.entry == store[c.entry.id]
    ensures Ids(cs) == Scan(lower, all, triggers, store, kinds).Keys
  {
    forall id ensures id in Ids(cs) <==> id in Scan(lower, all, triggers, store, kinds) {
      MergedScan(lower, all, merged, triggers, store, kinds, id);
    }
    forall c | c in cs
      ensures c.entry.id in Scan(lower, all, triggers, store, kinds)
      ensures c.score == Scan(lower, all, triggers, store, kinds)[c.entry.id]
    {
      assert Genuine(lower, merged, triggers, store, kinds, c);
      MergedScan(lower, all, merged, triggers, store, kinds, c.entry.id);
    }
  }

  class RecallConfig {
    var persistent: seq<string>
    var temporary: seq<string>

    constructor (persistent: seq<string>, temporary: seq<string>)
      ensures this.persistent == persistent && this.temporary == temporary
    {
      this.persistent, this.temporary := persistent, temporary;
    }
  }

  method MergeTerms(
    lower: string -> string, first: seq<string>, second: seq<string>, third: seq<string>) returns (merged: seq<string>)
    ensures Merges(lower, first + second + third, merged)
  {
    var seen: set<string>;
    merged, seen := AddTerms(lower, [], [], {}, first);
    assert [] + first == first;
    merged, seen := AddTerms(lower, first, merged, seen, second);
    merged, seen := AddTerms(lower, first + second, merged, seen, third);
  }

  /** Query, sort and cut for merged terms. */
  method RankMerged(
    index: RecallIndex, store: Store, ghost all: seq<string>, merged: seq<string>, k: int, kinds: seq<Kind>)
    returns (r: seq<Candidate>)
    requires index.Valid() && Keyed(store) && KeepsContent(index.lower) && Merges(index.lower, all, merged)
    ensures Top(Scan(index.lower, all, index.triggers, store, kinds), k, r)
    ensures forall c :: c in r ==> c.entry.id in store && c.entry == store[c.entry.id]
  {
    var cs := Query(index, merged, store, kinds);
    var ranked := Ranked(cs);
    r := ranked[..Cut(k, |ranked|)];
    QueryIsScan(index.lower, all, merged, index.triggers, store, kinds, cs);
    RankedIsSorted(cs);
    PermutedIds(cs, ranked);
    ghost var scores := Scan(index.lower, all, index.triggers, store, kinds);
    assert forall c :: c in r ==> c in ranked;
    CutIsTop(scores, ranked, k);
  }

  /** Recall consumes the one-off terms and returns the top of a brute-force scan. */
  method RecallTop(
    index: RecallIndex, store: Store, config: RecallConfig, contextual: seq<string>, k: int, kinds: seq<Kind>,
    consume: bool)
    returns (r: seq<Candidate>)
    requires index.Valid() && Keyed(store) && KeepsContent(index.lower)
    modifies config`temporary
    ensures Top(Scan(index.lower, contextual + config.persistent + old(config.temporary), index.triggers, store,
            kinds), k, r)
    ensures forall c :: c in r ==> c.entry.id in store && c.entry == store[c.entry.id]
    ensures config.temporary == if consume then [] else old(config.temporary)
  {
    var merged := MergeTerms(index.lower, contextual, config.persistent, config.temporary);
    ghost var all := contextual + config.persistent + config.temporary;
    if consume && config.temporary != [] {
      config.temporary := [];
    }
    r := RankMerged(index, store, all, merged, k, kinds);
  }

  // ----- the announced two-way matching -----

  /** The announced rule: the term lies in a trigger, or a trigger lies in the term. */
  predicate MatchesEitherWay(q: string, tokens: set<string>) {
    exists token :: token in tokens && (Text.IsSubstring(q, token) || Text.IsSubstring(token, q))
  }

  ghost function AnnouncedHits(lower: string -> string, all: seq<string>, tokens: set<string>): set<string> {
    set q | q in Folded(lower, all) && q != "" && MatchesEitherWay(lower(q), tokens)
  }

  ghost predicate AnnouncedRelevant(
    lower: string -> string, all: seq<string>, triggers: TriggerMap, store: Store, kinds: seq<Kind>, id: Id)
  {
    id in store && id in triggers && Wanted(kinds, store[id]) && AnnouncedHits(lower, all, triggers[id]) != {}
  }

  ghost function AnnouncedScore(lower: string -> string, all: seq<string>, triggers: TriggerMap, id: Id): nat {
    if id in triggers then |AnnouncedHits(lower, all, triggers[id])| else 0
  }

  /** The scores a scan by the announced rule would give. */
  ghost function AnnouncedScan(
    lower: string -> string, all: seq<string>, triggers: TriggerMap, store: Store, kinds: seq<Kind>): map<Id, nat>
  {
    map id | id in store && AnnouncedRelevant(lower, all, triggers, store, kinds, id) ::
      AnnouncedScore(lower, all, triggers, id)
  }

  /** A term that contains a trigger is contained in one as well. */
  ghost predicate NothingMissed(lower: string -> string, all: seq<string>, tokens: set<string>) {
    forall q, token :: q in Folded(lower, all) && q != "" && token in tokens && Text.IsSubstring(token, lower(q))
                       ==> Matches(lower(q), tokens)
  }

  lemma {:induction false} AnnouncedHitsAgreeIff(lower: string -> string, all: seq<string>, tokens: set<string>)
    ensures FoldedHits(lower, all, tokens) <= AnnouncedHits(lower, all, tokens)
    ensures FoldedHits(lower, all, tokens) == AnnouncedHits(lower, all, tokens) <==> NothingMissed(lower, all, tokens)
  {
    var found, announced := FoldedHits(lower, all, tokens), AnnouncedHits(lower, all, tokens);
    if found == announced {
      forall q, token | q in Folded(lower, all) && q != "" && token in tokens && Text.IsSubstring(token, lower(q))
        ensures Matches(lower(q), tokens)
      {
        assert q in announced;
      }
    }
  }

  lemma {:induction false} EqualSizesAgree(a: set<string>, b: set<string>)
    requires a <= b && |a| == |b|
    ensures a == b
  {
    assert b == a + (b - a);
    assert |b - a| == 0;
  }

  /** What the code finds and what it announces are the same entries with the same scores
      exactly when, for every entry the filter admits, no term contains a trigger without
      being contained in one. */
  lemma {:induction false} ScansAgreeIff(
    lower: string -> string, all: seq<string>, triggers: TriggerMap, store: Store, kinds: seq<Kind>)
    ensures Scan(lower, all, triggers, store, kinds) == AnnouncedScan(lower, all, triggers, store, kinds)
            <==> forall id :: id in store && id in triggers && Wanted(kinds, store[id])
                              ==> NothingMissed(lower, all, triggers[id])
  {
    var found, announced := Scan(lower, all, triggers, store, kinds), AnnouncedScan(lower, all, triggers, store, kinds);
    forall id | id in store && id in triggers && Wanted(kinds, store[id])
      ensures NothingMissed(lower, all, triggers[id])
              <==> (id in found <==> id in announced) && (id in found && id in announced ==> found[id] == announced[id])
    {
      EntryAgreesIff(lower, all, triggers, store, kinds, id);
    }
    assert forall id :: id in found || id in announced ==> id in store && id in triggers && Wanted(kinds, store[id]);
  }

  lemma {:induction false} EntryAgreesIff(
    lower: string -> string, all: seq<string>, triggers: TriggerMap, store: Store, kinds: seq<Kind>, id: Id)
    requires id in store && id in triggers && Wanted(kinds, store[id])
    ensures var found, announced :=
              Scan(lower, all, triggers, store, kinds), AnnouncedScan(lower, all, triggers, store, kinds);
            NothingMissed(lower, all, triggers[id])
            <==> (id in found <==> id in announced) && (id in found && id in announced ==> found[id] == announced[id])
  {
    var hits, announced := FoldedHits(lower, all, triggers[id]), AnnouncedHits(lower, all, triggers[id]);
    AnnouncedHitsAgreeIff(lower, all, triggers[id]);
    if |hits| == |announced| {
      EqualSizesAgree(hits, announced);
    }
  }

  /** A term that continues a trigger is announced to match it and does not. */
  lemma {:induction false} LongerTermIsMissed(lower: string -> string, token: string, more: string)
    requires more != "" && lower(lower(token + more)) == token + more
    ensures Hits(lower, [token + more], {token}) == {}
    ensures MatchesEitherWay(lower(lower(token + more)), {token})
  {
    var term := token + more;
    assert !Text.IsSubstring(term, token);
    assert term[0..0 + |token|] == token;
    assert Text.OccursAt(token, term, 0);
    assert Text.IsSubstring(token, term);
    assert token in {token};
  }

  lemma {:induction false} RefundRequestIsMissed()
    ensures Hits((s: string) => s, ["refund" + " request"], {"refund"}) == {}
    ensures MatchesEitherWay("refund" + " request", {"refund"})
  {
    LongerTermIsMissed((s: string) => s, "refund", " request");
  }

  // ----- index and store in step -----

  ghost predicate StoreReflects(store: Store, writes: seq<Write>) {
    forall id :: (id in store <==> Latest(writes, id).Some?) && (id in store ==> store[id] == Latest(writes, id).value)
  }

  /** When index and store saw the same writes, the trigger map is what a scan of the
      store would extract. */
  lemma {:induction false} SameWritesAreInStep(
    lower: string -> string, triggers: TriggerMap, store: Store, writes: seq<Write>)
    requires Reflects(lower, triggers, writes) && StoreReflects(store, writes)
    ensures triggers == map id | id in store :: Triggers(lower, store[id])
  {
    assert forall id :: id in triggers <==> id in store;
  }

  /** The text lies in the entry's title or in one of its memory points. */
  ghost predicate Mentions(lower: string -> string, e: Entry, q: string) {
    exists text :: (text == e.title || text in e.points) && text != "" && Text.IsSubstring(q, lower(text))
  }

  /** The spellings among the terms that the entry mentions. */
  ghost function Mentioned(lower: string -> string, all: seq<string>, e: Entry): set<string> {
    set t | t in all && t != "" && Mentions(lower, e, lower(lower(t))) :: lower(t)
  }

  /** A scan of the entries themselves: those of a wanted kind that mention some term, scored
      by the number of spellings they mention. */
  ghost function StoreScan(lower: string -> string, all: seq<string>, store: Store, kinds: seq<Kind>): map<Id, nat> {
    map id | id in store && (kinds == [] || store[id].kind in kinds) && Mentioned(lower, all, store[id]) != {}
      :: |Mentioned(lower, all, store[id])|
  }

  lemma {:induction false} MentionsIffMatches(lower: string -> string, e: Entry, q: string)
    ensures Mentions(lower, e, q) <==> Matches(q, Triggers(lower, e))
  {
    if text :| (text == e.title || text in e.points) && text != "" && Text.IsSubstring(q, lower(text)) {
      assert lower(text) in Triggers(lower, e);
    }
    if token :| token in Triggers(lower, e) && Text.IsSubstring(q, token) {
      var text :| (text == e.title || text in e.points) && text != "" && lower(text) == token;
    }
  }

  lemma {:induction false} FoldedHitsAreMentioned(lower: string -> string, all: seq<string>, e: Entry)
    requires KeepsContent(lower)
    ensures FoldedHits(lower, all, Triggers(lower, e)) == Mentioned(lower, all, e)
  {
    forall q ensures Mentions(lower, e, q) <==> Matches(q, Triggers(lower, e)) {
      MentionsIffMatches(lower, e, q);
    }
  }

  /** Scanning the triggers of the stored entries is scanning the entries. */
  lemma {:induction false} TriggerScanIsStoreScan(
    lower: string -> string, all: seq<string>, triggers: TriggerMap, store: Store, kinds: seq<Kind>)
    requires KeepsContent(lower) && triggers == map id | id in store :: Triggers(lower, store[id])
    ensures Scan(lower, all, triggers, store, kinds) == StoreScan(lower, all, store, kinds)
  {
    forall id | id in store ensures FoldedHits(lower, all, triggers[id]) == Mentioned(lower, all, store[id]) {
      FoldedHitsAreMentioned(lower, all, store[id]);
    }
  }

  lemma {:induction false} ScanAfterWrites(
    lower: string -> string, all: seq<string>, triggers: TriggerMap, store: Store, kinds: seq<Kind>,
    writes: seq<Write>)
    requires KeepsContent(lower) && Reflects(lower, triggers, writes) && StoreReflects(store, writes)
    ensures Scan(lower, all, triggers, store, kinds) == StoreScan(lower, all, store, kinds)
  {
    SameWritesAreInStep(lower, triggers, store, writes);
    TriggerScanIsStoreScan(lower, all, triggers, store, kinds);
  }

  /** With an index and a store that saw the same writes, recall is the top of a plain scan
      of the store itself. */
  method RecallAfterWrites(
    index: RecallIndex, writes: seq<Write>, store: Store, config: RecallConfig, contextual: seq<string>, k: int,
    kinds: seq<Kind>, consume: bool)
    returns (r: seq<Candidate>)
    requires index.Valid() && index.triggers == map[] && KeepsContent(index.lower)
    requires Keyed(store) && StoreReflects(store, writes)
    modifies index, config`temporary
    ensures Top(StoreScan(index.lower, contextual + config.persistent + old(config.temporary), store, kinds), k, r)
    ensures forall c :: c in r ==> c.entry.id in store && c.entry == store[c.entry.id]
  {
    ghost var all := contextual + config.persistent + config.temporary;
    index.Perform(writes);
    ScanAfterWrites(index.lower, all, index.triggers, store, kinds, writes);
    r := RecallTop(index, store, config, contextual, k, kinds, consume);
  }
}
