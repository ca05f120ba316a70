/** An agent's refined memory: one version chain per entry, writes that record how to
    undo themselves, and the rollback that replays those records backwards. */
module MemoryStore {
  import opened Common

  type Id(==, !new) = string

  datatype Entry = Entry(id: Id, version: int, injected: bool, body: string)

  type Chain = seq<Entry>

  datatype Error =
    | InjectedEntry
    | IdMismatch
    | BadVersion(expected: int)
    | NotStored

  // ----- chains -----

  /** Never empty, one id, versions that rise by one. */
  predicate SoundChain(id: Id, c: Chain) {
    c != [] && forall i :: 0 <= i < |c| ==> c[i].id == id && c[i].version == c[0].version + i
  }

  function Appended(c: Chain, e: Entry): (r: Result<Chain, Error>)
    requires c != []
  {
    if e.id != c[0].id then Err(IdMismatch)
    else if e.version != c[|c| - 1].version + 1 then Err(BadVersion(c[|c| - 1].version + 1))
    else Ok(c + [e])
  }

  /** Rebuilding a chain by appending its entries one after the other. */
  function Rebuilt(c: Chain): (r: Result<Chain, Error>)
    requires c != []
    ensures r.Ok? ==> r.value != []
  {
    if |c| == 1 then Ok(c)
    else
      var front := Rebuilt(c[..|c| - 1]);
      if front.Err? then front else Appended(front.value, c[|c| - 1])
  }

  /** A snapshot can be rebuilt exactly when it is a sound chain. */
  lemma {:induction false} RebuiltIffSound(c: Chain)
    requires c != []
    ensures Rebuilt(c).Ok? <==> SoundChain(c[0].id, c)
    ensures Rebuilt(c).Ok? ==> Rebuilt(c).value == c
  {
    if |c| > 1 {
      var front := c[..|c| - 1];
      assert c == front + [c[|c| - 1]];
      RebuiltIffSound(front);
      assert forall i :: 0 <= i < |front| ==> front[i] == c[i];
    }
  }

  // ----- stores as values -----

  type Store = map<Id, Chain>

  predicate Sound(s: Store) {
    forall id :: id in s ==> SoundChain(id, s[id])
  }

  /** What an effect records before the write: the id and the chain it had, if any. */
  datatype Undo = Undo(id: Id, before: Option<Chain>)

  datatype Op = Put(entry: Entry) | Evict(id: Id) | Fold(id: Id, entry: Entry)

  /** The new store, the effect that was staged if any, and the exception if any. */
  datatype Step = Step(store: Store, staged: Option<Undo>, error: Option<Error>)

  function Held(s: Store, id: Id): Option<Chain> {
    if id in s then Some(s[id]) else None
  }

  function Written(s: Store, e: Entry): Result<Store, Error>
    requires Sound(s)
  {
    if e.id in s then
      var longer := Appended(s[e.id], e);
      if longer.Err? then Err(longer.error) else Ok(s[e.id := longer.value])
    else if e.version != 1 then Err(BadVersion(1))
    else Ok(s[e.id := [e]])
  }

  function Perform(s: Store, op: Op): Step
    requires Sound(s)
  {
    match op
    case Put(e) =>
      if e.injected then Step(s, None, Some(InjectedEntry))
      else
        var written := Written(s, e);
        var undo := Some(Undo(e.id, Held(s, e.id)));
        if written.Ok? then Step(written.value, undo, None) else Step(s, undo, Some(written.error))
    case Evict(id) =>
      if id !in s then Step(s, None, None) else Step(s - {id}, Some(Undo(id, Some(s[id]))), None)
    case Fold(id, e) =>
      if e.id != id then Step(s, None, Some(IdMismatch))
      else if id !in s then Step(s, None, Some(NotStored))
      else Step(s[id := [e]], Some(Undo(id, Some(s[id]))), None)
  }

  function RolledBack(s: Store, u: Undo): Result<Store, Error>
    requires u.before.Some? ==> u.before.value != []
  {
    if u.before.None? then Ok(s - {u.id})
    else
      var chain := Rebuilt(u.before.value);
      if chain.Err? then Err(chain.error) else Ok(s[u.id := chain.value])
  }

  // ----- runs -----

  datatype Run = Run(store: Store, staged: seq<Undo>)

  function Prepended(us: seq<Undo>, r: Run): Run {
    Run(r.store, us + r.staged)
  }

  lemma PrependedTwice(us: seq<Undo>, vs: seq<Undo>, r: Run)
    ensures Prepended(us, Prepended(vs, r)) == Prepended(us + vs, r)
  {
    ConcatAssociates(us, vs, r.staged);
  }

  function Staged(step: Step): seq<Undo> {
    if step.staged.Some? then [step.staged.value] else []
  }

  /** A sequence of operations, collecting the effects in staging order. */
  function RunAll(s: Store, ops: seq<Op>): (r: Run)
    requires Sound(s)
    ensures Sound(r.store)
    decreases |ops|
  {
    if ops == [] then Run(s, [])
    else
      PerformKeepsSound(s, ops[0]);
      var step := Perform(s, ops[0]);
      Prepended(Staged(step), RunAll(step.store, ops[1..]))
  }

  predicate Replayable(us: seq<Undo>) {
    forall i :: 0 <= i < |us| && us[i].before.Some? ==> us[i].before.value != []
  }

  /** Rolls the effects back, the last one first. */
  function Unwound(s: Store, us: seq<Undo>): Result<Store, Error>
    requires Replayable(us)
    decreases |us|
  {
    if us == [] then Ok(s)
    else
      var next := RolledBack(s, us[|us| - 1]);
      if next.Err? then next else Unwound(next.value, us[..|us| - 1])
  }

  lemma PerformKeepsSound(s: Store, op: Op)
    requires Sound(s)
    ensures Sound(Perform(s, op).store)
  {
  }

  /** The effect of one operation, accepted or not, undoes exactly that operation. */
  lemma UndoRestores(s: Store, op: Op)
    requires Sound(s)
    ensures var step := Perform(s, op);
            match step.staged
            case None => step.store == s
            case Some(u) => (u.before.Some? ==> u.before.value != []) && RolledBack(step.store, u) == Ok(s)
  {
    var step := Perform(s, op);
    if step.staged.Some? {
      var u := step.staged.value;
      if u.id in s {
        RebuiltIffSound(s[u.id]);
        assert step.store[u.id := s[u.id]] == s;
      } else {
        assert step.store - {u.id} == s;
      }
    }
  }

  lemma {:induction false} UnwoundSplits(s: Store, us: seq<Undo>, vs: seq<Undo>)
    requires Replayable(us) && Replayable(vs)
    ensures Replayable(us + vs)
    ensures Unwound(s, us + vs) == var mid := Unwound(s, vs); if mid.Err? then mid else Unwound(mid.value, us)
    decreases |vs|
  {
    if vs == [] {
      assert us + vs == us;
    } else {
      var front := vs[..|vs| - 1];
      assert (us + vs)[..|us + vs| - 1] == us + front;
      var next := RolledBack(s, vs[|vs| - 1]);
      if next.Ok? {
        UnwoundSplits(next.value, us, front);
      }
    }
  }

  /** Rolling a run's effects back in reverse restores the store and never fails, from
      every sound store and for every sequence of operations. */
  lemma {:induction false} RollbackRestores(s: Store, ops: seq<Op>)
    requires Sound(s)
    ensures Replayable(RunAll(s, ops).staged)
    ensures Unwound(RunAll(s, ops).store, RunAll(s, ops).staged) == Ok(s)
    decreases |ops|
  {
    if ops != [] {
      var step := Perform(s, ops[0]);
      UndoRestores(s, ops[0]);
      var rest := RunAll(step.store, ops[1..]);
      RollbackRestores(step.store, ops[1..]);
      if step.staged.Some? {
        var first := [step.staged.value];
        UnwoundSplits(rest.store, first, rest.staged);
        assert first[..0] == [];
      } else {
        assert [] + rest.staged == rest.staged;
      }
    }
  }

  predicate RecordsSoundChain(u: Undo) {
    u.before.Some? ==> SoundChain(u.id, u.before.value)
  }

  lemma RolledBackIsSound(s: Store, u: Undo)
    requires Sound(s) && RecordsSoundChain(u)
    ensures RolledBack(s, u).Ok? && Sound(RolledBack(s, u).value)
  {
    if u.before.Some? {
      RebuiltIffSound(u.before.value);
    }
  }

  predicate AllSound(us: seq<Undo>) {
    forall i :: 0 <= i < |us| ==> RecordsSoundChain(us[i])
  }

  lemma StagedIsSound(s: Store, op: Op)
    requires Sound(s)
    ensures AllSound(Staged(Perform(s, op)))
  {
  }

  lemma AllSoundAppends(us: seq<Undo>, vs: seq<Undo>)
    requires AllSound(us) && AllSound(vs)
    ensures AllSound(us + vs)
  {
  }

  lemma {:induction false} RunsRecordSoundChains(s: Store, ops: seq<Op>)
    requires Sound(s)
    ensures AllSound(RunAll(s, ops).staged)
    decreases |ops|
  {
    if ops != [] {
      var next := Perform(s, ops[0]).store;
      PerformKeepsSound(s, ops[0]);
      StagedIsSound(s, ops[0]);
      RunsRecordSoundChains(next, ops[1..]);
      AllSoundAppends(Staged(Perform(s, ops[0])), RunAll(next, ops[1..]).staged);
    }
  }

  // ----- projected entries stay out -----

  predicate NoInjected(s: Store) {
    forall id, i :: id in s && 0 <= i < |s[id]| ==> !s[id][i].injected
  }

  /** Only a fold can bring a projected entry into the store: it does so exactly when it
      is accepted with one. */
  lemma InjectedEntersOnlyByFold(s: Store, op: Op)
    requires Sound(s) && NoInjected(s)
    ensures NoInjected(Perform(s, op).store)
            <==> !(op.Fold? && op.entry.injected && op.entry.id == op.id && op.id in s)
  {
    var next := Perform(s, op).store;
    if op.Fold? && op.entry.id == op.id && op.id in s {
      assert next[op.id][0] == op.entry;
    }
  }

  // ----- versions -----

  function CurrentVersion(s: Store, id: Id): int
    requires Sound(s) && id in s
  {
    s[id][|s[id]| - 1].version
  }

  function Target(op: Op): Id {
    match op
    case Put(e) => e.id
    case Evict(id) => id
    case Fold(id, _) => id
  }

  /** What the store takes: a put of the next version, or of version one for a new entry, that
      is not projected; a fold onto a stored entry of the same id; any eviction. */
  lemma AcceptedIff(s: Store, op: Op)
    requires Sound(s)
    ensures Perform(s, op).error == None
            <==> match op
                 case Put(e) => !e.injected && e.version == if e.id in s then CurrentVersion(s, e.id) + 1 else 1
                 case Evict(_) => true
                 case Fold(id, e) => e.id == id && id in s
    ensures Perform(s, op).error == None
            ==> var next := Perform(s, op).store;
                match op
                case Put(e) => next == s[e.id := (if e.id in s then s[e.id] else []) + [e]]
                case Evict(id) => next == s - {id}
                case Fold(id, e) => next == s[id := [e]]
    ensures Perform(s, op).error != None ==> Perform(s, op).store == s
  {
    if op.Put? && op.entry.id !in s {
      assert [] + [op.entry] == [op.entry];
    }
  }

  /** An accepted write raises the version of its entry unless it is a fold to a version
      that is not above the current one: nothing checks that. */
  lemma WriteRaisesVersionIff(s: Store, op: Op)
    requires Sound(s) && Target(op) in s && !op.Evict? && Perform(s, op).error == None
    ensures var next := Perform(s, op).store;
            && Target(op) in next && Sound(next)
            && (CurrentVersion(next, Target(op)) > CurrentVersion(s, Target(op))
                <==> !(op.Fold? && op.entry.version <= CurrentVersion(s, Target(op))))
  {
    PerformKeepsSound(s, op);
  }

  /** What the constructor of an entry demands of its version. */
  predicate Constructible(e: Entry) {
    e.version >= 1
  }

  /** A fold accepts every entry of the right id that can be constructed, whatever its
      version. */
  lemma FoldTakesAnyVersion(s: Store, e: Entry)
    requires Sound(s) && e.id in s && Constructible(e)
    ensures var step := Perform(s, Fold(e.id, e)); step.error == None && step.store[e.id] == [e]
  {
  }

  /** So an entry can fall back to its first version. */
  lemma FoldCanLowerVersion(s: Store, e: Entry)
    requires Sound(s) && e.id in s && e.version == 1 && CurrentVersion(s, e.id) > 1
    ensures var next := Perform(s, Fold(e.id, e)).store;
            Sound(next) && e.id in next && CurrentVersion(next, e.id) < CurrentVersion(s, e.id)
  {
    PerformKeepsSound(s, Fold(e.id, e));
  }

  // ----- the objects -----

  class VersionChain {
    var chain: Chain

    constructor (initial: Entry)
      ensures chain == [initial]
    {
      chain := [initial];
    }

    method AppendVersion(e: Entry) returns (error: Option<Error>)
      requires chain != []
      modifies this
      ensures match old(Appended(chain, e))
              case Ok(longer) => error == None && chain == longer
              case Err(why) => error == Some(why) && chain == old(chain)
    {
      if e.id != chain[0].id {
        return Some(IdMismatch);
      }
      var expected := chain[|chain| - 1].version + 1;
      if e.version != expected {
        return Some(BadVersion(expected));
      }
      chain := chain + [e];
      return None;
    }
  }

  class AgentMemory {
    var store: map<Id, VersionChain>

    ghost function Chains(): set<VersionChain>
      reads this
    {
      set id | id in store :: store[id]
    }

    ghost function Contents(): Store
      reads this, Chains()
    {
      map id | id in store :: store[id].chain
    }

    /** No two entries share a chain object. */
    ghost predicate Separate()
      reads this
    {
      forall i, j :: i in store && j in store && i != j ==> store[i] != store[j]
    }

    ghost predicate Valid()
      reads this, Chains()
    {
      Separate() && Sound(Contents())
    }

    constructor ()
      ensures Valid() && Contents() == map[] && Chains() == {}
    {
      store := map[];
    }

    function Snapshot(id: Id): Option<Chain>
      reads this, if id in store then {store[id]} else {}
    {
      if id in store then Some(store[id].chain) else None
    }

    /** Files a chain object that no other entry uses. */
    method Install(id: Id, chain: VersionChain)
      requires Separate() && chain !in Chains()
      modifies this
      ensures Separate() && Chains() <= old(Chains()) + {chain}
      ensures Contents() == old(Contents())[id := chain.chain]
    {
      store := store[id := chain];
    }

    /** `_apply_write`. */
    method Write(e: Entry) returns (error: Option<Error>)
      requires Valid()
      modifies this, Chains()
      ensures Valid() && fresh(Chains() - old(Chains()))
      ensures match old(Written(Contents(), e))
              case Ok(next) => error == None && Contents() == next
              case Err(why) => error == Some(why) && Contents() == old(Contents())
    {
      WrittenIsSound(Contents(), e);
      if e.id in store {
        error := Append(e);
      } else if e.version != 1 {
        error := Some(BadVersion(1));
      } else {
        var chain := new VersionChain(e);
        Install(e.id, chain);
        error := None;
      }
    }

    /** Extends a stored chain in place; every other chain object is left alone. */
    method Append(e: Entry) returns (error: Option<Error>)
      requires Separate() && e.id in store && store[e.id].chain != []
      modifies store[e.id]
      ensures match old(Appended(store[e.id].chain, e))
              case Ok(longer) => error == None && Contents() == old(Contents())[e.id := longer]
              case Err(why) => error == Some(why) && Contents() == old(Contents())
    {
      error := store[e.id].AppendVersion(e);
      assert forall id :: id in store && id != e.id ==> store[id].chain == old(store[id].chain);
    }

    method Put(e: Entry) returns (staged: Option<Undo>, error: Option<Error>)
      requires Valid()
      modifies this, Chains()
      ensures Valid() && fresh(Chains() - old(Chains()))
      ensures Step(Contents(), staged, error) == old(Perform(Contents(), Op.Put(e)))
    {
      if e.injected {
        return None, Some(InjectedEntry);
      }
      staged := Some(Undo(e.id, Snapshot(e.id)));
      error := Write(e);
    }

    method Evict(id: Id) returns (staged: Option<Undo>, error: Option<Error>)
      requires Valid()
      modifies this, Chains()
      ensures Valid() && fresh(Chains() - old(Chains()))
      ensures Step(Contents(), staged, error) == old(Perform(Contents(), Op.Evict(id)))
    {
      PerformKeepsSound(Contents(), Op.Evict(id));
      if id !in store {
        return None, None;
      }
      staged := Some(Undo(id, Snapshot(id)));
      store := store - {id};
      assert Contents() == old(Contents()) - {id};
      error := None;
    }

    method Fold(id: Id, e: Entry) returns (staged: Option<Undo>, error: Option<Error>)
      requires Valid()
      modifies this, Chains()
      ensures Valid() && fresh(Chains() - old(Chains()))
      ensures Step(Contents(), staged, error) == old(Perform(Contents(), Op.Fold(id, e)))
    {
      PerformKeepsSound(Contents(), Op.Fold(id, e));
      if e.id != id {
        return None, Some(IdMismatch);
      }
      if id !in store {
        return None, Some(NotStored);
      }
      staged := Some(Undo(id, Snapshot(id)));
      var chain := new VersionChain(e);
      Install(id, chain);
      error := None;
    }

    method RollbackEffect(u: Undo) returns (error: Option<Error>)
      requires Valid() && (u.before.Some? ==> u.before.value != [])
      modifies this, Chains()
      ensures Separate() && fresh(Chains() - old(Chains()))
      ensures match old(RolledBack(Contents(), u))
              case Ok(next) => error == None && Contents() == next
              case Err(why) => error == Some(why) && Contents() == old(Contents())
    {
      if u.before.None? {
        store := store - {u.id};
        assert Contents() == old(Contents()) - {u.id};
        return None;
      }
      var restored := new VersionChain(u.before.value[0]);
      error := Restore(restored, u.before.value);
      if error.None? {
        Install(u.id, restored);
      }
    }

    method PerformOne(op: Op) returns (staged: Option<Undo>, error: Option<Error>)
      requires Valid()
      modifies this, Chains()
      ensures Valid() && fresh(Chains() - old(Chains()))
      ensures Step(Contents(), staged, error) == old(Perform(Contents(), op))
    {
      match op
      case Put(e) => staged, error := Put(e);
      case Evict(id) => staged, error := Evict(id);
      case Fold(id, e) => staged, error := Fold(id, e);
    }

    /** Runs operations, rejected ones included, and returns the effects they staged. */
    method PerformAll(ops: seq<Op>) returns (staged: seq<Undo>)
      requires Valid()
      modifies this, Chains()
      ensures Valid() && fresh(Chains() - old(Chains()))
      ensures Run(Contents(), staged) == RunAll(old(Contents()), ops)
    {
      staged := [];
      assert ops[0..] == ops;
      for n := 0 to |ops|
        invariant Valid() && fresh(Chains() - old(Chains()))
        invariant RunAll(old(Contents()), ops) == Prepended(staged, RunAll(Contents(), ops[n..]))
      {
        ghost var before := Contents();
        var undo, _ := PerformOne(ops[n]);
        assert ops[n..][1..] == ops[n + 1..] && ops[n..][0] == ops[n];
        ghost var step := Perform(before, ops[n]);
        PrependedTwice(staged, Staged(step), RunAll(step.store, ops[n + 1..]));
        if undo.Some? {
          staged := staged + [undo.value];
        } else {
          assert staged + [] == staged;
        }
      }
      assert ops[|ops|..] == [];
    }

    /** Rolls effects back one by one, the last one first. */
    method Unwind(staged: seq<Undo>) returns (error: Option<Error>)
      requires Valid() && Replayable(staged) && AllSound(staged)
      modifies this, Chains()
      ensures Valid() && error == None && Ok(Contents()) == old(Unwound(Contents(), staged))
    {
      var n := |staged|;
      assert staged[..n] == staged;
      while n > 0
        invariant 0 <= n <= |staged|
        invariant Valid() && fresh(Chains() - old(Chains()))
        invariant Unwound(Contents(), staged[..n]) == old(Unwound(Contents(), staged))
      {
        assert staged[..n][..n - 1] == staged[..n - 1];
        RolledBackIsSound(Contents(), staged[n - 1]);
        error := RollbackEffect(staged[n - 1]);
        n := n - 1;
      }
      error := None;
    }

    /** Whatever was attempted, unwinding its effects leaves the store as it was. */
    method PerformAndUnwind(ops: seq<Op>) returns (error: Option<Error>)
      requires Valid()
      modifies this, Chains()
      ensures Valid() && error == None && Contents() == old(Contents())
    {
      RollbackRestores(Contents(), ops);
      RunsRecordSoundChains(Contents(), ops);
      var staged := PerformAll(ops);
      error := Unwind(staged);
    }

    /** Appends the rest of the snapshot to a chain that holds its first entry. */
    method Restore(restored: VersionChain, snapshot: Chain) returns (error: Option<Error>)
      requires snapshot != [] && restored.chain == [snapshot[0]]
      modifies restored
      ensures match Rebuilt(snapshot)
              case Ok(chain) => error == None && restored.chain == chain
              case Err(why) => error == Some(why)
    {
      assert snapshot[..1] == [snapshot[0]];
      for n := 1 to |snapshot|
        invariant restored.chain != [] && Rebuilt(snapshot[..n]) == Ok(restored.chain)
      {
        assert snapshot[..n + 1][..n] == snapshot[..n];
        error := restored.AppendVersion(snapshot[n]);
        if error.Some? {
          RebuildFails(snapshot, n + 1);
          return;
        }
      }
      assert snapshot[..|snapshot|] == snapshot;
      return None;
    }
  }

  lemma WrittenIsSound(s: Store, e: Entry)
    requires Sound(s)
    ensures Written(s, e).Ok? ==> Sound(Written(s, e).value)
  {
  }

  /** A chain whose prefix cannot be rebuilt fails with the prefix's error. */
  lemma {:induction false} RebuildFails(c: Chain, n: nat)
    requires 1 <= n <= |c| && Rebuilt(c[..n]).Err?
    ensures Rebuilt(c) == Rebuilt(c[..n])
    decreases |c|
  {
    if n == |c| {
      assert c[..n] == c;
    } else {
      assert c[..|c| - 1][..n] == c[..n];
      RebuildFails(c[..|c| - 1], n);
    }
  }
}
