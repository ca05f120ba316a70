/** The recall index beside the memory store: every accepted write is passed on to the
    index, but a rollback is not. */
module RecallSync {
  import opened Common
  import opened MemoryStore
  import Recall

  /** How an entry of the store looks to the index. */
  type View = Entry -> Recall.Entry

  function Current(c: Chain): Entry
    requires c != []
  {
    c[|c| - 1]
  }

  function TriggersOf(lower: string -> string, view: View, c: Chain): set<string>
    requires c != []
  {
    Recall.Triggers(lower, view(Current(c)))
  }

  /** The triggers that a scan of the store would extract. */
  function StoreTriggers(lower: string -> string, view: View, s: Store): Recall.TriggerMap
    requires Sound(s)
  {
    map id | id in s :: TriggersOf(lower, view, s[id])
  }

  predicate InStep(lower: string -> string, view: View, triggers: Recall.TriggerMap, s: Store)
    requires Sound(s)
  {
    triggers == StoreTriggers(lower, view, s)
  }

  // ----- writes are passed on -----

  /** The trigger map after the notification that follows an accepted write. */
  function Notified(
    lower: string -> string, view: View, triggers: Recall.TriggerMap, op: Op, accepted: bool): Recall.TriggerMap
  {
    if !accepted then triggers
    else
      match op
      case Put(e) => triggers[e.id := Recall.Triggers(lower, view(e))]
      case Fold(id, e) => triggers[id := Recall.Triggers(lower, view(e))]
      case Evict(id) => triggers - {id}
  }

  lemma TriggersAfterChange(lower: string -> string, view: View, s: Store, id: Id, c: Chain)
    requires Sound(s) && SoundChain(id, c)
    ensures Sound(s[id := c])
    ensures StoreTriggers(lower, view, s[id := c]) == StoreTriggers(lower, view, s)[id := TriggersOf(lower, view, c)]
  {
  }

  lemma TriggersAfterLoss(lower: string -> string, view: View, s: Store, id: Id)
    requires Sound(s)
    ensures Sound(s - {id}) && StoreTriggers(lower, view, s - {id}) == StoreTriggers(lower, view, s) - {id}
  {
  }

  /** An accepted put or fold makes its entry the current one of its id. */
  lemma AcceptedIsCurrent(s: Store, op: Op)
    requires Sound(s) && !op.Evict? && Perform(s, op).error == None
    ensures var c := Perform(s, op).store;
            Target(op) in c && SoundChain(Target(op), c[Target(op)]) && c == s[Target(op) := c[Target(op)]]
            && Current(c[Target(op)]) == op.entry
  {
    PerformKeepsSound(s, op);
  }

  lemma WritesKeepInStep(lower: string -> string, view: View, triggers: Recall.TriggerMap, s: Store, op: Op)
    requires Sound(s) && InStep(lower, view, triggers, s)
    ensures Sound(Perform(s, op).store)
    ensures InStep(lower, view, Notified(lower, view, triggers, op, Perform(s, op).error == None), Perform(s, op).store)
  {
    PerformKeepsSound(s, op);
    var step := Perform(s, op);
    if op.Evict? {
      EvictDrops(s, op.id);
      TriggersAfterLoss(lower, view, s, op.id);
    } else if step.error == None {
      AcceptedIsCurrent(s, op);
      TriggersAfterChange(lower, view, s, Target(op), step.store[Target(op)]);
    } else {
      assert step.store == s;
    }
  }

  lemma EvictDrops(s: Store, id: Id)
    requires Sound(s)
    ensures Perform(s, Evict(id)).store == s - {id} && Perform(s, Evict(id)).error == None
  {
    assert id !in s ==> s - {id} == s;
  }

  // ----- rollbacks are not -----

  /** Undoing the effect does not change what its entry is recalled by. */
  predicate Invisible(lower: string -> string, view: View, s: Store, u: Undo)
    requires Sound(s) && RecordsSoundChain(u)
  {
    match u.before
    case None => u.id !in s
    case Some(c) => u.id in s && TriggersOf(lower, view, c) == TriggersOf(lower, view, s[u.id])
  }

  lemma IdleChange(triggers: Recall.TriggerMap, id: Id, tokens: set<string>)
    ensures triggers[id := tokens] == triggers <==> id in triggers && triggers[id] == tokens
    ensures triggers - {id} == triggers <==> id !in triggers
  {
    assert triggers[id := tokens][id] == tokens;
    assert id !in triggers - {id};
  }

  /** After one rollback the index still agrees with the store exactly when the entry was
      there before and after, with the same triggers, or at neither time. */
  lemma RollbackKeepsInStepIff(lower: string -> string, view: View, triggers: Recall.TriggerMap, s: Store, u: Undo)
    requires Sound(s) && RecordsSoundChain(u) && InStep(lower, view, triggers, s)
    ensures RolledBack(s, u).Ok? && Sound(RolledBack(s, u).value)
    ensures InStep(lower, view, triggers, RolledBack(s, u).value) <==> Invisible(lower, view, s, u)
  {
    RolledBackIsSound(s, u);
    match u.before
    case None =>
      TriggersAfterLoss(lower, view, s, u.id);
      IdleChange(triggers, u.id, {});
    case Some(c) =>
      RebuiltIffSound(c);
      TriggersAfterChange(lower, view, s, u.id, c);
      IdleChange(triggers, u.id, TriggersOf(lower, view, c));
  }

  /** The triggers after a run in which every accepted write was passed on. */
  function NotifiedAll(
    lower: string -> string, view: View, triggers: Recall.TriggerMap, s: Store, ops: seq<Op>): Recall.TriggerMap
    requires Sound(s)
    decreases |ops|
  {
    if ops == [] then triggers
    else
      PerformKeepsSound(s, ops[0]);
      var step := Perform(s, ops[0]);
      NotifiedAll(lower, view, Notified(lower, view, triggers, ops[0], step.error == None), step.store, ops[1..])
  }

  lemma {:induction false} RunKeepsInStep(
    lower: string -> string, view: View, triggers: Recall.TriggerMap, s: Store, ops: seq<Op>)
    requires Sound(s) && InStep(lower, view, triggers, s)
    ensures InStep(lower, view, NotifiedAll(lower, view, triggers, s, ops), RunAll(s, ops).store)
    decreases |ops|
  {
    if ops != [] {
      WritesKeepInStep(lower, view, triggers, s, ops[0]);
      var step := Perform(s, ops[0]);
      RunKeepsInStep(lower, view, Notified(lower, view, triggers, ops[0], step.error == None), step.store, ops[1..]);
    }
  }

  /** The run left every entry recalled by what it was recalled by before. */
  predicate SameRecall(lower: string -> string, view: View, s: Store, t: Store)
    requires Sound(s) && Sound(t)
  {
    s.Keys == t.Keys && forall id :: id in s ==> TriggersOf(lower, view, s[id]) == TriggersOf(lower, view, t[id])
  }

  /** A run is unwound: the store is as before, and the index agrees with it exactly when the
      run had changed no entry's triggers on balance. */
  lemma UnwoundInStepIff(lower: string -> string, view: View, triggers: Recall.TriggerMap, s: Store, ops: seq<Op>)
    requires Sound(s) && InStep(lower, view, triggers, s)
    ensures Replayable(RunAll(s, ops).staged) && Unwound(RunAll(s, ops).store, RunAll(s, ops).staged) == Ok(s)
    ensures InStep(lower, view, NotifiedAll(lower, view, triggers, s, ops), s)
            <==> SameRecall(lower, view, s, RunAll(s, ops).store)
  {
    RollbackRestores(s, ops);
    RunKeepsInStep(lower, view, triggers, s, ops);
    var before, after := StoreTriggers(lower, view, s), StoreTriggers(lower, view, RunAll(s, ops).store);
    if before == after {
      assert before.Keys == s.Keys && after.Keys == RunAll(s, ops).store.Keys;
      forall id | id in s ensures TriggersOf(lower, view, s[id]) == TriggersOf(lower, view, RunAll(s, ops).store[id]) {
        assert before[id] == after[id];
      }
    }
  }

  /** A first version that is rolled back stays in the index. */
  lemma RolledBackPutStaysIndexed(lower: string -> string, view: View, triggers: Recall.TriggerMap, s: Store, e: Entry)
    requires Sound(s) && InStep(lower, view, triggers, s) && e.id !in s && e.version == 1 && !e.injected
    ensures RunAll(s, [Put(e)]).staged == [Undo(e.id, None)]
    ensures e.id in NotifiedAll(lower, view, triggers, s, [Put(e)])
    ensures !InStep(lower, view, NotifiedAll(lower, view, triggers, s, [Put(e)]), s)
  {
    assert [Put(e)][1..] == [];
    var step := Perform(s, Put(e));
    assert RunAll(step.store, []) == Run(step.store, []);
    assert NotifiedAll(lower, view, triggers, s, [Put(e)]) == Notified(lower, view, triggers, Put(e), true);
  }
}
