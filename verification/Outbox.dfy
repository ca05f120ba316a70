/** The email outbox: idempotent staging, dispatch through a callback that may fail,
    bounded retry, and rollback of what has not been delivered. */
module Outbox {
  import opened Common

  datatype Status = Staged | Committed | Dispatching | Dispatched | Failed | Dead

  datatype Entry = Entry(
    id: string,
    key: string,
    payload: string,
    status: Status,
    attempts: nat,
    maxRetries: nat,
    nextRetry: Option<int>,
    dispatchedAt: Option<int>)

  /** The entries in insertion order, and the idempotency keys in use. */
  datatype State = State(entries: seq<Entry>, keys: set<string>, maxRetries: nat)

  /** What the callback does with each entry in one dispatch: deliver it or raise. */
  type Delivery = string -> bool

  // ----- operations -----

  function WithKey(entries: seq<Entry>, key: string): (found: Option<Entry>)
    ensures found.Some? <==> exists e :: e in entries && e.key == key
    ensures found.Some? ==> found.value in entries && found.value.key == key
  {
    if entries == [] then None
    else if entries[0].key == key then Some(entries[0])
    else WithKey(entries[1..], key)
  }

  function Fresh(s: State, id: string, key: string, payload: string): Entry {
    Entry(id, key, payload, Staged, 0, s.maxRetries, None, None)
  }

  /** A key in use returns the entry that has it. */
  function StagedEntry(s: State, id: string, key: string, payload: string): Entry {
    if key in s.keys && WithKey(s.entries, key).Some? then WithKey(s.entries, key).value else Fresh(s, id, key, payload)
  }

  function StagedState(s: State, id: string, key: string, payload: string): State {
    if key in s.keys && WithKey(s.entries, key).Some? then s
    else s.(entries := s.entries + [Fresh(s, id, key, payload)], keys := s.keys + {key})
  }

  function WithId(entries: seq<Entry>, id: string): (found: Option<Entry>)
    ensures found.Some? <==> exists e :: e in entries && e.id == id
    ensures found.Some? ==> found.value in entries && found.value.id == id
  {
    if entries == [] then None
    else if entries[0].id == id then Some(entries[0])
    else WithId(entries[1..], id)
  }

  function Commits(e: Entry, id: string): Entry {
    if e.id == id && e.status.Staged? then e.(status := Committed) else e
  }

  function CommittedState(s: State, id: string): State {
    s.(entries := seq(|s.entries|, i requires 0 <= i < |s.entries| => Commits(s.entries[i], id)))
  }

  predicate Due(e: Entry, tick: int) {
    e.status.Committed? && (e.nextRetry.None? || tick >= e.nextRetry.value)
  }

  /** One entry in one dispatch. */
  function Attempted(e: Entry, ok: bool, tick: int): Entry {
    if !Due(e, tick) then e
    else if ok then e.(status := Dispatched, dispatchedAt := Some(tick))
    else if e.attempts + 1 > e.maxRetries then e.(status := Dead, attempts := e.attempts + 1)
    else e.(status := Committed, attempts := e.attempts + 1, nextRetry := Some(tick + 1))
  }

  function DispatchedState(s: State, deliver: Delivery, tick: int): State {
    s.(entries := seq(|s.entries|,
        i requires 0 <= i < |s.entries| => Attempted(s.entries[i], deliver(s.entries[i].id), tick)))
  }

  /** The entries handed to the callback that it delivered (or not), in order. */
  function Tried(entries: seq<Entry>, deliver: Delivery, tick: int, ok: bool): seq<Entry> {
    if entries == [] then []
    else
      var front := Tried(entries[..|entries| - 1], deliver, tick, ok);
      var last := entries[|entries| - 1];
      if Due(last, tick) && deliver(last.id) == ok then front + [Attempted(last, ok, tick)] else front
  }

  function Removed(entries: seq<Entry>, id: string): (r: seq<Entry>)
    ensures forall e :: e in r <==> e in entries && e.id != id
  {
    if entries == [] then []
    else if entries[0].id == id then Removed(entries[1..], id)
    else [entries[0]] + Removed(entries[1..], id)
  }

  /** Both rollbacks: an entry is dropped only while it has the given status. */
  function RolledBack(s: State, id: string, status: Status): State {
    var found := WithId(s.entries, id);
    if found.Some? && found.value.status == status then
      s.(entries := Removed(s.entries, id), keys := s.keys - {found.value.key})
    else s
  }

  // ----- runs -----

  datatype Op =
    | Stage(id: string, key: string, payload: string)
    | Commit(id: string)
    | Dispatch(deliver: Delivery, tick: int)
    | Rollback(id: string)
    | RollbackCommitted(id: string)

  /** An outbox together with what an observer of the callback sees: the keys delivered so
      far and how often the callback ran for each entry id. */
  datatype Session = Session(state: State, used: set<string>, delivered: seq<string>, calls: map<string, nat>)

  function CallsOf(calls: map<string, nat>, id: string): nat {
    if id in calls then calls[id] else 0
  }

  function Keys(entries: seq<Entry>): seq<string> {
    seq(|entries|, i requires 0 <= i < |entries| => entries[i].key)
  }

  predicate DueId(entries: seq<Entry>, id: string, tick: int) {
    exists e :: e in entries && e.id == id && Due(e, tick)
  }

  function Charged(calls: map<string, nat>, entries: seq<Entry>, tick: int): map<string, nat> {
    map id | id in calls.Keys + (set e | e in entries :: e.id) ::
      CallsOf(calls, id) + if DueId(entries, id, tick) then 1 else 0
  }

  function DispatchedSession(s: Session, deliver: Delivery, tick: int): Session {
    s.(state := DispatchedState(s.state, deliver, tick),
       delivered := s.delivered + Keys(Tried(s.state.entries, deliver, tick, true)),
       calls := Charged(s.calls, s.state.entries, tick))
  }

  function Perform(s: Session, op: Op): Session {
    match op
    case Stage(id, key, payload) => s.(state := StagedState(s.state, id, key, payload), used := s.used + {id})
    case Commit(id) => s.(state := CommittedState(s.state, id))
    case Dispatch(deliver, tick) => DispatchedSession(s, deliver, tick)
    case Rollback(id) => s.(state := RolledBack(s.state, id, Staged))
    case RollbackCommitted(id) => s.(state := RolledBack(s.state, id, Committed))
  }

  /** Entry ids are generated fresh. */
  predicate Disciplined(s: Session, op: Op) {
    op.Stage? ==> op.id !in s.used
  }

  // ----- the invariant -----

  ghost predicate DistinctEntries(entries: seq<Entry>) {
    forall i, j :: 0 <= i < j < |entries| ==> entries[i].id != entries[j].id && entries[i].key != entries[j].key
  }

  function KeySet(entries: seq<Entry>): set<string> {
    set e | e in entries :: e.key
  }

  /** The attempts an entry can have in each status. */
  predicate Accounted(e: Entry, maxRetries: nat) {
    && e.maxRetries == maxRetries
    && (e.status.Staged? || e.status.Committed? || e.status.Dispatched? || e.status.Dead?)
    && (if e.status.Dead? then e.attempts == maxRetries + 1 else e.attempts <= maxRetries)
  }

  function CallsMade(e: Entry): nat {
    e.attempts + if e.status.Dispatched? then 1 else 0
  }

  ghost predicate Sent(entries: seq<Entry>, key: string) {
    exists e :: e in entries && e.key == key && e.status.Dispatched?
  }

  ghost predicate Inv(s: Session) {
    && DistinctEntries(s.state.entries)
    && s.state.keys == KeySet(s.state.entries)
    && (forall e :: e in s.state.entries
                    ==> e.id in s.used && Accounted(e, s.state.maxRetries) && CallsOf(s.calls, e.id) == CallsMade(e))
    && (forall id :: CallsOf(s.calls, id) <= s.state.maxRetries + 1)
    && (forall id :: id in s.calls ==> id in s.used)
    && Distinct(s.delivered)
    && (forall key :: key in s.delivered ==> Sent(s.state.entries, key))
  }

  // ----- each step keeps it -----

  lemma StageKeepsInv(s: Session, id: string, key: string, payload: string)
    requires Inv(s) && id !in s.used
    ensures Inv(Perform(s, Stage(id, key, payload)))
  {
    var entries := s.state.entries;
    var next := StagedState(s.state, id, key, payload).entries;
    assert forall i :: 0 <= i < |entries| ==> entries[i] in entries;
    assert forall e :: e in entries ==> e in next;
    if key !in s.state.keys || WithKey(entries, key).None? {
      assert key !in KeySet(entries);
      assert KeySet(next) == KeySet(entries) + {key};
    }
  }

  lemma CommitKeepsInv(s: Session, id: string)
    requires Inv(s)
    ensures Inv(Perform(s, Commit(id)))
  {
    var entries := s.state.entries;
    var next := CommittedState(s.state, id).entries;
    SameKeys(entries, next);
    forall e | e in next ensures e.id in s.used && Accounted(e, s.state.maxRetries)
           && CallsOf(s.calls, e.id) == CallsMade(e) {
      var i :| 0 <= i < |next| && next[i] == e;
      assert entries[i] in entries;
    }
    forall key | key in s.delivered ensures Sent(next, key) {
      assert Sent(entries, key);
      var e :| e in entries && e.key == key && e.status.Dispatched?;
      var i :| 0 <= i < |entries| && entries[i] == e;
      assert next[i] == e && next[i] in next;
    }
  }

  lemma SameKeys(a: seq<Entry>, b: seq<Entry>)
    requires |a| == |b| && forall i :: 0 <= i < |a| ==> a[i].key == b[i].key && a[i].id == b[i].id
    ensures KeySet(a) == KeySet(b)
    ensures DistinctEntries(a) ==> DistinctEntries(b)
  {
    forall key ensures key in KeySet(a) <==> key in KeySet(b) {
      if key in KeySet(a) {
        var e :| e in a && e.key == key;
        var i :| 0 <= i < |a| && a[i] == e;
        assert b[i] in b;
      }
      if key in KeySet(b) {
        var e :| e in b && e.key == key;
        var i :| 0 <= i < |b| && b[i] == e;
        assert a[i] in a;
      }
    }
  }

  lemma {:induction false} RemovedStaysDistinct(entries: seq<Entry>, id: string)
    requires DistinctEntries(entries)
    ensures DistinctEntries(Removed(entries, id))
  {
    if entries != [] {
      RemovedStaysDistinct(entries[1..], id);
      var rest := Removed(entries[1..], id);
      assert forall i :: 0 <= i < |rest| ==> rest[i] in rest;
      assert forall e :: e in entries[1..] ==> exists i :: 1 <= i < |entries| && entries[i] == e;
    }
  }

  /** An entry that was never delivered can go, and takes its key with it. */
  lemma RollbackKeepsInv(s: Session, id: string, status: Status)
    requires Inv(s) && !status.Dispatched?
    ensures Inv(s.(state := RolledBack(s.state, id, status)))
  {
    var entries := s.state.entries;
    var found := WithId(entries, id);
    if found.Some? && found.value.status == status {
      var kept := Removed(entries, id);
      RemovedStaysDistinct(entries, id);
      forall e | e in entries && e.key == found.value.key ensures e == found.value {
        OneEntryPerKey(entries, e, found.value);
      }
      forall e | e in entries && e.id == id ensures e == found.value {
        OneEntryPerId(entries, e, found.value);
      }
      assert KeySet(kept) == KeySet(entries) - {found.value.key};
      forall key | key in s.delivered ensures Sent(kept, key) {
        assert Sent(entries, key);
        var e :| e in entries && e.key == key && e.status.Dispatched?;
        assert e in kept;
      }
    }
  }

  lemma OneEntryPerKey(entries: seq<Entry>, a: Entry, b: Entry)
    requires DistinctEntries(entries) && a in entries && b in entries && a.key == b.key
    ensures a == b
  {
    var i :| 0 <= i < |entries| && entries[i] == a;
    var j :| 0 <= j < |entries| && entries[j] == b;
  }

  lemma OneEntryPerId(entries: seq<Entry>, a: Entry, b: Entry)
    requires DistinctEntries(entries) && a in entries && b in entries && a.id == b.id
    ensures a == b
  {
    var i :| 0 <= i < |entries| && entries[i] == a;
    var j :| 0 <= j < |entries| && entries[j] == b;
  }

  lemma {:induction false} TriedMeaning(entries: seq<Entry>, deliver: Delivery, tick: int)
    requires DistinctEntries(entries)
    ensures Distinct(Keys(Tried(entries, deliver, tick, true)))
    ensures forall key :: key in Keys(Tried(entries, deliver, tick, true))
                          <==> exists e :: e in entries && e.key == key && Due(e, tick) && deliver(e.id)
  {
    if entries != [] {
      var front := entries[..|entries| - 1];
      var last := entries[|entries| - 1];
      assert entries == front + [last];
      TriedMeaning(front, deliver, tick);
      var keys := Keys(Tried(front, deliver, tick, true));
      if Due(last, tick) && deliver(last.id) {
        assert Keys(Tried(entries, deliver, tick, true)) == keys + [last.key];
        assert last.key !in keys by {
          assert forall e :: e in front ==> exists i :: 0 <= i < |front| && entries[i] == e;
        }
        KeysAppend(keys, last.key);
      } else {
        assert Tried(entries, deliver, tick, true) == Tried(front, deliver, tick, true);
      }
    }
  }

  lemma KeysAppend(keys: seq<string>, key: string)
    requires Distinct(keys) && key !in keys
    ensures Distinct(keys + [key])
    ensures forall k :: k in keys + [key] <==> k in keys || k == key
  {
  }

  lemma {:induction false} DistinctTogether(a: seq<string>, b: seq<string>)
    requires Distinct(a) && Distinct(b) && forall k :: k in a ==> k !in b
    ensures Distinct(a + b)
  {
    forall i, j | 0 <= i < j < |a + b| ensures (a + b)[i] != (a + b)[j] {
      if i < |a| <= j {
        assert a[i] in a && b[j - |a|] in b;
      }
    }
  }

  /** Every call of the callback is accounted for, as a failed attempt or a delivery. */
  lemma DispatchCharges(s: Session, deliver: Delivery, tick: int, i: nat)
    requires Inv(s) && i < |s.state.entries|
    ensures var e := s.state.entries[i];
            var f := Attempted(e, deliver(e.id), tick);
            Accounted(f, s.state.maxRetries) && CallsOf(Charged(s.calls, s.state.entries, tick), e.id) == CallsMade(f)
  {
    var e := s.state.entries[i];
    assert e in s.state.entries;
    assert DueId(s.state.entries, e.id, tick) <==> Due(e, tick) by {
      forall f | f in s.state.entries && f.id == e.id ensures f == e {
        OneEntryPerId(s.state.entries, e, f);
      }
    }
  }

  lemma CallsAreBounded(s: Session, deliver: Delivery, tick: int, id: string)
    requires Inv(s)
    ensures CallsOf(Charged(s.calls, s.state.entries, tick), id) <= s.state.maxRetries + 1
  {
    if DueId(s.state.entries, id, tick) {
      var e :| e in s.state.entries && e.id == id && Due(e, tick);
      var i :| 0 <= i < |s.state.entries| && s.state.entries[i] == e;
      DispatchCharges(s, deliver, tick, i);
    }
  }

  lemma DeliveriesAreNew(s: Session, deliver: Delivery, tick: int)
    requires Inv(s)
    ensures Distinct(s.delivered + Keys(Tried(s.state.entries, deliver, tick, true)))
  {
    TriedMeaning(s.state.entries, deliver, tick);
    var keys := Keys(Tried(s.state.entries, deliver, tick, true));
    forall key | key in s.delivered ensures key !in keys {
      assert Sent(s.state.entries, key);
      var e :| e in s.state.entries && e.key == key && e.status.Dispatched?;
      forall f | f in s.state.entries && f.key == key ensures f == e {
        OneEntryPerKey(s.state.entries, e, f);
      }
    }
    DistinctTogether(s.delivered, keys);
  }

  lemma DeliveredAreSent(s: Session, deliver: Delivery, tick: int)
    requires Inv(s)
    ensures forall key :: key in s.delivered + Keys(Tried(s.state.entries, deliver, tick, true))
                          ==> Sent(DispatchedState(s.state, deliver, tick).entries, key)
  {
    var entries := s.state.entries;
    var next := DispatchedState(s.state, deliver, tick).entries;
    TriedMeaning(entries, deliver, tick);
    forall key | key in s.delivered + Keys(Tried(entries, deliver, tick, true)) ensures Sent(next, key) {
      var e: Entry;
      if key in s.delivered {
        assert Sent(entries, key);
        e :| e in entries && e.key == key && e.status.Dispatched?;
      } else {
        e :| e in entries && e.key == key && Due(e, tick) && deliver(e.id);
      }
      var i :| 0 <= i < |entries| && entries[i] == e;
      assert next[i].status.Dispatched? && next[i].key == key && next[i] in next;
    }
  }

  lemma DispatchKeepsInv(s: Session, deliver: Delivery, tick: int)
    requires Inv(s)
    ensures Inv(DispatchedSession(s, deliver, tick))
  {
    var entries := s.state.entries;
    var next := DispatchedState(s.state, deliver, tick).entries;
    var calls := Charged(s.calls, entries, tick);
    SameKeys(entries, next);
    DeliveriesAreNew(s, deliver, tick);
    DeliveredAreSent(s, deliver, tick);
    forall e | e in next ensures e.id in s.used && Accounted(e, s.state.maxRetries)
           && CallsOf(calls, e.id) == CallsMade(e) {
      var i :| 0 <= i < |next| && next[i] == e;
      assert entries[i] in entries;
      DispatchCharges(s, deliver, tick, i);
    }
    forall id ensures CallsOf(calls, id) <= s.state.maxRetries + 1 {
      CallsAreBounded(s, deliver, tick, id);
    }
    forall id | id in calls ensures id in s.used {
      if id !in s.calls {
        var e :| e in entries && e.id == id;
      }
    }
  }

  lemma PerformKeepsInv(s: Session, op: Op)
    requires Inv(s) && Disciplined(s, op)
    ensures Inv(Perform(s, op))
  {
    match op
    case Stage(id, key, payload) => StageKeepsInv(s, id, key, payload);
    case Commit(id) => CommitKeepsInv(s, id);
    case Dispatch(deliver, tick) => DispatchKeepsInv(s, deliver, tick);
    case Rollback(id) => RollbackKeepsInv(s, id, Staged);
    case RollbackCommitted(id) => RollbackKeepsInv(s, id, Committed);
  }

  function Opened(maxRetries: nat): Session {
    Session(State([], {}, maxRetries), {}, [], map[])
  }

  function RunAll(s: Session, ops: seq<Op>): Session {
    if ops == [] then s else Perform(RunAll(s, ops[..|ops| - 1]), ops[|ops| - 1])
  }

  predicate AllDisciplined(s: Session, ops: seq<Op>) {
    ops == [] || (AllDisciplined(s, ops[..|ops| - 1]) && Disciplined(RunAll(s, ops[..|ops| - 1]), ops[|ops| - 1]))
  }

  lemma {:induction false} RunKeepsInv(s: Session, ops: seq<Op>)
    requires Inv(s) && AllDisciplined(s, ops)
    ensures Inv(RunAll(s, ops))
  {
    if ops != [] {
      RunKeepsInv(s, ops[..|ops| - 1]);
      PerformKeepsInv(RunAll(s, ops[..|ops| - 1]), ops[|ops| - 1]);
    }
  }

  /** Over every interleaving: no key is delivered twice, the callback runs at most
      `maxRetries + 1` times for an entry, and the key set is that of the live entries. */
  lemma AtMostOnceDelivery(maxRetries: nat, ops: seq<Op>)
    requires AllDisciplined(Opened(maxRetries), ops)
    ensures var s := RunAll(Opened(maxRetries), ops);
            && Distinct(s.delivered)
            && s.state.keys == KeySet(s.state.entries)
            && s.state.maxRetries == maxRetries
            && forall id :: CallsOf(s.calls, id) <= maxRetries + 1
  {
    RunKeepsInv(Opened(maxRetries), ops);
    RetriesAreFixed(Opened(maxRetries), ops);
  }

  lemma {:induction false} RetriesAreFixed(s: Session, ops: seq<Op>)
    ensures RunAll(s, ops).state.maxRetries == s.state.maxRetries
  {
    if ops != [] {
      RetriesAreFixed(s, ops[..|ops| - 1]);
    }
  }

  // ----- every entry settles -----

  /** After `k` dispatches from tick `t` the entry is delivered, dead, gone, or has failed
      `k` times and is due again. */
  ghost predicate Settling(s: Session, id: string, t: int, k: nat) {
    id in s.used &&
    forall e :: e in s.state.entries && e.id == id
                ==> SettledOrDue(e, t, k)
  }

  lemma QuietStepKeepsSettling(s: Session, op: Op, id: string, t: int, k: nat)
    requires Inv(s) && Settling(s, id, t, k) && Disciplined(s, op) && !op.Dispatch?
    ensures Settling(Perform(s, op), id, t, k)
  {
    var next := Perform(s, op).state.entries;
    forall e | e in next && e.id == id ensures e in s.state.entries {
      if op.Commit? {
        var i :| 0 <= i < |next| && next[i] == e;
        assert s.state.entries[i] in s.state.entries;
      }
    }
  }

  lemma {:induction false} QuietRunKeepsSettling(s: Session, ops: seq<Op>, id: string, t: int, k: nat)
    requires Inv(s) && Settling(s, id, t, k) && AllDisciplined(s, ops)
             && forall i :: 0 <= i < |ops| ==> !ops[i].Dispatch?
    ensures Settling(RunAll(s, ops), id, t, k)
  {
    if ops != [] {
      var front := ops[..|ops| - 1];
      QuietRunKeepsSettling(s, front, id, t, k);
      RunKeepsInv(s, front);
      QuietStepKeepsSettling(RunAll(s, front), ops[|ops| - 1], id, t, k);
    }
  }

  /** The entry has been delivered or given up, or has failed `k` times and is due again. */
  predicate SettledOrDue(e: Entry, t: int, k: nat) {
    e.status.Dispatched? || e.status.Dead? || (e.attempts >= k && Due(e, t + k))
  }

  lemma AttemptAdvances(e: Entry, ok: bool, t: int, k: nat)
    requires SettledOrDue(e, t, k)
    ensures SettledOrDue(Attempted(e, ok, t + k), t, k + 1)
  {
  }

  lemma DispatchAdvancesSettling(s: Session, deliver: Delivery, id: string, t: int, k: nat)
    requires Settling(s, id, t, k)
    ensures Settling(DispatchedSession(s, deliver, t + k), id, t, k + 1)
  {
    var entries := s.state.entries;
    var next := DispatchedState(s.state, deliver, t + k).entries;
    forall e | e in next && e.id == id ensures SettledOrDue(e, t, k + 1) {
      var i :| 0 <= i < |next| && next[i] == e;
      assert entries[i] in entries;
      AttemptAdvances(entries[i], deliver(entries[i].id), t, k);
    }
  }

  /** One tick: other operations, then a dispatch. */
  datatype Round = Round(between: seq<Op>, dispatch: Op)

  predicate Regular(r: Round, tick: int) {
    r.dispatch.Dispatch? && r.dispatch.tick == tick && forall i :: 0 <= i < |r.between| ==> !r.between[i].Dispatch?
  }

  function RunRound(s: Session, r: Round): Session {
    Perform(RunAll(s, r.between), r.dispatch)
  }

  function RunRounds(s: Session, rounds: seq<Round>): Session {
    if rounds == [] then s else RunRound(RunRounds(s, rounds[..|rounds| - 1]), rounds[|rounds| - 1])
  }

  /** The `k`-th round dispatches at tick `t + k`. */
  predicate RoundsDisciplined(s: Session, t: int, rounds: seq<Round>) {
    rounds == [] ||
    (RoundsDisciplined(s, t, rounds[..|rounds| - 1])
     && Regular(rounds[|rounds| - 1], t + (|rounds| - 1))
     && AllDisciplined(RunRounds(s, rounds[..|rounds| - 1]), rounds[|rounds| - 1].between))
  }

  lemma RoundKeepsInv(s: Session, r: Round)
    requires Inv(s) && AllDisciplined(s, r.between) && Disciplined(RunAll(s, r.between), r.dispatch)
    ensures Inv(RunRound(s, r))
  {
    RunKeepsInv(s, r.between);
    PerformKeepsInv(RunAll(s, r.between), r.dispatch);
  }

  lemma DispatchOpAdvances(s: Session, op: Op, id: string, t: int, k: nat)
    requires Settling(s, id, t, k) && op.Dispatch? && op.tick == t + k
    ensures Settling(Perform(s, op), id, t, k + 1)
  {
    DispatchAdvancesSettling(s, op.deliver, id, t, k);
  }

  lemma RoundSettles(s: Session, r: Round, id: string, t: int, k: nat)
    requires Inv(s) && Settling(s, id, t, k) && AllDisciplined(s, r.between) && Regular(r, t + k)
    ensures Settling(RunRound(s, r), id, t, k + 1)
  {
    QuietRunKeepsSettling(s, r.between, id, t, k);
    DispatchOpAdvances(RunAll(s, r.between), r.dispatch, id, t, k);
  }

  lemma RoundKeepsLimit(s: Session, r: Round)
    ensures RunRound(s, r).state.maxRetries == s.state.maxRetries
  {
    RetriesAreFixed(s, r.between);
  }

  lemma {:induction false} RoundsSettle(s: Session, t: int, rounds: seq<Round>, id: string)
    requires Inv(s) && Settling(s, id, t, 0) && RoundsDisciplined(s, t, rounds)
    ensures Inv(RunRounds(s, rounds)) && Settling(RunRounds(s, rounds), id, t, |rounds|)
    ensures RunRounds(s, rounds).state.maxRetries == s.state.maxRetries
  {
    if rounds != [] {
      var front := rounds[..|rounds| - 1];
      var last := rounds[|rounds| - 1];
      RoundsSettle(s, t, front, id);
      RoundKeepsInv(RunRounds(s, front), last);
      RoundSettles(RunRounds(s, front), last, id, t, |front|);
      RoundKeepsLimit(RunRounds(s, front), last);
    }
  }

  /** An entry that is due at tick `t` and dispatched every tick from then on is delivered
      or dead by tick `t + maxRetries`, unless it was rolled back. */
  lemma EveryEntrySettles(s: Session, t: int, rounds: seq<Round>, e: Entry)
    requires Inv(s) && e in s.state.entries && Due(e, t)
    requires RoundsDisciplined(s, t, rounds) && |rounds| == s.state.maxRetries + 1
    ensures forall f :: f in RunRounds(s, rounds).state.entries && f.id == e.id
                        ==> f.status.Dispatched? || f.status.Dead?
  {
    assert Settling(s, e.id, t, 0) by {
      forall f | f in s.state.entries && f.id == e.id ensures f == e {
        OneEntryPerId(s.state.entries, e, f);
      }
    }
    RoundsSettle(s, t, rounds, e.id);
  }

  // ----- the object -----

  class Outbox {
    const maxRetries: nat
    var entries: seq<Entry>
    var keys: set<string>

    ghost function Value(): State
      reads this
    {
      State(entries, keys, maxRetries)
    }

    constructor (maxRetries: nat)
      ensures Value() == Opened(maxRetries).state
    {
      this.maxRetries := maxRetries;
      entries, keys := [], {};
    }

    /** `id` is the generated entry id, `key` the given or generated idempotency key. */
    method Stage(id: string, key: string, payload: string) returns (entry: Entry)
      modifies this
      ensures Value() == old(StagedState(Value(), id, key, payload))
      ensures entry == old(StagedEntry(Value(), id, key, payload))
    {
      if key in keys {
        assert entries[0..] == entries;
        for i := 0 to |entries|
          invariant WithKey(entries[i..], key) == WithKey(entries, key)
        {
          if entries[i].key == key {
            return entries[i];
          }
          assert entries[i..][1..] == entries[i + 1..];
        }
      }
      entry := Entry(id, key, payload, Staged, 0, maxRetries, None, None);
      entries := entries + [entry];
      keys := keys + {key};
    }

    method Find(id: string) returns (at: Option<nat>)
      ensures at.None? ==> WithId(entries, id).None?
      ensures at.Some? ==> at.value < |entries| && WithId(entries, id) == Some(entries[at.value])
    {
      assert entries[0..] == entries;
      for i := 0 to |entries|
        invariant WithId(entries[i..], id) == WithId(entries, id)
      {
        if entries[i].id == id {
          return Some(i);
        }
        assert entries[i..][1..] == entries[i + 1..];
      }
      return None;
    }

    method CommitEntry(id: string)
      requires DistinctEntries(entries)
      modifies this
      ensures Value() == old(CommittedState(Value(), id))
    {
      var at := Find(id);
      if at.Some? && entries[at.value].status.Staged? {
        entries := entries[at.value := entries[at.value].(status := Committed)];
      } else {
        forall i | 0 <= i < |entries| ensures Commits(entries[i], id) == entries[i] {
          assert entries[i] in entries;
          if at.Some? && entries[i].id == id {
            OneEntryPerId(entries, entries[i], entries[at.value]);
          }
        }
      }
      assert entries == CommittedState(old(Value()), id).entries;
    }

    /** Hands every due entry to the callback once. */
    method DispatchAll(deliver: Delivery, tick: int) returns (dispatched: seq<Entry>, failed: seq<Entry>)
      modifies this`entries
      ensures Value() == old(DispatchedState(Value(), deliver, tick))
      ensures dispatched == old(Tried(entries, deliver, tick, true))
      ensures failed == old(Tried(entries, deliver, tick, false))
    {
      dispatched, failed := [], [];
      ghost var before := entries;
      for i := 0 to |entries|
        invariant |entries| == |before|
        invariant forall j :: 0 <= j < i ==> entries[j] == Attempted(before[j], deliver(before[j].id), tick)
        invariant forall j :: i <= j < |entries| ==> entries[j] == before[j]
        invariant dispatched == Tried(before[..i], deliver, tick, true)
        invariant failed == Tried(before[..i], deliver, tick, false)
      {
        assert before[..i + 1][..i] == before[..i];
        var entry := entries[i];
        if entry.status.Committed? && (entry.nextRetry.None? || tick >= entry.nextRetry.value) {
          if deliver(entry.id) {
            entry := entry.(status := Dispatched, dispatchedAt := Some(tick));
            dispatched := dispatched + [entry];
          } else {
            entry := entry.(attempts := entry.attempts + 1);
            if entry.attempts > entry.maxRetries {
              entry := entry.(status := Dead);
            } else {
              entry := entry.(status := Committed, nextRetry := Some(tick + 1));
            }
            failed := failed + [entry];
          }
          entries := entries[i := entry];
        }
      }
      assert before[..|before|] == before;
      assert entries == DispatchedState(old(Value()), deliver, tick).entries;
    }

    /** `rollback` drops a staged entry, `rollback_committed` a committed one. */
    method Drop(id: string, status: Status)
      modifies this
      ensures Value() == old(RolledBack(Value(), id, status))
    {
      var at := Find(id);
      if at.Some? && entries[at.value].status == status {
        keys := keys - {entries[at.value].key};
        entries := Removed(entries, id);
      }
    }
  }
}
