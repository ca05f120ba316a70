/** Typed business records with numeric invariants and an append-only ledger: writes,
    their inverses, and the replay of the ledger. */
module RecordStore {
  import opened Common
  import opened JsonValues

  type Record = map<string, Json>
  type Records = map<string, Record>

  datatype FieldType = TString | TInt | TFloat | TDate | TBool
  datatype FieldSpec = FieldSpec(name: string, kind: FieldType, required: bool)
  datatype Rule = NonNegative(field: string) | Positive(field: string)
  datatype Schema = Schema(fields: seq<FieldSpec>, rules: seq<Rule>, unique: seq<string>)

  type Schemas = map<string, Schema>

  datatype Error =
    | NotRegistered
    | MissingField(name: string)
    | WrongType(name: string)
    | NotUnique(name: string)
    | Violated(rule: Rule)
    | NotNumeric(name: string)

  datatype Change = Replaced | Shifted(field: string, delta: real)
  datatype Entry = Entry(id: nat, kind: string, key: string, change: Change, before: Option<Record>, after: Record)

  datatype Store = Store(
    schemas: Schemas,
    records: Records,
    ledger: seq<Entry>,
    counter: nat,
    versions: map<string, nat>)

  function FullKey(kind: string, key: string): string {
    kind + ":" + key
  }

  function EntryKey(e: Entry): string {
    FullKey(e.kind, e.key)
  }

  // ----- checks -----

  /** An absent field counts as zero. */
  function Field(r: Record, name: string): Json {
    if name in r then r[name] else Int(0)
  }

  predicate Obeys(rule: Rule, r: Record) {
    var v := Field(r, rule.field);
    IsNumeric(v) && if rule.NonNegative? then Amount(v) >= 0.0 else Amount(v) > 0.0
  }

  predicate HasType(kind: FieldType, v: Json) {
    match kind
    case TString => v.Str?
    case TInt => v.Int?
    case TFloat => IsNumeric(v)
    case TDate => v.Str?
    case TBool => v.Bool?
  }

  function SpecError(spec: FieldSpec, r: Record): Option<Error> {
    if spec.name !in r then (if spec.required then Some(MissingField(spec.name)) else None)
    else if HasType(spec.kind, r[spec.name]) then None else Some(WrongType(spec.name))
  }

  function FieldError(fields: seq<FieldSpec>, r: Record): Option<Error> {
    if fields == [] then None
    else
      var first := SpecError(fields[0], r);
      if first.Some? then first else FieldError(fields[1..], r)
  }

  /** Another record of the type (by key prefix) carries the same value. */
  predicate Taken(records: Records, kind: string, full: string, name: string, v: Json) {
    exists other :: other in records && kind + ":" <= other && other != full
                    && name in records[other] && PyEq(records[other][name], v)
  }

  function UniqueError(unique: seq<string>, records: Records, kind: string, full: string, r: Record): Option<Error> {
    if unique == [] then None
    else
      var name := unique[0];
      if name in r && !r[name].Null? && Taken(records, kind, full, name, r[name]) then Some(NotUnique(name))
      else UniqueError(unique[1..], records, kind, full, r)
  }

  function RuleError(rules: seq<Rule>, r: Record): (e: Option<Error>)
    ensures e.None? <==> forall rule :: rule in rules ==> Within(rule, r)
  {
    WithinIffObeys(r);
    if rules == [] then None
    else if !Obeys(rules[0], r) then Some(Violated(rules[0]))
    else RuleError(rules[1..], r)
  }

  // ----- what a schema asks of a record -----

  /** The field holds a number, an absent one the number zero, and the bound holds of it. */
  ghost predicate Within(rule: Rule, r: Record) {
    var v := if rule.field in r then Plain(r[rule.field]) else Float(0.0);
    v.Float? && match rule
                case NonNegative(_) => v.quantity >= 0.0
                case Positive(_) => v.quantity > 0.0
  }

  ghost predicate Lawful(schema: Schema, r: Record) {
    forall rule :: rule in schema.rules ==> Within(rule, r)
  }

  lemma WithinIffObeys(r: Record)
    ensures forall rule :: Within(rule, r) <==> Obeys(rule, r)
  {
    forall rule: Rule ensures Within(rule, r) <==> Obeys(rule, r) {
      AmountIsPlain(Field(r, rule.field));
    }
  }

  /** The kinds of value a declared type admits: a boolean is a number, but not an integer. */
  ghost function Admitted(kind: FieldType): set<Kind> {
    match kind
    case TString => {KStr}
    case TInt => {KInt}
    case TFloat => {KInt, KFloat, KBool}
    case TDate => {KStr}
    case TBool => {KBool}
  }

  ghost predicate FieldFits(spec: FieldSpec, r: Record) {
    if spec.name in r then KindOf(r[spec.name]) in Admitted(spec.kind) else !spec.required
  }

  ghost predicate WellTyped(schema: Schema, r: Record) {
    forall spec :: spec in schema.fields ==> FieldFits(spec, r)
  }

  /** Another key of the type holds an equal value in the field. */
  ghost predicate Claimed(records: Records, kind: string, key: string, name: string, v: Json) {
    exists other: string ::
      other != key && kind + ":" + other in records
      && name in records[kind + ":" + other] && Plain(records[kind + ":" + other][name]) == Plain(v)
  }

  ghost predicate Clashes(records: Records, kind: string, key: string, r: Record, name: string) {
    name in r && r[name] != Null && Claimed(records, kind, key, name, r[name])
  }

  ghost predicate Unclaimed(schema: Schema, records: Records, kind: string, key: string, r: Record) {
    forall name :: name in schema.unique ==> !Clashes(records, kind, key, r, name)
  }

  // ----- writes -----

  function Held(s: Store, full: string): Option<Record> {
    if full in s.records then Some(s.records[full]) else None
  }

  function Bump(versions: map<string, nat>, full: string): map<string, nat> {
    versions[full := (if full in versions then versions[full] else 0) + 1]
  }

  /** Stores the record and appends its ledger entry. */
  function Recorded(s: Store, kind: string, key: string, change: Change, before: Option<Record>, r: Record): Store {
    var full := FullKey(kind, key);
    s.(records := s.records[full := r],
       ledger := s.ledger + [Entry(s.counter + 1, kind, key, change, before, r)],
       counter := s.counter + 1,
       versions := Bump(s.versions, full))
  }

  function Upserted(s: Store, kind: string, key: string, data: Record): Result<Store, Error> {
    if kind !in s.schemas then Err(NotRegistered)
    else
      var schema := s.schemas[kind];
      var full := FullKey(kind, key);
      var malformed := FieldError(schema.fields, data);
      if malformed.Some? then Err(malformed.value)
      else
        var clash := UniqueError(schema.unique, s.records, kind, full, data);
        if clash.Some? then Err(clash.value)
        else
          var unlawful := RuleError(schema.rules, data);
          if unlawful.Some? then Err(unlawful.value)
          else Ok(Recorded(s, kind, key, Replaced, Held(s, full), data))
  }

  function DefaultOf(kind: FieldType): Json {
    match kind
    case TInt => Int(0)
    case TFloat => Int(0)
    case TBool => Bool(false)
    case _ => Str("")
  }

  function Defaults(fields: seq<FieldSpec>): (r: Record)
    ensures forall name :: name in r <==> exists f :: f in fields && f.name == name
    ensures forall name :: name in r && IsNumeric(r[name]) ==> Amount(r[name]) == 0.0
  {
    if fields == [] then map[]
    else
      var last := fields[|fields| - 1];
      var front := fields[..|fields| - 1];
      assert fields == front + [last];
      Defaults(front)[last.name := DefaultOf(last.kind)]
  }

  /** What a delta starts from: the stored record, or the schema's defaults. */
  function Base(s: Store, kind: string, full: string): Record
    requires kind in s.schemas
  {
    if full in s.records then s.records[full] else Defaults(s.schemas[kind].fields)
  }

  function Shift(r: Record, name: string, delta: real): Record
    requires IsNumeric(Field(r, name))
  {
    r[name := Float(Amount(Field(r, name)) + delta)]
  }

  function DeltaApplied(s: Store, kind: string, key: string, name: string, delta: real): Result<Store, Error> {
    if kind !in s.schemas then Err(NotRegistered)
    else
      var base := Base(s, kind, FullKey(kind, key));
      if !IsNumeric(Field(base, name)) then Err(NotNumeric(name))
      else
        var r := Shift(base, name, delta);
        var unlawful := RuleError(s.schemas[kind].rules, r);
        if unlawful.Some? then Err(unlawful.value)
        else Ok(Recorded(s, kind, key, Shifted(name, delta), Some(base), r))
  }

  function Without(ledger: seq<Entry>, ids: set<nat>): seq<Entry> {
    if ledger == [] then []
    else
      var front := Without(ledger[..|ledger| - 1], ids);
      if ledger[|ledger| - 1].id in ids then front else front + [ledger[|ledger| - 1]]
  }

  function Inverted(s: Store, kind: string, key: string, prior: Option<Record>, ids: set<nat>): Store {
    var full := FullKey(kind, key);
    var kept := s.(ledger := Without(s.ledger, ids));
    match prior
    case None => kept.(records := s.records - {full}, versions := s.versions - {full})
    case Some(r) => kept.(records := s.records[full := r])
  }

  // ----- replay -----

  /** One ledger entry on the replayed records; `None` is the crash of adding a number
      to something that is not one. */
  function ReplayEntry(records: Records, e: Entry): Option<Records> {
    var full := EntryKey(e);
    match e.change
    case Replaced => Some(records[full := e.after])
    case Shifted(name, delta) =>
      var current := if full in records then records[full] else map[];
      if IsNumeric(Field(current, name)) then Some(records[full := Shift(current, name, delta)]) else None
  }

  function Replay(ledger: seq<Entry>): Option<Records> {
    if ledger == [] then Some(map[])
    else
      var front := Replay(ledger[..|ledger| - 1]);
      if front.None? then None else ReplayEntry(front.value, ledger[|ledger| - 1])
  }

  /** What the entries of one key alone make of it. */
  datatype Found = Absent | Present(record: Record) | Broken

  ghost function Advance(cur: Found, e: Entry): Found {
    if cur.Broken? then Broken
    else
      match e.change
      case Replaced => Present(e.after)
      case Shifted(name, delta) =>
        var current := if cur.Present? then cur.record else map[];
        if IsNumeric(Field(current, name)) then Present(Shift(current, name, delta)) else Broken
  }

  ghost function ReplayKey(ledger: seq<Entry>, full: string): Found {
    if ledger == [] then Absent
    else
      var cur := ReplayKey(ledger[..|ledger| - 1], full);
      if EntryKey(ledger[|ledger| - 1]) == full then Advance(cur, ledger[|ledger| - 1]) else cur
  }

  ghost function FoundIn(records: Records, full: string): Found {
    if full in records then Present(records[full]) else Absent
  }

  ghost function FoundAs(r: Option<Record>): Found {
    if r.Some? then Present(r.value) else Absent
  }

  ghost predicate Agrees(ledger: seq<Entry>, records: Records) {
    forall full :: ReplayKey(ledger, full) == FoundIn(records, full)
  }

  lemma {:induction false} AgreesDetermines(ledger: seq<Entry>, a: Records, b: Records)
    requires Agrees(ledger, a) && Agrees(ledger, b)
    ensures a == b
  {
    forall full ensures FoundIn(a, full) == FoundIn(b, full) {
      assert ReplayKey(ledger, full) == FoundIn(a, full);
    }
    assert forall full :: full in a <==> FoundIn(a, full).Present?;
    assert forall full :: full in b <==> FoundIn(b, full).Present?;
    forall full | full in a ensures a[full] == b[full] {
      assert FoundIn(a, full) == FoundIn(b, full);
    }
  }

  lemma {:induction false} StepAgrees(ledger: seq<Entry>, records: Records, e: Entry)
    requires Agrees(ledger, records)
    ensures var next := ReplayEntry(records, e);
            if next.Some? then Agrees(ledger + [e], next.value) else ReplayKey(ledger + [e], EntryKey(e)).Broken?
  {
    assert (ledger + [e])[..|ledger|] == ledger;
    assert ReplayKey(ledger, EntryKey(e)) == FoundIn(records, EntryKey(e));
  }

  lemma {:induction false} BrokenStays(ledger: seq<Entry>, n: nat, full: string)
    requires n <= |ledger| && ReplayKey(ledger[..n], full).Broken?
    ensures ReplayKey(ledger, full).Broken?
    decreases |ledger|
  {
    if n == |ledger| {
      assert ledger[..n] == ledger;
    } else {
      assert ledger[..|ledger| - 1][..n] == ledger[..n];
      BrokenStays(ledger[..|ledger| - 1], n, full);
    }
  }

  /** Replaying the whole ledger is replaying each key by itself: it crashes exactly when
      some key does, and otherwise collects what every key becomes. */
  lemma {:induction false} ReplayIsKeywise(ledger: seq<Entry>)
    ensures Replay(ledger).Some? ==> Agrees(ledger, Replay(ledger).value)
    ensures Replay(ledger).None? ==> exists full :: ReplayKey(ledger, full).Broken?
  {
    if ledger != [] {
      var front := ledger[..|ledger| - 1];
      var last := ledger[|ledger| - 1];
      assert ledger == front + [last];
      ReplayIsKeywise(front);
      if Replay(front).Some? {
        StepAgrees(front, Replay(front).value, last);
      } else {
        var full :| ReplayKey(front, full).Broken?;
        BrokenStays(ledger, |front|, full);
      }
    }
  }

  /** The records are the replay of the ledger iff every key agrees. */
  lemma {:induction false} ReplaysIffAgrees(ledger: seq<Entry>, records: Records)
    ensures Replay(ledger) == Some(records) <==> Agrees(ledger, records)
  {
    ReplayIsKeywise(ledger);
    if Agrees(ledger, records) {
      assert forall full :: !FoundIn(records, full).Broken?;
      AgreesDetermines(ledger, records, Replay(ledger).value);
    }
  }

  // ----- sessions: writes and their inverses -----

  datatype Op =
    | Upsert(kind: string, key: string, data: Record)
    | Delta(kind: string, key: string, name: string, delta: real)
    | Invert(kind: string, key: string, id: nat)

  /** A store, and for each ledger id the record that its caller found before writing. */
  datatype Session = Session(store: Store, captured: map<nat, Option<Record>>)

  function Noted(s: Session, next: Result<Store, Error>, full: string): Session {
    if next.Err? then s
    else Session(next.value, s.captured[next.value.counter := Held(s.store, full)])
  }

  function Perform(s: Session, op: Op): Session {
    match op
    case Upsert(kind, key, data) => Noted(s, Upserted(s.store, kind, key, data), FullKey(kind, key))
    case Delta(kind, key, name, delta) => Noted(s, DeltaApplied(s.store, kind, key, name, delta), FullKey(kind, key))
    case Invert(kind, key, id) =>
      if id in s.captured then s.(store := Inverted(s.store, kind, key, s.captured[id], {id})) else s
  }

  predicate LatestAt(ledger: seq<Entry>, i: int) {
    0 <= i < |ledger| && forall j :: i < j < |ledger| ==> EntryKey(ledger[j]) != EntryKey(ledger[i])
  }

  /** Inverses go back key by key, latest write first; a delta finds its record, or the
      schema declares no other field. */
  ghost predicate Allowed(s: Session, op: Op) {
    match op
    case Upsert(_, _, _) => true
    case Delta(kind, key, name, _) => FullKey(kind, key) in s.store.records || DeclaresOnly(s.store, kind, name)
    case Invert(kind, key, id) =>
      exists i :: LatestAt(s.store.ledger, i) && s.store.ledger[i].id == id
          && EntryKey(s.store.ledger[i]) == FullKey(kind, key)
  }

  predicate DeclaresOnly(s: Store, kind: string, name: string) {
    kind in s.schemas ==> forall f :: f in s.schemas[kind].fields ==> f.name == name
  }

  ghost predicate Rising(ledger: seq<Entry>, counter: nat) {
    && (forall i, j :: 0 <= i < j < |ledger| ==> ledger[i].id < ledger[j].id)
    && (forall i :: 0 <= i < |ledger| ==> ledger[i].id <= counter)
  }

  ghost predicate CaptureAt(s: Session, i: int)
    requires 0 <= i < |s.store.ledger|
  {
    var e := s.store.ledger[i];
    e.id in s.captured && FoundAs(s.captured[e.id]) == ReplayKey(s.store.ledger[..i], EntryKey(e))
  }

  ghost predicate Coherent(s: Session) {
    && Rising(s.store.ledger, s.store.counter)
    && Agrees(s.store.ledger, s.store.records)
    && forall i :: 0 <= i < |s.store.ledger| ==> CaptureAt(s, i)
  }

  // ----- how the ledger reacts to one change -----

  lemma {:induction false} ReplayKeySkips(a: seq<Entry>, b: seq<Entry>, full: string)
    requires forall i :: 0 <= i < |b| ==> EntryKey(b[i]) != full
    ensures ReplayKey(a + b, full) == ReplayKey(a, full)
  {
    if b == [] {
      assert a + b == a;
    } else {
      assert (a + b)[..|a + b| - 1] == a + b[..|b| - 1];
      ReplayKeySkips(a, b[..|b| - 1], full);
    }
  }

  lemma {:induction false} ReplayKeyForgets(a: seq<Entry>, e: Entry, b: seq<Entry>, full: string)
    requires EntryKey(e) != full
    ensures ReplayKey(a + [e] + b, full) == ReplayKey(a + b, full)
  {
    if b == [] {
      assert a + [e] + b == a + [e] && a + b == a;
      assert (a + [e])[..|a|] == a;
    } else {
      var front := b[..|b| - 1];
      assert (a + [e] + b)[..|a + [e] + b| - 1] == a + [e] + front;
      assert (a + b)[..|a + b| - 1] == a + front;
      ReplayKeyForgets(a, e, front, full);
    }
  }

  lemma {:induction false} WithoutNone(ledger: seq<Entry>, id: nat)
    requires forall i :: 0 <= i < |ledger| ==> ledger[i].id != id
    ensures Without(ledger, {id}) == ledger
  {
    if ledger != [] {
      WithoutNone(ledger[..|ledger| - 1], id);
    }
  }

  lemma {:induction false} WithoutOne(ledger: seq<Entry>, counter: nat, i: nat)
    requires Rising(ledger, counter) && i < |ledger|
    ensures Without(ledger, {ledger[i].id}) == ledger[..i] + ledger[i + 1..]
    decreases |ledger|
  {
    var front := ledger[..|ledger| - 1];
    if i == |front| {
      WithoutNone(front, ledger[i].id);
      assert front == ledger[..i] && ledger[i + 1..] == [];
    } else {
      WithoutOne(front, counter, i);
      assert front[..i] == ledger[..i];
      assert ledger[i + 1..] == front[i + 1..] + [ledger[|front|]];
    }
  }

  lemma {:induction false} AppendedAgrees(ledger: seq<Entry>, records: Records, e: Entry)
    requires Agrees(ledger, records) && Advance(FoundIn(records, EntryKey(e)), e) == Present(e.after)
    ensures Agrees(ledger + [e], records[EntryKey(e) := e.after])
  {
    assert (ledger + [e])[..|ledger|] == ledger;
    forall full ensures ReplayKey(ledger + [e], full) == FoundIn(records[EntryKey(e) := e.after], full) {
      assert ReplayKey(ledger, full) == FoundIn(records, full);
    }
  }

  /** What the caller found before writing is what the ledger said of the key. */
  lemma {:induction false} CaptureIsTrue(s: Session, next: Session, e: Entry)
    requires Coherent(s) && next.store.ledger == s.store.ledger + [e] && e.id > s.store.counter
    requires next.captured == s.captured[e.id := Held(s.store, EntryKey(e))]
    ensures forall i :: 0 <= i < |next.store.ledger| ==> CaptureAt(next, i)
  {
    var n := |s.store.ledger|;
    forall i | 0 <= i < |next.store.ledger| ensures CaptureAt(next, i) {
      if i < n {
        assert CaptureAt(s, i);
        assert next.store.ledger[..i] == s.store.ledger[..i];
      } else {
        assert next.store.ledger[..n] == s.store.ledger;
        assert ReplayKey(s.store.ledger, EntryKey(e)) == FoundIn(s.store.records, EntryKey(e));
      }
    }
  }

  /** Appending an entry that records how its key changed keeps the session coherent. */
  lemma {:induction false} RecordedIsCoherent(
    s: Session, kind: string, key: string, change: Change, before: Option<Record>, r: Record)
    requires Coherent(s)
    requires var e := Entry(s.store.counter + 1, kind, key, change, before, r);
             Advance(FoundIn(s.store.records, EntryKey(e)), e) == Present(r)
    ensures Coherent(Noted(s, Ok(Recorded(s.store, kind, key, change, before, r)), FullKey(kind, key)))
  {
    var e := Entry(s.store.counter + 1, kind, key, change, before, r);
    var next := Noted(s, Ok(Recorded(s.store, kind, key, change, before, r)), FullKey(kind, key));
    AppendedAgrees(s.store.ledger, s.store.records, e);
    CaptureIsTrue(s, next, e);
  }

  lemma {:induction false} UpsertIsCoherent(s: Session, kind: string, key: string, data: Record)
    requires Coherent(s)
    ensures Coherent(Perform(s, Upsert(kind, key, data)))
  {
    var full := FullKey(kind, key);
    if Upserted(s.store, kind, key, data).Ok? {
      RecordedIsCoherent(s, kind, key, Replaced, Held(s.store, full), data);
    }
  }

  /** A delta keeps replay and records together exactly when it found its record or the
      schema declares no field besides the shifted one: otherwise the defaults it fills in
      are missing from the replay. */
  lemma {:induction false} DeltaIsCoherentIff(s: Session, kind: string, key: string, name: string, delta: real)
    requires Coherent(s) && DeltaApplied(s.store, kind, key, name, delta).Ok?
    ensures Coherent(Perform(s, Delta(kind, key, name, delta)))
            <==> (FullKey(kind, key) in s.store.records || DeclaresOnly(s.store, kind, name))
    ensures var next := DeltaApplied(s.store, kind, key, name, delta).value;
            Agrees(next.ledger, next.records)
            <==> (FullKey(kind, key) in s.store.records || DeclaresOnly(s.store, kind, name))
  {
    var full := FullKey(kind, key);
    var base := Base(s.store, kind, full);
    var r := Shift(base, name, delta);
    var e := Entry(s.store.counter + 1, kind, key, Shifted(name, delta), Some(base), r);
    var replayed := Advance(FoundIn(s.store.records, full), e);
    if full !in s.store.records {
      DefaultsAreReplayedIff(s.store.schemas[kind].fields, name, delta);
    }
    assert replayed == Present(r) <==> full in s.store.records || DeclaresOnly(s.store, kind, name);
    if replayed == Present(r) {
      RecordedIsCoherent(s, kind, key, Shifted(name, delta), Some(base), r);
    } else {
      EntryDisagrees(s.store.ledger, s.store.records, e);
    }
  }

  /** An entry that replays to something else than it stored leaves replay and records apart. */
  lemma {:induction false} EntryDisagrees(ledger: seq<Entry>, records: Records, e: Entry)
    requires Agrees(ledger, records) && Advance(FoundIn(records, EntryKey(e)), e) != Present(e.after)
    ensures !Agrees(ledger + [e], records[EntryKey(e) := e.after])
  {
    assert (ledger + [e])[..|ledger|] == ledger;
    assert ReplayKey(ledger, EntryKey(e)) == FoundIn(records, EntryKey(e));
    assert FoundIn(records[EntryKey(e) := e.after], EntryKey(e)) == Present(e.after);
  }

  /** A first delta on a record of a type with a second field: accepted, and the ledger no
      longer replays to the records. */
  lemma {:induction false} FirstDeltaBreaksReplay(kind: string, key: string, a: string, b: string, delta: real)
    requires a != b
    ensures var schema := Schema([FieldSpec(a, TInt, true), FieldSpec(b, TString, true)], [], []);
            var next := DeltaApplied(Opened(map[kind := schema]).store, kind, key, a, delta);
            next.Ok? && Replay(next.value.ledger) != Some(next.value.records)
  {
    var first, second := FieldSpec(a, TInt, true), FieldSpec(b, TString, true);
    var schema := Schema([first, second], [], []);
    var s := Opened(map[kind := schema]);
    RunIsCoherent(map[kind := schema], []);
    assert RunAll(s, []) == s;
    TwoFieldDefaults(first, second);
    assert second in schema.fields && !DeclaresOnly(s.store, kind, a);
    var next := DeltaApplied(s.store, kind, key, a, delta);
    assert next.Ok?;
    DeltaIsCoherentIff(s, kind, key, a, delta);
    ReplaysIffAgrees(next.value.ledger, next.value.records);
  }

  lemma {:induction false} TwoFieldDefaults(first: FieldSpec, second: FieldSpec)
    requires first.name != second.name
    ensures Field(Defaults([first, second]), first.name) == DefaultOf(first.kind)
  {
    assert [first, second][..1] == [first] && [first][..0] == [];
    assert Defaults([first]) == Defaults([])[first.name := DefaultOf(first.kind)];
    assert Defaults([first, second]) == Defaults([first])[second.name := DefaultOf(second.kind)];
  }

  lemma {:induction false} DefaultsAreReplayedIff(fields: seq<FieldSpec>, name: string, delta: real)
    requires IsNumeric(Field(Defaults(fields), name))
    ensures Shift(Defaults(fields), name, delta) == Shift(map[], name, delta)
            <==> forall f :: f in fields ==> f.name == name
  {
    var r, bare := Shift(Defaults(fields), name, delta), Shift(map[], name, delta);
    assert r[name] == bare[name];
    if forall f :: f in fields ==> f.name == name {
      assert r == bare;
    } else {
      var f :| f in fields && f.name != name;
      assert f.name in r && f.name !in bare;
    }
  }

  lemma {:induction false} RemovalReplays(ledger: seq<Entry>, i: nat, full: string)
    requires LatestAt(ledger, i)
    ensures ReplayKey(ledger[..i] + ledger[i + 1..], full)
            == if full == EntryKey(ledger[i]) then ReplayKey(ledger[..i], full) else ReplayKey(ledger, full)
  {
    var a, e, b := ledger[..i], ledger[i], ledger[i + 1..];
    if full == EntryKey(e) {
      ReplayKeySkips(a, b, full);
    } else {
      assert ledger == a + [e] + b;
      ReplayKeyForgets(a, e, b, full);
    }
  }

  lemma {:induction false} InvertIsCoherent(s: Session, kind: string, key: string, id: nat, i: nat)
    requires Coherent(s) && LatestAt(s.store.ledger, i)
    requires s.store.ledger[i].id == id && EntryKey(s.store.ledger[i]) == FullKey(kind, key)
    ensures Coherent(Perform(s, Invert(kind, key, id)))
  {
    var ledger := s.store.ledger;
    var next := Perform(s, Invert(kind, key, id));
    assert CaptureAt(s, i);
    WithoutOne(ledger, s.store.counter, i);
    var kept := ledger[..i] + ledger[i + 1..];
    assert next.store.ledger == kept;
    forall full ensures ReplayKey(kept, full) == FoundIn(next.store.records, full) {
      assert ReplayKey(ledger, full) == FoundIn(s.store.records, full);
      RemovalReplays(ledger, i, full);
    }
    RemovalRises(ledger, s.store.counter, i);
    forall j | 0 <= j < |kept| ensures CaptureAt(next, j) {
      CaptureSurvives(s, next, i, j);
    }
  }

  lemma {:induction false} RemovalRises(ledger: seq<Entry>, counter: nat, i: nat)
    requires Rising(ledger, counter) && i < |ledger|
    ensures Rising(ledger[..i] + ledger[i + 1..], counter)
  {
    var kept := ledger[..i] + ledger[i + 1..];
    assert forall j :: 0 <= j < |kept| ==> kept[j] == ledger[if j < i then j else j + 1];
  }

  /** Removing the latest entry of a key leaves every other entry's captured record true. */
  lemma {:induction false} CaptureSurvives(s: Session, next: Session, i: nat, j: nat)
    requires Coherent(s) && LatestAt(s.store.ledger, i)
    requires next.captured == s.captured
    requires next.store.ledger == s.store.ledger[..i] + s.store.ledger[i + 1..] && j < |next.store.ledger|
    ensures CaptureAt(next, j)
  {
    var ledger := s.store.ledger;
    var a, e, b := ledger[..i], ledger[i], ledger[i + 1..];
    if j < i {
      assert CaptureAt(s, j);
      assert (a + b)[..j] == ledger[..j];
    } else {
      assert CaptureAt(s, j + 1);
      var mid := b[..j - i];
      assert (a + b)[..j] == a + mid;
      assert ledger[..j + 1] == a + [e] + mid;
      ReplayKeyForgets(a, e, mid, EntryKey(ledger[j + 1]));
    }
  }

  lemma {:induction false} PerformIsCoherent(s: Session, op: Op)
    requires Coherent(s) && Allowed(s, op)
    ensures Coherent(Perform(s, op))
  {
    match op
    case Upsert(kind, key, data) => UpsertIsCoherent(s, kind, key, data);
    case Delta(kind, key, name, delta) =>
      if DeltaApplied(s.store, kind, key, name, delta).Ok? {
        DeltaIsCoherentIff(s, kind, key, name, delta);
      }
    case Invert(kind, key, id) =>
      var i :| LatestAt(s.store.ledger, i) && s.store.ledger[i].id == id
          && EntryKey(s.store.ledger[i]) == FullKey(kind, key);
      InvertIsCoherent(s, kind, key, id, i);
  }

  // ----- runs -----

  function Opened(schemas: Schemas): Session {
    Session(Store(schemas, map[], [], 0, map[]), map[])
  }

  function RunAll(s: Session, ops: seq<Op>): Session {
    if ops == [] then s else Perform(RunAll(s, ops[..|ops| - 1]), ops[|ops| - 1])
  }

  ghost predicate AllAllowed(s: Session, ops: seq<Op>) {
    ops == [] || (AllAllowed(s, ops[..|ops| - 1]) && Allowed(RunAll(s, ops[..|ops| - 1]), ops[|ops| - 1]))
  }

  lemma {:induction false} RunIsCoherent(schemas: Schemas, ops: seq<Op>)
    requires AllAllowed(Opened(schemas), ops)
    ensures Coherent(RunAll(Opened(schemas), ops))
  {
    if ops == [] {
      assert forall full :: ReplayKey([], full) == FoundIn(map[], full);
    } else {
      RunIsCoherent(schemas, ops[..|ops| - 1]);
      PerformIsCoherent(RunAll(Opened(schemas), ops[..|ops| - 1]), ops[|ops| - 1]);
    }
  }

  /** In every reachable state the ledger replays to the current records. */
  lemma {:induction false} LedgerReplaysToRecords(schemas: Schemas, ops: seq<Op>)
    requires AllAllowed(Opened(schemas), ops)
    ensures var s := RunAll(Opened(schemas), ops).store; Replay(s.ledger) == Some(s.records)
  {
    RunIsCoherent(schemas, ops);
    var s := RunAll(Opened(schemas), ops).store;
    ReplaysIffAgrees(s.ledger, s.records);
  }

  // ----- record types and their invariants -----

  /** The record obeys the rules of every registered type that can read it. */
  ghost predicate LawfulAt(schemas: Schemas, full: string, r: Record) {
    forall kind, key :: kind in schemas && FullKey(kind, key) == full ==> Lawful(schemas[kind], r)
  }

  ghost predicate LawfulCaptures(s: Session) {
    forall i :: 0 <= i < |s.store.ledger| && s.store.ledger[i].id in s.captured
                && s.captured[s.store.ledger[i].id].Some?
                ==> LawfulAt(s.store.schemas, EntryKey(s.store.ledger[i]), s.captured[s.store.ledger[i].id].value)
  }

  ghost predicate LawfulRecords(s: Store) {
    forall full :: full in s.records ==> LawfulAt(s.schemas, full, s.records[full])
  }

  /** Two types share a key exactly when one is a colon-separated prefix of the other. */
  predicate Collide(a: string, b: string) {
    a + ":" <= b + ":" || b + ":" <= a + ":"
  }

  lemma {:induction false} SharedKeyIffCollide(a: string, b: string)
    ensures (exists j, k :: FullKey(a, j) == FullKey(b, k)) <==> Collide(a, b)
  {
    if a + ":" <= b + ":" {
      assert FullKey(a, (b + ":")[|a| + 1..]) == FullKey(b, "");
    }
    if b + ":" <= a + ":" {
      assert FullKey(a, "") == FullKey(b, (a + ":")[|b| + 1..]);
    }
    if j, k :| FullKey(a, j) == FullKey(b, k) {
      var full := FullKey(a, j);
      assert full[..|a| + 1] == a + ":";
      assert FullKey(b, k)[..|b| + 1] == b + ":";
      if |a| <= |b| {
        assert (b + ":")[..|a| + 1] == full[..|a| + 1];
      } else {
        assert (a + ":")[..|b| + 1] == full[..|b| + 1];
      }
    }
  }

  ghost predicate Unambiguous(schemas: Schemas) {
    forall a, b :: a in schemas && b in schemas && Collide(a, b) ==> a == b
  }

  lemma {:induction false} WriterIsOnlyReader(schemas: Schemas, kind: string, key: string, r: Record)
    requires Unambiguous(schemas) && kind in schemas && Lawful(schemas[kind], r)
    ensures LawfulAt(schemas, FullKey(kind, key), r)
  {
    forall a, j | a in schemas && FullKey(a, j) == FullKey(kind, key) ensures Lawful(schemas[a], r) {
      SharedKeyIffCollide(a, kind);
    }
  }

  ghost predicate LawAbiding(s: Session) {
    LawfulRecords(s.store) && LawfulCaptures(s) && Rising(s.store.ledger, s.store.counter)
  }

  lemma {:induction false} RecordedIsLawful(
    s: Session, kind: string, key: string, change: Change, before: Option<Record>, r: Record)
    requires LawAbiding(s) && Unambiguous(s.store.schemas) && kind in s.store.schemas
             && Lawful(s.store.schemas[kind], r)
    ensures LawAbiding(Noted(s, Ok(Recorded(s.store, kind, key, change, before, r)), FullKey(kind, key)))
  {
    WriterIsOnlyReader(s.store.schemas, kind, key, r);
  }

  lemma {:induction false} WithoutHolds(ledger: seq<Entry>, ids: set<nat>)
    ensures forall e :: e in Without(ledger, ids) ==> e in ledger
  {
    if ledger != [] {
      WithoutHolds(ledger[..|ledger| - 1], ids);
    }
  }

  lemma {:induction false} RisingAppends(ledger: seq<Entry>, e: Entry, counter: nat)
    requires Rising(ledger, counter) && e.id <= counter && forall i :: 0 <= i < |ledger| ==> ledger[i].id < e.id
    ensures Rising(ledger + [e], counter)
  {
  }

  lemma {:induction false} WithoutIsPart(ledger: seq<Entry>, ids: set<nat>, counter: nat)
    requires Rising(ledger, counter)
    ensures Rising(Without(ledger, ids), counter)
    ensures forall e :: e in Without(ledger, ids) ==> e in ledger
  {
    WithoutHolds(ledger, ids);
    if ledger != [] {
      var front, last := ledger[..|ledger| - 1], ledger[|ledger| - 1];
      var kept := Without(front, ids);
      WithoutIsPart(front, ids, counter);
      forall i | 0 <= i < |kept| ensures kept[i].id < last.id {
        assert kept[i] in front;
      }
      if last.id !in ids {
        RisingAppends(kept, last, counter);
      }
    }
  }

  /** Whatever is written or undone, in any order, every stored record obeys the rules of
      its type, provided no registered type is a prefix of another. */
  lemma {:induction false} PerformIsLawful(s: Session, op: Op)
    requires LawAbiding(s) && Unambiguous(s.store.schemas)
    requires op.Invert? ==> exists e :: e in s.store.ledger && e.id == op.id && EntryKey(e) == FullKey(op.kind, op.key)
    ensures LawAbiding(Perform(s, op)) && Perform(s, op).store.schemas == s.store.schemas
  {
    match op
    case Upsert(kind, key, data) =>
      if Upserted(s.store, kind, key, data).Ok? {
        RecordedIsLawful(s, kind, key, Replaced, Held(s.store, FullKey(kind, key)), data);
      }
    case Delta(kind, key, name, delta) =>
      if DeltaApplied(s.store, kind, key, name, delta).Ok? {
        var base := Base(s.store, kind, FullKey(kind, key));
        RecordedIsLawful(s, kind, key, Shifted(name, delta), Some(base), Shift(base, name, delta));
      }
    case Invert(kind, key, id) =>
      if id in s.captured {
        InvertIsLawful(s, kind, key, id);
      }
  }

  lemma {:induction false} InvertIsLawful(s: Session, kind: string, key: string, id: nat)
    requires LawAbiding(s) && id in s.captured
    requires exists e :: e in s.store.ledger && e.id == id && EntryKey(e) == FullKey(kind, key)
    ensures LawAbiding(Perform(s, Invert(kind, key, id)))
  {
    var next := Perform(s, Invert(kind, key, id));
    WithoutIsPart(s.store.ledger, {id}, s.store.counter);
    var e :| e in s.store.ledger && e.id == id && EntryKey(e) == FullKey(kind, key);
    var i :| 0 <= i < |s.store.ledger| && s.store.ledger[i] == e;
    CapturesStayLawful(s, next);
  }

  lemma {:induction false} CapturesStayLawful(s: Session, next: Session)
    requires LawfulCaptures(s) && next.captured == s.captured && next.store.schemas == s.store.schemas
    requires forall e :: e in next.store.ledger ==> e in s.store.ledger
    ensures LawfulCaptures(next)
  {
    forall j | 0 <= j < |next.store.ledger| && next.store.ledger[j].id in s.captured
               && s.captured[next.store.ledger[j].id].Some?
      ensures LawfulAt(s.store.schemas, EntryKey(next.store.ledger[j]), s.captured[next.store.ledger[j].id].value)
    {
      assert next.store.ledger[j] in s.store.ledger;
      var k :| 0 <= k < |s.store.ledger| && s.store.ledger[k] == next.store.ledger[j];
    }
  }

  ghost predicate InvertsKnownEntries(s: Session, ops: seq<Op>) {
    ops == [] ||
    (InvertsKnownEntries(s, ops[..|ops| - 1]) &&
     var op := ops[|ops| - 1];
     op.Invert? ==> exists e :: e in RunAll(s, ops[..|ops| - 1]).store.ledger && e.id == op.id
                                && EntryKey(e) == FullKey(op.kind, op.key))
  }

  lemma {:induction false} EveryRecordIsLawful(schemas: Schemas, ops: seq<Op>)
    requires Unambiguous(schemas) && InvertsKnownEntries(Opened(schemas), ops)
    ensures LawAbiding(RunAll(Opened(schemas), ops)) && RunAll(Opened(schemas), ops).store.schemas == schemas
  {
    if ops != [] {
      EveryRecordIsLawful(schemas, ops[..|ops| - 1]);
      PerformIsLawful(RunAll(Opened(schemas), ops[..|ops| - 1]), ops[|ops| - 1]);
    }
  }

  /** With colliding types, one type can store a record that another must not contain. */
  lemma {:induction false} CollidingTypesCanBreakRules()
    ensures exists schemas: Schemas, op: Op :: op.Upsert? && !LawfulRecords(Perform(Opened(schemas), op).store)
  {
    var schemas: Schemas := map["a" := Schema([], [], []), "a:b" := Schema([], [Positive("n")], [])];
    var data: Record := map[];
    var op := Upsert("a", "b:c", data);
    var s := Opened(schemas);
    var next := Perform(s, op).store;
    assert RuleError([], data).None?;
    assert Upserted(s.store, "a", "b:c", data).Ok?;
    assert FullKey("a:b", "c") == FullKey("a", "b:c");
    assert Positive("n") in schemas["a:b"].rules && !Obeys(Positive("n"), data);
    assert !LawfulAt(schemas, FullKey("a", "b:c"), data);
  }

  // ----- every record obeys the type that wrote it -----

  /** The entry at `i` says what its key became, within the rules of its type. */
  ghost predicate AttestedAt(s: Store, i: int)
    requires 0 <= i < |s.ledger|
  {
    var e := s.ledger[i];
    && e.kind in s.schemas && Lawful(s.schemas[e.kind], e.after)
    && Advance(ReplayKey(s.ledger[..i], EntryKey(e)), e) == Present(e.after)
  }

  ghost predicate Attested(s: Store) {
    forall i :: 0 <= i < |s.ledger| ==> AttestedAt(s, i)
  }

  lemma {:induction false} RecordedIsAttested(
    s: Session, kind: string, key: string, change: Change, before: Option<Record>, r: Record)
    requires Coherent(s) && Attested(s.store) && kind in s.store.schemas && Lawful(s.store.schemas[kind], r)
    requires var e := Entry(s.store.counter + 1, kind, key, change, before, r);
             Advance(FoundIn(s.store.records, EntryKey(e)), e) == Present(r)
    ensures Attested(Recorded(s.store, kind, key, change, before, r))
  {
    var next := Recorded(s.store, kind, key, change, before, r);
    var n := |s.store.ledger|;
    assert next.ledger[..n] == s.store.ledger;
    forall i | 0 <= i < |next.ledger| ensures AttestedAt(next, i) {
      if i < n {
        assert AttestedAt(s.store, i);
        assert next.ledger[..i] == s.store.ledger[..i];
      } else {
        assert ReplayKey(s.store.ledger, FullKey(kind, key)) == FoundIn(s.store.records, FullKey(kind, key));
      }
    }
  }

  lemma {:induction false} RemovalIsAttested(s: Store, next: Store, i: nat)
    requires Attested(s) && LatestAt(s.ledger, i) && next.schemas == s.schemas
    requires next.ledger == s.ledger[..i] + s.ledger[i + 1..]
    ensures Attested(next)
  {
    forall j | 0 <= j < |next.ledger| ensures AttestedAt(next, j) {
      if j < i {
        assert AttestedAt(s, j);
        assert next.ledger[..j] == s.ledger[..j];
      } else {
        assert AttestedAt(s, j + 1);
        PrefixForgets(s.ledger, i, j);
        assert next.ledger[j] == s.ledger[j + 1];
      }
    }
  }

  /** Dropping the latest entry of a key does not show in the prefix of a later entry. */
  lemma {:induction false} PrefixForgets(ledger: seq<Entry>, i: nat, j: nat)
    requires LatestAt(ledger, i) && i <= j < |ledger| - 1
    ensures ReplayKey((ledger[..i] + ledger[i + 1..])[..j], EntryKey(ledger[j + 1]))
            == ReplayKey(ledger[..j + 1], EntryKey(ledger[j + 1]))
  {
    var a, e, mid := ledger[..i], ledger[i], ledger[i + 1..][..j - i];
    assert (ledger[..i] + ledger[i + 1..])[..j] == a + mid;
    assert ledger[..j + 1] == a + [e] + mid;
    ReplayKeyForgets(a, e, mid, EntryKey(ledger[j + 1]));
  }

  lemma {:induction false} PerformIsAttested(s: Session, op: Op)
    requires Coherent(s) && Attested(s.store) && Allowed(s, op)
    ensures Attested(Perform(s, op).store)
  {
    match op
    case Upsert(kind, key, data) =>
      if Upserted(s.store, kind, key, data).Ok? {
        RecordedIsAttested(s, kind, key, Replaced, Held(s.store, FullKey(kind, key)), data);
      }
    case Delta(kind, key, name, delta) =>
      if DeltaApplied(s.store, kind, key, name, delta).Ok? {
        DeltaIsAttested(s, kind, key, name, delta);
      }
    case Invert(kind, key, id) =>
      var i :| LatestAt(s.store.ledger, i) && s.store.ledger[i].id == id
          && EntryKey(s.store.ledger[i]) == FullKey(kind, key);
      assert CaptureAt(s, i);
      WithoutOne(s.store.ledger, s.store.counter, i);
      RemovalIsAttested(s.store, Perform(s, op).store, i);
  }

  lemma {:induction false} DeltaIsAttested(s: Session, kind: string, key: string, name: string, delta: real)
    requires Coherent(s) && Attested(s.store) && Allowed(s, Delta(kind, key, name, delta))
    requires DeltaApplied(s.store, kind, key, name, delta).Ok?
    ensures Attested(DeltaApplied(s.store, kind, key, name, delta).value)
  {
    var base := Base(s.store, kind, FullKey(kind, key));
    if FullKey(kind, key) !in s.store.records {
      DefaultsAreReplayedIff(s.store.schemas[kind].fields, name, delta);
    }
    RecordedIsAttested(s, kind, key, Shifted(name, delta), Some(base), Shift(base, name, delta));
  }

  lemma {:induction false} LatestDecides(ledger: seq<Entry>, full: string) returns (i: nat)
    requires !ReplayKey(ledger, full).Absent?
    ensures LatestAt(ledger, i) && EntryKey(ledger[i]) == full
    ensures ReplayKey(ledger, full) == Advance(ReplayKey(ledger[..i], full), ledger[i])
  {
    var last := |ledger| - 1;
    if EntryKey(ledger[last]) == full {
      i := last;
    } else {
      i := LatestDecides(ledger[..last], full);
      assert ledger[..last][..i] == ledger[..i];
      assert forall j :: 0 <= j < last ==> ledger[..last][j] == ledger[j];
    }
  }

  lemma {:induction false} RunIsAttested(schemas: Schemas, ops: seq<Op>)
    requires AllAllowed(Opened(schemas), ops)
    ensures Attested(RunAll(Opened(schemas), ops).store)
  {
    if ops != [] {
      RunIsAttested(schemas, ops[..|ops| - 1]);
      RunIsCoherent(schemas, ops[..|ops| - 1]);
      PerformIsAttested(RunAll(Opened(schemas), ops[..|ops| - 1]), ops[|ops| - 1]);
    }
  }

  /** In every reachable state, whatever the type names, each record is the one the latest
      ledger entry of its key left, and obeys the rules of the type that wrote it. */
  lemma {:induction false} EveryRecordObeysItsWriter(schemas: Schemas, ops: seq<Op>, full: string) returns (i: nat)
    requires AllAllowed(Opened(schemas), ops) && full in RunAll(Opened(schemas), ops).store.records
    ensures var s := RunAll(Opened(schemas), ops).store;
            && LatestAt(s.ledger, i) && EntryKey(s.ledger[i]) == full && s.records[full] == s.ledger[i].after
            && s.ledger[i].kind in s.schemas && Lawful(s.schemas[s.ledger[i].kind], s.records[full])
  {
    var s := RunAll(Opened(schemas), ops).store;
    RunIsCoherent(schemas, ops);
    RunIsAttested(schemas, ops);
    assert ReplayKey(s.ledger, full) == FoundIn(s.records, full);
    i := LatestDecides(s.ledger, full);
    assert AttestedAt(s, i);
  }

  // ----- undoing one write -----

  /** Inverting a write with the record found before it restores records and ledger; the
      version number stays advanced unless the record was new. */
  lemma {:induction false} InvertUndoesWrite(
    s: Store, kind: string, key: string, change: Change, before: Option<Record>, r: Record)
    requires Rising(s.ledger, s.counter)
    ensures var full := FullKey(kind, key);
            var next := Recorded(s, kind, key, change, before, r);
            var back := Inverted(next, kind, key, Held(s, full), {next.counter});
            back.records == s.records && back.ledger == s.ledger
            && back.versions == if full in s.records then Bump(s.versions, full) else s.versions - {full}
  {
    var full := FullKey(kind, key);
    var next := Recorded(s, kind, key, change, before, r);
    assert next.ledger[..|s.ledger|] == s.ledger;
    WithoutNone(s.ledger, next.counter);
    if full in s.records {
      assert s.records[full := r][full := s.records[full]] == s.records;
    } else {
      assert s.records[full := r] - {full} == s.records;
    }
  }

  // ----- unique fields -----

  lemma {:induction false} PyEqIsSymmetric(a: Json, b: Json)
    ensures PyEq(a, b) == PyEq(b, a)
  {
    PyEqIffSamePlain(a, b);
    PyEqIffSamePlain(b, a);
  }

  /** No two records of the type share a value of a unique field. */
  ghost predicate UniqueHeld(records: Records, kind: string, unique: seq<string>) {
    forall x, name :: x in records && kind + ":" <= x && name in unique && name in records[x] && !records[x][name].Null?
                      ==> !Taken(records, kind, x, name, records[x][name])
  }

  lemma {:induction false} UniqueErrorMeaning(
    unique: seq<string>, records: Records, kind: string, full: string, r: Record)
    ensures UniqueError(unique, records, kind, full, r).None?
            <==> forall name :: name in unique && name in r && !r[name].Null?
                                ==> !Taken(records, kind, full, name, r[name])
  {
    if unique != [] {
      UniqueErrorMeaning(unique[1..], records, kind, full, r);
    }
  }

  lemma {:induction false} TakenElsewhere(
    records: Records, kind: string, full: string, r: Record, name: string, v: Json)
    ensures Taken(records[full := r], kind, full, name, v) == Taken(records, kind, full, name, v)
  {
    if Taken(records, kind, full, name, v) {
      var other :| other in records && kind + ":" <= other && other != full && name in records[other]
          && PyEq(records[other][name], v);
      assert other in records[full := r];
    }
    if Taken(records[full := r], kind, full, name, v) {
      var other :| other in records[full := r] && kind + ":" <= other && other != full
                   && name in records[full := r][other] && PyEq(records[full := r][other][name], v);
      assert other in records;
    }
  }

  lemma {:induction false} NewcomerClashes(
    records: Records, kind: string, full: string, r: Record, x: string, name: string)
    requires kind + ":" <= full && x in records && x != full && kind + ":" <= x && name in records[x]
             && !records[x][name].Null?
    requires !Taken(records, kind, x, name, records[x][name])
    requires Taken(records[full := r], kind, x, name, records[x][name])
    ensures name in r && !r[name].Null? && Taken(records, kind, full, name, r[name])
  {
    var after := records[full := r];
    var other :| other in after && kind + ":" <= other && other != x && name in after[other]
        && PyEq(after[other][name], records[x][name]);
    assert other == full;
    PyEqIsSymmetric(r[name], records[x][name]);
  }

  /** Storing a record keeps the type's unique fields unique exactly when it passes the
      check that an upsert makes and a delta does not. */
  lemma {:induction false} StoringKeepsUniqueIff(
    records: Records, kind: string, key: string, unique: seq<string>, r: Record)
    requires UniqueHeld(records, kind, unique)
    ensures UniqueHeld(records[FullKey(kind, key) := r], kind, unique)
            <==> UniqueError(unique, records, kind, FullKey(kind, key), r).None?
  {
    var full := FullKey(kind, key);
    var after := records[full := r];
    assert full[..|kind| + 1] == kind + ":";
    UniqueErrorMeaning(unique, records, kind, full, r);
    forall name | name in unique && name in r && !r[name].Null?
      ensures Taken(after, kind, full, name, r[name]) == Taken(records, kind, full, name, r[name])
    {
      TakenElsewhere(records, kind, full, r, name, r[name]);
    }
    if UniqueError(unique, records, kind, full, r).None? {
      forall x, name | x in after && kind + ":" <= x && name in unique && name in after[x] && !after[x][name].Null?
        ensures !Taken(after, kind, x, name, after[x][name])
      {
        if x != full && Taken(after, kind, x, name, after[x][name]) {
          NewcomerClashes(records, kind, full, r, x, name);
        }
      }
    } else {
      assert full in after && after[full] == r;
    }
  }

  /** A delta makes no such check: shifting a unique field onto the value another record
      holds is accepted and breaks uniqueness. */
  lemma {:induction false} DeltaCanBreakUniqueness(
    s: Store, kind: string, key: string, other: string, name: string, delta: real)
    requires kind in s.schemas && name in s.schemas[kind].unique && s.schemas[kind].rules == []
    requires key != other && FullKey(kind, key) in s.records && FullKey(kind, other) in s.records
    requires IsNumeric(Field(s.records[FullKey(kind, key)], name))
    requires name in s.records[FullKey(kind, other)] && IsNumeric(s.records[FullKey(kind, other)][name])
    requires Amount(Field(s.records[FullKey(kind, key)], name)) + delta == Amount(s.records[FullKey(kind, other)][name])
    ensures DeltaApplied(s, kind, key, name, delta).Ok?
    ensures !UniqueHeld(DeltaApplied(s, kind, key, name, delta).value.records, kind, s.schemas[kind].unique)
  {
    var x, y := FullKey(kind, other), FullKey(kind, key);
    assert x[|kind| + 1..] == other && y[|kind| + 1..] == key;
    assert x[..|kind| + 1] == kind + ":" && y[..|kind| + 1] == kind + ":";
    var records := DeltaApplied(s, kind, key, name, delta).value.records;
    assert records[x] == s.records[x] && records[y] == Shift(s.records[y], name, delta);
    assert PyEq(records[x][name], records[y][name]);
    assert Taken(records, kind, y, name, records[y][name]);
  }

  // ----- which writes are accepted -----

  lemma SpecErrorMeaning(spec: FieldSpec, r: Record)
    ensures SpecError(spec, r).None? <==> FieldFits(spec, r)
    ensures SpecError(spec, r).Some?
            ==> SpecError(spec, r).value == if spec.name in r then WrongType(spec.name) else MissingField(spec.name)
  {
  }

  lemma {:induction false} FieldErrorIsFirst(fields: seq<FieldSpec>, r: Record)
    ensures FieldError(fields, r).None? <==> forall i :: 0 <= i < |fields| ==> FieldFits(fields[i], r)
    ensures FieldError(fields, r).Some? ==> exists i :: FirstMisfit(fields, r, FieldError(fields, r).value, i)
  {
    if fields != [] {
      SpecErrorMeaning(fields[0], r);
      FieldErrorIsFirst(fields[1..], r);
      assert forall i :: 0 < i < |fields| ==> fields[i] == fields[1..][i - 1];
      var rest := FieldError(fields[1..], r);
      if FieldFits(fields[0], r) && rest.Some? {
        var i :| FirstMisfit(fields[1..], r, rest.value, i);
        assert FirstMisfit(fields, r, rest.value, i + 1);
      } else if !FieldFits(fields[0], r) {
        assert FirstMisfit(fields, r, FieldError(fields, r).value, 0);
      }
    }
  }

  /** The declaration at `i` is the first the record does not fit. */
  ghost predicate FirstMisfit(fields: seq<FieldSpec>, r: Record, error: Error, i: int) {
    0 <= i < |fields| && !FieldFits(fields[i], r) && (forall j :: 0 <= j < i ==> FieldFits(fields[j], r))
    && error == if fields[i].name in r then WrongType(fields[i].name) else MissingField(fields[i].name)
  }

  lemma TakenIffClaimed(records: Records, kind: string, key: string, name: string, v: Json)
    ensures Taken(records, kind, FullKey(kind, key), name, v) <==> Claimed(records, kind, key, name, v)
  {
    forall x | x in records && name in records[x] ensures PyEq(records[x][name], v)
           <==> Plain(records[x][name]) == Plain(v) {
      PyEqIffSamePlain(records[x][name], v);
    }
    if other: string :| other in records && kind + ":" <= other && other != FullKey(kind, key)
                        && name in records[other] && PyEq(records[other][name], v) {
      assert other == kind + ":" + other[|kind| + 1..];
    }
    if other: string :| other != key && kind + ":" + other in records && name in records[kind + ":" + other]
                        && Plain(records[kind + ":" + other][name]) == Plain(v) {
      var x := kind + ":" + other;
      assert x[|kind| + 1..] == other && FullKey(kind, key)[|kind| + 1..] == key;
      assert kind + ":" <= x;
    }
  }

  lemma {:induction false} UniqueErrorIsFirst(
    unique: seq<string>, records: Records, kind: string, key: string, r: Record)
    ensures var error := UniqueError(unique, records, kind, FullKey(kind, key), r);
            && (error.None? <==> forall i :: 0 <= i < |unique| ==> !Clashes(records, kind, key, r, unique[i]))
            && (error.Some? ==> exists i :: FirstClash(unique, records, kind, key, r, error.value, i))
  {
    if unique != [] {
      var name := unique[0];
      if name in r {
        TakenIffClaimed(records, kind, key, name, r[name]);
      }
      UniqueErrorIsFirst(unique[1..], records, kind, key, r);
      assert forall i :: 0 < i < |unique| ==> unique[i] == unique[1..][i - 1];
      var rest := UniqueError(unique[1..], records, kind, FullKey(kind, key), r);
      if Clashes(records, kind, key, r, name) {
        assert FirstClash(unique, records, kind, key, r, NotUnique(name), 0);
      } else if rest.Some? {
        var i :| FirstClash(unique[1..], records, kind, key, r, rest.value, i);
        assert FirstClash(unique, records, kind, key, r, rest.value, i + 1);
      }
    }
  }

  ghost predicate FirstClash(
    unique: seq<string>, records: Records, kind: string, key: string, r: Record, error: Error, i: int)
  {
    0 <= i < |unique| && Clashes(records, kind, key, r, unique[i]) && error == NotUnique(unique[i])
    && forall j :: 0 <= j < i ==> !Clashes(records, kind, key, r, unique[j])
  }

  lemma {:induction false} RuleErrorIsFirst(rules: seq<Rule>, r: Record)
    ensures RuleError(rules, r).Some? ==> exists i :: FirstBreach(rules, r, RuleError(rules, r).value, i)
  {
    if rules != [] {
      WithinIffObeys(r);
      RuleErrorIsFirst(rules[1..], r);
      assert forall i :: 0 < i < |rules| ==> rules[i] == rules[1..][i - 1];
      var rest := RuleError(rules[1..], r);
      if !Within(rules[0], r) {
        assert FirstBreach(rules, r, Violated(rules[0]), 0);
      } else if rest.Some? {
        var i :| FirstBreach(rules[1..], r, rest.value, i);
        assert FirstBreach(rules, r, rest.value, i + 1);
      }
    }
  }

  ghost predicate FirstBreach(rules: seq<Rule>, r: Record, error: Error, i: int) {
    0 <= i < |rules| && !Within(rules[i], r) && error == Violated(rules[i])
    && forall j :: 0 <= j < i ==> Within(rules[j], r)
  }

  /** An upsert is accepted exactly when its type is registered, the record has the declared
      fields, takes no unique value of another key and keeps every bound; it then holds the
      key and touches no other. */
  lemma UpsertAcceptedIff(s: Store, kind: string, key: string, data: Record)
    ensures Upserted(s, kind, key, data).Ok?
            <==> kind in s.schemas && WellTyped(s.schemas[kind], data)
                 && Unclaimed(s.schemas[kind], s.records, kind, key, data) && Lawful(s.schemas[kind], data)
    ensures Upserted(s, kind, key, data).Ok?
            ==> Upserted(s, kind, key, data).value.records == s.records[kind + ":" + key := data]
  {
    if kind in s.schemas {
      FieldErrorIsFirst(s.schemas[kind].fields, data);
      UniqueErrorIsFirst(s.schemas[kind].unique, s.records, kind, key, data);
    }
  }

  /** The fault that is reported is the first there is: fields before unique values before
      bounds, and each in the order of declaration. */
  ghost predicate FirstFault(s: Store, kind: string, key: string, data: Record, error: Error) {
    if kind !in s.schemas then error == NotRegistered
    else if !WellTyped(s.schemas[kind], data) then exists i :: FirstMisfit(s.schemas[kind].fields, data, error, i)
    else if !Unclaimed(s.schemas[kind], s.records, kind, key, data) then
      exists i :: FirstClash(s.schemas[kind].unique, s.records, kind, key, data, error, i)
    else exists i :: FirstBreach(s.schemas[kind].rules, data, error, i)
  }

  lemma UpsertReportsFirstFault(s: Store, kind: string, key: string, data: Record)
    requires Upserted(s, kind, key, data).Err?
    ensures FirstFault(s, kind, key, data, Upserted(s, kind, key, data).error)
  {
    if kind in s.schemas {
      FieldErrorIsFirst(s.schemas[kind].fields, data);
      UniqueErrorIsFirst(s.schemas[kind].unique, s.records, kind, key, data);
      RuleErrorIsFirst(s.schemas[kind].rules, data);
    }
  }

  /** What a declared field of a record that does not exist yet starts with. */
  ghost predicate StartsEmpty(kind: FieldType, v: Json) {
    if kind == TInt || kind == TFloat then v == Int(0) else if kind == TBool then v == Bool(false) else v == Str("")
  }

  lemma DefaultsStep(fields: seq<FieldSpec>, front: seq<FieldSpec>, last: FieldSpec)
    requires fields == front + [last]
    ensures Defaults(fields) == Defaults(front)[last.name := DefaultOf(last.kind)]
  {
    assert fields[..|fields| - 1] == front;
  }

  /** A record that does not exist yet starts with zero, false or the empty text in each
      declared field; of two declarations of one name the later counts. */
  lemma {:induction false} DefaultsMeaning(fields: seq<FieldSpec>, i: nat)
    requires i < |fields| && forall j :: i < j < |fields| ==> fields[j].name != fields[i].name
    ensures fields[i].name in Defaults(fields) && StartsEmpty(fields[i].kind, Defaults(fields)[fields[i].name])
  {
    var last := |fields| - 1;
    DefaultsStep(fields, fields[..last], fields[last]);
    if i < last {
      DefaultsMeaning(fields[..last], i);
    }
  }

  /** A delta is accepted exactly when its type is registered, the field holds a number (an
      absent one holds zero) and the shifted record keeps every bound; it then shifts that
      number by exactly the delta and keeps the other fields and records. */
  lemma DeltaAcceptedIff(s: Store, kind: string, key: string, name: string, delta: real, base: Record, v: Json)
    requires kind in s.schemas
    requires base == if kind + ":" + key in s.records then s.records[kind + ":" + key]
                     else Defaults(s.schemas[kind].fields)
    requires v == if name in base then Plain(base[name]) else Float(0.0)
    ensures DeltaApplied(s, kind, key, name, delta).Ok?
            <==> v.Float? && Lawful(s.schemas[kind], base[name := Float(v.quantity + delta)])
    ensures DeltaApplied(s, kind, key, name, delta).Ok?
            ==> DeltaApplied(s, kind, key, name, delta).value.records
                == s.records[kind + ":" + key := base[name := Float(v.quantity + delta)]]
  {
    AmountIsPlain(Field(base, name));
  }

  /** In every reachable state a number under a rule of the type that wrote its record is
      within the bound: never negative under `non_negative`, always above zero under `positive`. */
  lemma RuledNumbersStayInBounds(schemas: Schemas, ops: seq<Op>, full: string, rule: Rule) returns (i: nat)
    requires AllAllowed(Opened(schemas), ops) && full in RunAll(Opened(schemas), ops).store.records
    ensures var s := RunAll(Opened(schemas), ops).store;
            && LatestAt(s.ledger, i) && EntryKey(s.ledger[i]) == full && s.ledger[i].kind in s.schemas
            && (rule in s.schemas[s.ledger[i].kind].rules && rule.field in s.records[full]
                ==> IsNumeric(s.records[full][rule.field])
                    && (rule.NonNegative? ==> Amount(s.records[full][rule.field]) >= 0.0)
                    && (rule.Positive? ==> Amount(s.records[full][rule.field]) > 0.0))
            && (rule in s.schemas[s.ledger[i].kind].rules && rule.Positive? ==> rule.field in s.records[full])
  {
    i := EveryRecordObeysItsWriter(schemas, ops, full);
    var r := RunAll(Opened(schemas), ops).store.records[full];
    if rule.field in r {
      AmountIsPlain(r[rule.field]);
    }
  }

  // ----- the object -----

  class RecordStore {
    var schemas: Schemas
    var records: Records
    var ledger: seq<Entry>
    var counter: nat
    var versions: map<string, nat>

    ghost function Value(): Store
      reads this
    {
      Store(schemas, records, ledger, counter, versions)
    }

    constructor (schemas: Schemas)
      ensures Value() == Opened(schemas).store
    {
      this.schemas := schemas;
      records, ledger, counter, versions := map[], [], 0, map[];
    }

    method CheckFields(fields: seq<FieldSpec>, r: Record) returns (error: Option<Error>)
      ensures error == FieldError(fields, r)
    {
      assert fields[0..] == fields;
      for i := 0 to |fields|
        invariant FieldError(fields[i..], r) == FieldError(fields, r)
      {
        assert fields[i..][1..] == fields[i + 1..];
        error := SpecError(fields[i], r);
        if error.Some? {
          return;
        }
      }
      return None;
    }

    method CheckUnique(unique: seq<string>, kind: string, full: string, r: Record) returns (error: Option<Error>)
      ensures error == UniqueError(unique, records, kind, full, r)
    {
      assert unique[0..] == unique;
      for i := 0 to |unique|
        invariant UniqueError(unique[i..], records, kind, full, r) == UniqueError(unique, records, kind, full, r)
      {
        assert unique[i..][1..] == unique[i + 1..];
        var name := unique[i];
        if name in r && !r[name].Null? {
          var taken := FindTaken(kind, full, name, r[name]);
          if taken {
            return Some(NotUnique(name));
          }
        }
      }
      return None;
    }

    /** Scans the other records of the type for the value. */
    method FindTaken(kind: string, full: string, name: string, v: Json) returns (taken: bool)
      ensures taken == Taken(records, kind, full, name, v)
    {
      var pending := records.Keys;
      while pending != {}
        invariant pending <= records.Keys
        invariant Taken(records, kind, full, name, v)
                  ==> exists other :: other in pending && kind + ":" <= other && other != full
                                      && name in records[other] && PyEq(records[other][name], v)
      {
        var other :| other in pending;
        if kind + ":" <= other && other != full && name in records[other] && PyEq(records[other][name], v) {
          return true;
        }
        pending := pending - {other};
      }
      return false;
    }

    method CheckRules(rules: seq<Rule>, r: Record) returns (error: Option<Error>)
      ensures error == RuleError(rules, r)
    {
      assert rules[0..] == rules;
      for i := 0 to |rules|
        invariant RuleError(rules[i..], r) == RuleError(rules, r)
      {
        assert rules[i..][1..] == rules[i + 1..];
        if !Obeys(rules[i], r) {
          return Some(Violated(rules[i]));
        }
      }
      return None;
    }

    method Append(kind: string, key: string, change: Change, before: Option<Record>, r: Record)
      modifies this
      ensures Value() == old(Recorded(Value(), kind, key, change, before, r))
    {
      var full := FullKey(kind, key);
      records := records[full := r];
      counter := counter + 1;
      ledger := ledger + [Entry(counter, kind, key, change, before, r)];
      versions := versions[full := (if full in versions then versions[full] else 0) + 1];
    }

    method Upsert(kind: string, key: string, data: Record) returns (error: Option<Error>)
      modifies this
      ensures match old(Upserted(Value(), kind, key, data))
              case Ok(next) => error == None && Value() == next
              case Err(why) => error == Some(why) && Value() == old(Value())
    {
      if kind !in schemas {
        return Some(NotRegistered);
      }
      var full := FullKey(kind, key);
      error := CheckFields(schemas[kind].fields, data);
      if error.Some? {
        return;
      }
      error := CheckUnique(schemas[kind].unique, kind, full, data);
      if error.Some? {
        return;
      }
      error := CheckRules(schemas[kind].rules, data);
      if error.Some? {
        return;
      }
      var before := if full in records then Some(records[full]) else None;
      Append(kind, key, Replaced, before, data);
    }

    method ApplyDelta(kind: string, key: string, name: string, delta: real) returns (error: Option<Error>)
      modifies this
      ensures match old(DeltaApplied(Value(), kind, key, name, delta))
              case Ok(next) => error == None && Value() == next
              case Err(why) => error == Some(why) && Value() == old(Value())
    {
      if kind !in schemas {
        return Some(NotRegistered);
      }
      var full := FullKey(kind, key);
      var base := if full in records then records[full] else Defaults(schemas[kind].fields);
      if !IsNumeric(Field(base, name)) {
        return Some(NotNumeric(name));
      }
      var r := Shift(base, name, delta);
      error := CheckRules(schemas[kind].rules, r);
      if error.None? {
        Append(kind, key, Shifted(name, delta), Some(base), r);
      }
    }

    method InvertMutation(kind: string, key: string, prior: Option<Record>, ids: set<nat>)
      modifies this
      ensures Value() == old(Inverted(Value(), kind, key, prior, ids))
    {
      var full := FullKey(kind, key);
      ledger := Without(ledger, ids);
      match prior
      case None =>
        records := records - {full};
        versions := versions - {full};
      case Some(r) =>
        records := records[full := r];
    }

    method ReplayLedger() returns (state: Option<Records>)
      ensures state == Replay(ledger)
    {
      var current: Records := map[];
      for n := 0 to |ledger|
        invariant Replay(ledger[..n]) == Some(current)
      {
        assert ledger[..n + 1][..n] == ledger[..n];
        var next := ReplayEntry(current, ledger[n]);
        if next.None? {
          ReplayStaysBroken(ledger, n + 1);
          return None;
        }
        current := next.value;
      }
      assert ledger[..|ledger|] == ledger;
      return Some(current);
    }
  }

  lemma {:induction false} ReplayStaysBroken(ledger: seq<Entry>, n: nat)
    requires n <= |ledger| && Replay(ledger[..n]).None?
    ensures Replay(ledger).None?
    decreases |ledger|
  {
    if n == |ledger| {
      assert ledger[..n] == ledger;
    } else {
      assert ledger[..|ledger| - 1][..n] == ledger[..n];
      ReplayStaysBroken(ledger[..|ledger| - 1], n);
    }
  }
}
