/** Admission of outbound calls to external platforms: a quota per provider, counted in
    windows that restart on the first call after they have run out. */
module Integration {
  import opened Common

  /** `seconds` is positive by registration. */
  datatype Limit = Limit(maxCalls: nat, seconds: real)

  datatype Window = Window(start: real, calls: nat)

  // ----- one provider -----

  /** The window in force at `now`; a provider without one gets it at `created`. */
  function InForce(w: Option<Window>, limit: Limit, created: real, now: real): Window {
    var current := if w.Some? then w.value else Window(created, 0);
    if now - current.start >= limit.seconds then Window(now, 0) else current
  }

  predicate HasRoom(w: Window, limit: Limit) {
    w.calls < limit.maxCalls
  }

  function Charged(w: Window): Window {
    w.(calls := w.calls + 1)
  }

  /** A dispatch, and the window it was charged to. */
  datatype Mark = Mark(time: real, epoch: nat)

  /** A provider with its history: the starts of its windows and the dispatches recorded. */
  datatype Lane = Lane(window: Option<Window>, starts: seq<real>, log: seq<Mark>)

  function Touched(l: Lane, limit: Limit, created: real, now: real): (r: Lane)
    ensures r.window.Some? && (l.window.Some? ==> l.starts <= r.starts)
  {
    var first := if l.window.Some? then l.starts else l.starts + [created];
    var current := if l.window.Some? then l.window.value else Window(created, 0);
    Lane(Some(InForce(l.window, limit, created, now)),
         if now - current.start >= limit.seconds then first + [now] else first,
         l.log)
  }

  /** The index of the latest window. */
  function Latest(starts: seq<real>): nat {
    if starts == [] then 0 else |starts| - 1
  }

  function Recorded(l: Lane, limit: Limit, created: real, now: real): Lane {
    var touched := Touched(l, limit, created, now);
    touched.(window := Some(Charged(touched.window.value)),
             log := touched.log + [Mark(now, Latest(touched.starts))])
  }

  /** Admission, and the record of the call right after it if it was admitted. */
  function Called(l: Lane, limit: Limit, created: real, asked: real, noted: real, sent: real): Lane {
    var admitted := Touched(l, limit, created, asked);
    if HasRoom(admitted.window.value, limit) then Recorded(admitted, limit, noted, sent) else admitted
  }

  function InEpoch(log: seq<Mark>, k: nat): nat {
    if log == [] then 0
    else InEpoch(log[..|log| - 1], k) + if log[|log| - 1].epoch == k then 1 else 0
  }

  /** How many dispatches fall into the closed interval from `a` to `b`. */
  function Within(log: seq<Mark>, a: real, b: real): nat {
    if log == [] then 0
    else Within(log[..|log| - 1], a, b) + if a <= log[|log| - 1].time <= b then 1 else 0
  }

  ghost predicate Spaced(starts: seq<real>, seconds: real) {
    forall i, j :: 0 <= i < j < |starts| ==> starts[j] - starts[i] >= seconds
  }

  ghost predicate Placed(m: Mark, starts: seq<real>, seconds: real) {
    m.epoch < |starts| && starts[m.epoch] <= m.time < starts[m.epoch] + seconds
  }

  ghost predicate LaneInv(l: Lane, limit: Limit, clock: real) {
    && Spaced(l.starts, limit.seconds)
    && (forall i :: 0 <= i < |l.starts| ==> l.starts[i] <= clock)
    && (forall m :: m in l.log ==> Placed(m, l.starts, limit.seconds))
    && (forall k :: InEpoch(l.log, k) <= limit.maxCalls)
    && (l.window.None? <==> l.starts == [])
    && (l.window.Some? ==> l.window.value.start == l.starts[|l.starts| - 1]
                           && l.window.value.calls == InEpoch(l.log, |l.starts| - 1))
  }

  lemma {:induction false} NoneInEpoch(log: seq<Mark>, k: nat)
    requires forall m :: m in log ==> m.epoch < k
    ensures InEpoch(log, k) == 0
  {
    if log != [] {
      NoneInEpoch(log[..|log| - 1], k);
      assert log[|log| - 1] in log;
    }
  }

  lemma {:induction false} TouchSpaces(l: Lane, limit: Limit, clock: real, created: real, now: real)
    requires LaneInv(l, limit, clock) && limit.seconds > 0.0 && clock <= created <= now
    ensures Spaced(Touched(l, limit, created, now).starts, limit.seconds)
    ensures forall i :: 0 <= i < |Touched(l, limit, created, now).starts|
                        ==> Touched(l, limit, created, now).starts[i] <= now
    ensures l.starts <= Touched(l, limit, created, now).starts
  {
  }

  lemma {:induction false} PlacedStays(m: Mark, starts: seq<real>, longer: seq<real>, seconds: real)
    requires Placed(m, starts, seconds) && starts <= longer
    ensures Placed(m, longer, seconds)
  {
  }

  lemma {:induction false} TouchKeepsInv(l: Lane, limit: Limit, clock: real, created: real, now: real)
    requires LaneInv(l, limit, clock) && limit.seconds > 0.0 && clock <= created <= now
    ensures LaneInv(Touched(l, limit, created, now), limit, now)
    ensures now - Touched(l, limit, created, now).window.value.start < limit.seconds
  {
    var next := Touched(l, limit, created, now);
    TouchSpaces(l, limit, clock, created, now);
    forall m | m in l.log ensures Placed(m, next.starts, limit.seconds) {
      PlacedStays(m, l.starts, next.starts, limit.seconds);
    }
    if |next.starts| > |l.starts| {
      NoneInEpoch(l.log, |next.starts| - 1);
    }
  }

  lemma {:induction false} InEpochAppends(log: seq<Mark>, m: Mark, k: nat)
    ensures InEpoch(log + [m], k) == InEpoch(log, k) + if m.epoch == k then 1 else 0
  {
    assert (log + [m])[..|log|] == log;
  }

  lemma {:induction false} RecordKeepsInv(l: Lane, limit: Limit, clock: real, created: real, now: real)
    requires LaneInv(l, limit, clock) && limit.seconds > 0.0 && clock <= created <= now
    requires l.window.Some? && HasRoom(l.window.value, limit)
    ensures LaneInv(Recorded(l, limit, created, now), limit, now)
  {
    var touched := Touched(l, limit, created, now);
    TouchKeepsInv(l, limit, clock, created, now);
    var m := Mark(now, Latest(touched.starts));
    forall k ensures InEpoch(touched.log + [m], k) <= limit.maxCalls {
      InEpochAppends(touched.log, m, k);
    }
    InEpochAppends(touched.log, m, m.epoch);
  }

  lemma {:induction false} CallKeepsInv(
    l: Lane, limit: Limit, clock: real, created: real, asked: real, noted: real, sent: real)
    requires LaneInv(l, limit, clock) && limit.seconds > 0.0 && clock <= created <= asked <= noted <= sent
    ensures LaneInv(Called(l, limit, created, asked, noted, sent), limit, sent)
  {
    var admitted := Touched(l, limit, created, asked);
    TouchKeepsInv(l, limit, clock, created, asked);
    if HasRoom(admitted.window.value, limit) {
      RecordKeepsInv(admitted, limit, asked, noted, sent);
    }
  }

  // ----- the bound -----

  /** Three windows do not fit into one interval of a window's length. */
  lemma {:induction false} AtMostTwoWindows(starts: seq<real>, seconds: real, m: Mark, n: Mark)
    requires Spaced(starts, seconds) && Placed(m, starts, seconds) && Placed(n, starts, seconds)
    requires n.epoch >= m.epoch + 2
    ensures n.time - m.time > seconds
  {
    assert starts[m.epoch + 1] - starts[m.epoch] >= seconds;
    assert starts[n.epoch] - starts[m.epoch + 1] >= seconds;
  }

  ghost predicate TwoEpochs(log: seq<Mark>, a: real, b: real, k: nat) {
    forall m :: m in log && a <= m.time <= b ==> m.epoch == k || m.epoch == k + 1
  }

  lemma {:induction false} CountTwoEpochs(log: seq<Mark>, a: real, b: real, k: nat)
    requires TwoEpochs(log, a, b, k)
    ensures Within(log, a, b) <= InEpoch(log, k) + InEpoch(log, k + 1)
  {
    if log != [] {
      var front := log[..|log| - 1];
      assert log[|log| - 1] in log;
      assert TwoEpochs(front, a, b, k);
      CountTwoEpochs(front, a, b, k);
    }
  }

  lemma {:induction false} NothingWithin(log: seq<Mark>, a: real, b: real)
    requires forall m :: m in log ==> !(a <= m.time <= b)
    ensures Within(log, a, b) == 0
  {
    if log != [] {
      assert log[|log| - 1] in log;
      NothingWithin(log[..|log| - 1], a, b);
    }
  }

  /** The earliest epoch that has a dispatch in the interval. */
  lemma {:induction false} EarliestEpoch(log: seq<Mark>, a: real, b: real) returns (first: Mark)
    requires exists m :: m in log && a <= m.time <= b
    ensures first in log && a <= first.time <= b
    ensures forall m :: m in log && a <= m.time <= b ==> first.epoch <= m.epoch
  {
    var front := log[..|log| - 1];
    var last := log[|log| - 1];
    assert log == front + [last];
    if exists m :: m in front && a <= m.time <= b {
      first := EarliestEpoch(front, a, b);
      if a <= last.time <= b && last.epoch < first.epoch {
        first := last;
      }
    } else {
      first := last;
    }
  }

  /** No interval as long as the window holds more than twice the quota. */
  lemma {:induction false} QuotaInAnyInterval(l: Lane, limit: Limit, clock: real, a: real, b: real)
    requires LaneInv(l, limit, clock) && b - a <= limit.seconds
    ensures Within(l.log, a, b) <= 2 * limit.maxCalls
  {
    if exists m :: m in l.log && a <= m.time <= b {
      var first := EarliestEpoch(l.log, a, b);
      forall m | m in l.log && a <= m.time <= b ensures m.epoch == first.epoch || m.epoch == first.epoch + 1 {
        if m.epoch >= first.epoch + 2 {
          AtMostTwoWindows(l.starts, limit.seconds, first, m);
        }
      }
      CountTwoEpochs(l.log, a, b, first.epoch);
    } else {
      NothingWithin(l.log, a, b);
    }
  }

  // ----- the bound is reached -----

  /** `n` admitted-and-recorded calls at one instant. */
  function Repeated(l: Lane, limit: Limit, t: real, n: nat): Lane {
    if n == 0 then l else Called(Repeated(l, limit, t, n - 1), limit, t, t, t, t)
  }

  lemma {:induction false} WithinAppends(log: seq<Mark>, m: Mark, a: real, b: real)
    ensures Within(log + [m], a, b) == Within(log, a, b) + if a <= m.time <= b then 1 else 0
  {
    assert (log + [m])[..|log|] == log;
  }

  /** The provider has a window that is open at `t`. */
  predicate Open(l: Lane, limit: Limit, t: real) {
    l.window.Some? && t - l.window.value.start < limit.seconds
  }

  lemma {:induction false} CallFills(l: Lane, limit: Limit, t: real)
    requires Open(l, limit, t) && HasRoom(l.window.value, limit)
    ensures Called(l, limit, t, t, t, t)
            == Lane(Some(Charged(l.window.value)), l.starts, l.log + [Mark(t, Latest(l.starts))])
  {
  }

  function Copies(m: Mark, n: nat): seq<Mark> {
    seq(n, i => m)
  }

  /** The lane after `n` more dispatches at `t` in its open window. */
  function Filled(l: Lane, t: real, n: nat): Lane
    requires l.window.Some?
  {
    Lane(Some(Window(l.window.value.start, l.window.value.calls + n)), l.starts,
        l.log + Copies(Mark(t, Latest(l.starts)), n))
  }

  lemma {:induction false} FillStep(l: Lane, limit: Limit, t: real, n: nat)
    requires Open(l, limit, t) && l.window.value.calls + n < limit.maxCalls
    ensures Called(Filled(l, t, n), limit, t, t, t, t) == Filled(l, t, n + 1)
  {
    var m := Mark(t, Latest(l.starts));
    CallFills(Filled(l, t, n), limit, t);
    ConcatAssociates(l.log, Copies(m, n), [m]);
    assert Copies(m, n) + [m] == Copies(m, n + 1);
  }

  lemma {:induction false} RepeatedFills(l: Lane, limit: Limit, t: real, n: nat)
    requires Open(l, limit, t) && l.window.value.calls + n <= limit.maxCalls
    ensures Repeated(l, limit, t, n) == Filled(l, t, n)
  {
    if n == 0 {
      assert l.log + Copies(Mark(t, Latest(l.starts)), 0) == l.log;
    } else {
      RepeatedFills(l, limit, t, n - 1);
      FillStep(l, limit, t, n - 1);
    }
  }

  lemma {:induction false} WithinCopies(log: seq<Mark>, m: Mark, n: nat, a: real, b: real)
    requires a <= m.time <= b
    ensures Within(log + Copies(m, n), a, b) == Within(log, a, b) + n
  {
    if n == 0 {
      assert log + Copies(m, 0) == log;
    } else {
      WithinCopies(log, m, n - 1, a, b);
      WithinAppends(log + Copies(m, n - 1), m, a, b);
      assert log + Copies(m, n) == log + Copies(m, n - 1) + [m];
    }
  }

  /** The quota at the end of one window and again at the start of the next. */
  function Burst(limit: Limit, early: real): Lane {
    var begun := Touched(Lane(None, [], []), limit, 0.0, 0.0);
    var late := Repeated(begun, limit, early, limit.maxCalls);
    Repeated(Touched(late, limit, limit.seconds, limit.seconds), limit, limit.seconds, limit.maxCalls)
  }

  lemma {:induction false} RolledAnew(l: Lane, limit: Limit, t: real)
    requires l.window.Some? && t - l.window.value.start >= limit.seconds > 0.0
    ensures Touched(l, limit, t, t).window == Some(Window(t, 0)) && Touched(l, limit, t, t).log == l.log
  {
  }

  /** An interval however short can hold twice the quota: the limiter does not slide. */
  lemma {:induction false} BoundIsTight(limit: Limit, early: real)
    requires 0.0 <= early < limit.seconds
    ensures Within(Burst(limit, early).log, early, limit.seconds) == 2 * limit.maxCalls
  {
    var full, n := limit.seconds, limit.maxCalls;
    var begun := Touched(Lane(None, [], []), limit, 0.0, 0.0);
    assert begun.window == Some(Window(0.0, 0)) && begun.log == [];
    RepeatedFills(begun, limit, early, n);
    WithinCopies(begun.log, Mark(early, Latest(begun.starts)), n, early, full);
    var late := Repeated(begun, limit, early, n);
    RolledAnew(late, limit, full);
    var renewed := Touched(late, limit, full, full);
    RepeatedFills(renewed, limit, full, n);
    WithinCopies(renewed.log, Mark(full, Latest(renewed.starts)), n, early, full);
  }

  // ----- the registry over a run -----

  datatype Registry = Registry(providers: map<string, string>, limits: map<string, Limit>)

  function OwnerOf(r: Registry, tool: string): Option<string> {
    if tool in r.providers && r.providers[tool] in r.limits then Some(r.providers[tool]) else None
  }

  ghost predicate Registered(r: Registry) {
    forall p :: p in r.limits ==> r.limits[p].seconds > 0.0
  }

  /** Clock readings in the order they are taken. */
  datatype Op =
    | Ask(tool: string, created: real, asked: real)
    | Call(tool: string, created: real, asked: real, noted: real, sent: real)

  datatype Session = Session(lanes: map<string, Lane>, clock: real)

  function LaneOf(s: Session, p: string): Lane {
    if p in s.lanes then s.lanes[p] else Lane(None, [], [])
  }

  predicate InTime(s: Session, op: Op) {
    match op
    case Ask(_, created, asked) => s.clock <= created <= asked
    case Call(_, created, asked, noted, sent) => s.clock <= created <= asked <= noted <= sent
  }

  function Perform(r: Registry, s: Session, op: Op): Session {
    var owner := OwnerOf(r, op.tool);
    var now := if op.Ask? then op.asked else op.sent;
    if owner.None? then s.(clock := now)
    else
      var limit := r.limits[owner.value];
      var lane := LaneOf(s, owner.value);
      var next := if op.Ask? then Touched(lane, limit, op.created, op.asked)
                  else Called(lane, limit, op.created, op.asked, op.noted, op.sent);
      Session(s.lanes[owner.value := next], now)
  }

  ghost predicate Inv(r: Registry, s: Session) {
    forall p :: p in s.lanes ==> p in r.limits && LaneInv(s.lanes[p], r.limits[p], s.clock)
  }

  lemma {:induction false} LaterClock(l: Lane, limit: Limit, clock: real, later: real)
    requires LaneInv(l, limit, clock) && clock <= later
    ensures LaneInv(l, limit, later)
  {
  }

  lemma {:induction false} PerformKeepsInv(r: Registry, s: Session, op: Op)
    requires Registered(r) && Inv(r, s) && InTime(s, op)
    ensures Inv(r, Perform(r, s, op))
  {
    var next := Perform(r, s, op);
    var owner := OwnerOf(r, op.tool);
    forall p | p in s.lanes ensures LaneInv(s.lanes[p], r.limits[p], next.clock) {
      LaterClock(s.lanes[p], r.limits[p], s.clock, next.clock);
    }
    if owner.Some? {
      var lane, limit := LaneOf(s, owner.value), r.limits[owner.value];
      assert LaneInv(lane, limit, s.clock);
      match op
      case Ask(_, created, asked) => TouchKeepsInv(lane, limit, s.clock, created, asked);
      case Call(_, created, asked, noted, sent) => CallKeepsInv(lane, limit, s.clock, created, asked, noted, sent);
    }
  }

  function RunAll(r: Registry, s: Session, ops: seq<Op>): Session {
    if ops == [] then s else Perform(r, RunAll(r, s, ops[..|ops| - 1]), ops[|ops| - 1])
  }

  predicate AllInTime(r: Registry, s: Session, ops: seq<Op>) {
    ops == [] || (AllInTime(r, s, ops[..|ops| - 1]) && InTime(RunAll(r, s, ops[..|ops| - 1]), ops[|ops| - 1]))
  }

  lemma {:induction false} RunKeepsInv(r: Registry, clock: real, ops: seq<Op>)
    requires Registered(r) && AllInTime(r, Session(map[], clock), ops)
    ensures Inv(r, RunAll(r, Session(map[], clock), ops))
  {
    if ops != [] {
      RunKeepsInv(r, clock, ops[..|ops| - 1]);
      PerformKeepsInv(r, RunAll(r, Session(map[], clock), ops[..|ops| - 1]), ops[|ops| - 1]);
    }
  }

  /** Over every run and every non-decreasing clock, no provider records more than twice
      its quota in any interval as long as its window. */
  lemma {:induction false} EveryIntervalIsBounded(r: Registry, clock: real, ops: seq<Op>, p: string, a: real, b: real)
    requires Registered(r) && AllInTime(r, Session(map[], clock), ops)
    requires p in r.limits && b - a <= r.limits[p].seconds
    ensures Within(LaneOf(RunAll(r, Session(map[], clock), ops), p).log, a, b) <= 2 * r.limits[p].maxCalls
  {
    RunKeepsInv(r, clock, ops);
    var s := RunAll(r, Session(map[], clock), ops);
    if p in s.lanes {
      QuotaInAnyInterval(s.lanes[p], r.limits[p], s.clock, a, b);
    }
  }

  // ----- the sliding promise -----

  /** Times that do not fall, up to the clock. */
  ghost predicate InOrder(log: seq<Mark>, clock: real) {
    && (forall i, j :: 0 <= i < j < |log| ==> log[i].time <= log[j].time)
    && (forall i :: 0 <= i < |log| ==> log[i].time <= clock)
  }

  ghost predicate AllInOrder(s: Session) {
    forall p :: p in s.lanes ==> InOrder(s.lanes[p].log, s.clock)
  }

  lemma {:induction false} PerformKeepsOrder(r: Registry, s: Session, op: Op)
    requires AllInOrder(s) && InTime(s, op)
    ensures AllInOrder(Perform(r, s, op))
  {
  }

  lemma {:induction false} RunKeepsOrder(r: Registry, clock: real, ops: seq<Op>)
    requires AllInTime(r, Session(map[], clock), ops)
    ensures AllInOrder(RunAll(r, Session(map[], clock), ops))
  {
    if ops != [] {
      RunKeepsOrder(r, clock, ops[..|ops| - 1]);
      PerformKeepsOrder(r, RunAll(r, Session(map[], clock), ops[..|ops| - 1]), ops[|ops| - 1]);
    }
  }

  /** What a sliding window would promise: the quota in every interval of its length. */
  ghost predicate Slides(log: seq<Mark>, limit: Limit) {
    forall a, b :: b - a <= limit.seconds ==> Within(log, a, b) <= limit.maxCalls
  }

  /** Each dispatch comes more than a window's length after the one `maxCalls` before it. */
  ghost predicate WellSpread(log: seq<Mark>, limit: Limit) {
    forall i, j :: 0 <= i && j == i + limit.maxCalls && j < |log| ==> log[j].time - log[i].time > limit.seconds
  }

  lemma {:induction false} WithinSuffix(log: seq<Mark>, k: nat, a: real, b: real)
    requires k <= |log| && forall i :: 0 <= i < k ==> log[i].time < a
    ensures Within(log, a, b) <= |log| - k
  {
    if k == |log| {
      assert forall m :: m in log ==> !(a <= m.time <= b);
      NothingWithin(log, a, b);
    } else {
      WithinSuffix(log[..|log| - 1], k, a, b);
    }
  }

  lemma {:induction false} WithinRange(log: seq<Mark>, lo: nat, hi: nat, a: real, b: real)
    requires lo <= hi <= |log| && forall i :: lo <= i < hi ==> a <= log[i].time <= b
    ensures Within(log, a, b) >= hi - lo
  {
    if hi > lo {
      var front := log[..|log| - 1];
      if hi == |log| {
        WithinRange(front, lo, hi - 1, a, b);
      } else {
        WithinRange(front, lo, hi, a, b);
      }
    }
  }

  lemma {:induction false} SpreadFits(log: seq<Mark>, limit: Limit, clock: real, a: real, b: real)
    requires InOrder(log, clock) && WellSpread(log, limit) && b - a <= limit.seconds
    ensures Within(log, a, b) <= limit.maxCalls
  {
    if log != [] {
      var front, last := log[..|log| - 1], log[|log| - 1];
      assert InOrder(front, clock);
      assert forall i, j :: 0 <= i && j == i + limit.maxCalls && j < |front|
                            ==> front[j] == log[j] && front[i] == log[i];
      if !(a <= last.time <= b) {
        SpreadFits(front, limit, clock, a, b);
      } else if |log| > limit.maxCalls {
        var k := |log| - 1 - limit.maxCalls;
        assert log[k].time < a;
        WithinSuffix(log, k + 1, a, b);
      } else {
        WithinSuffix(log, 0, a, b);
      }
    }
  }

  /** The quota holds in every interval of a window's length exactly when each dispatch comes
      more than that after the one a quota earlier. */
  lemma {:induction false} SlidesIffWellSpread(log: seq<Mark>, limit: Limit, clock: real)
    requires InOrder(log, clock)
    ensures Slides(log, limit) <==> WellSpread(log, limit)
  {
    if WellSpread(log, limit) {
      forall a, b | b - a <= limit.seconds ensures Within(log, a, b) <= limit.maxCalls {
        SpreadFits(log, limit, clock, a, b);
      }
    }
    if Slides(log, limit) {
      forall i, j | 0 <= i && j == i + limit.maxCalls && j < |log| ensures log[j].time - log[i].time > limit.seconds {
        WithinRange(log, i, j + 1, log[i].time, log[j].time);
      }
    }
  }

  /** For every run and provider. */
  lemma {:induction false} SlidingPromiseIff(r: Registry, clock: real, ops: seq<Op>, p: string)
    requires AllInTime(r, Session(map[], clock), ops) && p in r.limits
    ensures var log := LaneOf(RunAll(r, Session(map[], clock), ops), p).log;
            Slides(log, r.limits[p]) <==> WellSpread(log, r.limits[p])
  {
    var s := RunAll(r, Session(map[], clock), ops);
    RunKeepsOrder(r, clock, ops);
    SlidesIffWellSpread(LaneOf(s, p).log, r.limits[p], s.clock);
  }

  // ----- the object -----

  datatype Admission = Admitted | NoOwner | QuotaReached

  class IntegrationRegistry {
    var providers: map<string, string>
    var limits: map<string, Limit>
    var windows: map<string, Window>

    constructor (providers: map<string, string>, limits: map<string, Limit>)
      ensures this.providers == providers && this.limits == limits && windows == map[]
    {
      this.providers, this.limits, windows := providers, limits, map[];
    }

    function Owner(tool: string): Option<string>
      reads this`providers, this`limits
    {
      OwnerOf(Registry(providers, limits), tool)
    }

    function WindowOf(name: string): Option<Window>
      reads this`windows
    {
      if name in windows then Some(windows[name]) else None
    }

    /** `created` is the reading taken for a window that may have to be created. */
    method Admit(tool: string, created: real, now: real) returns (r: Admission)
      modifies this`windows
      ensures Owner(tool).None? ==> r == NoOwner && windows == old(windows)
      ensures Owner(tool).Some? ==>
                var limit := limits[Owner(tool).value];
                var w := InForce(old(WindowOf(Owner(tool).value)), limit, created, now);
                windows == old(windows)[Owner(tool).value := w]
                    && r == if HasRoom(w, limit) then Admitted else QuotaReached
    {
      var owner := Owner(tool);
      if owner.None? {
        return NoOwner;
      }
      var name := owner.value;
      if name !in windows {
        windows := windows[name := Window(created, 0)];
      }
      var limit := limits[name];
      if now - windows[name].start >= limit.seconds {
        windows := windows[name := Window(now, 0)];
      }
      if windows[name].calls >= limit.maxCalls {
        return QuotaReached;
      }
      return Admitted;
    }

    method RecordDispatched(tool: string, created: real, now: real)
      modifies this`windows
      ensures Owner(tool).None? ==> windows == old(windows)
      ensures Owner(tool).Some? ==>
                var limit := limits[Owner(tool).value];
                windows == old(windows)[Owner(tool).value := Charged(InForce(old(WindowOf(Owner(tool).value)), limit,
                    created, now))]
    {
      var owner := Owner(tool);
      if owner.None? {
        return;
      }
      var name := owner.value;
      var limit := limits[name];
      if name !in windows {
        windows := windows[name := Window(created, 0)];
      }
      if now - windows[name].start >= limit.seconds {
        windows := windows[name := Window(now, 0)];
      }
      windows := windows[name := windows[name].(calls := windows[name].calls + 1)];
    }

    /** One call as the run makes it: the windows move exactly as the lane of the owner. */
    method AdmitAndRecord(
      tool: string, created: real, asked: real, noted: real, sent: real, ghost lanes: Session) returns (r: Admission)
      requires forall p :: LaneOf(lanes, p).window == WindowOf(p)
      modifies this`windows
      ensures var next := Perform(Registry(providers, limits), lanes, Call(tool, created, asked, noted, sent));
              forall p :: p in limits ==> LaneOf(next, p).window == WindowOf(p)
    {
      ghost var owner := Owner(tool);
      r := Admit(tool, created, asked);
      if r.Admitted? {
        ghost var admitted := windows[owner.value];
        assert WindowOf(owner.value) == Some(admitted);
        RecordDispatched(tool, noted, sent);
        assert WindowOf(owner.value) == Some(Charged(InForce(Some(admitted), limits[owner.value], noted, sent)));
      }
      assert forall p :: owner != Some(p) ==> WindowOf(p) == old(WindowOf(p));
      if owner.Some? {
        ghost var next := Called(LaneOf(lanes, owner.value), limits[owner.value], created, asked, noted, sent);
        assert LaneOf(lanes, owner.value).window == old(WindowOf(owner.value));
        assert next.window == WindowOf(owner.value);
      }
    }
  }
}
