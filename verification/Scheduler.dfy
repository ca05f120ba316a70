/** The event-driven scheduler: wake conditions, urgency order, the capacity cut, and the
    life of a wake event from the queue to its consumption or expiry. */
module Scheduler {
  import opened Common
  import Text

  datatype Status = Queued | Eligible | Claimed | Consumed | Deferred | Expired

  datatype Event = Event(
    id: string, kind: string, target: string, source: string, task: string,
    resource: string, thread: string, tick: int, visibleAt: int)

  datatype Slot = Slot(event: Event, status: Status)

  type Queue = seq<Slot>

  datatype Condition = Condition(
    kinds: set<string>, wakeAt: int, tasks: set<string>, resources: set<string>,
    threads: set<string>, senders: set<string>)

  datatype AgentState = Created | Initialized | Paused | Failed | Terminated | Active

  datatype Candidate = Candidate(agent: string, events: seq<Event>, tick: int)

  datatype Activation = Activation(agent: string, events: seq<Event>, tick: int, completed: bool)

  // ----- matching -----

  /** An empty restriction admits all, and so does an event that leaves the field empty. */
  predicate Admits(wanted: set<string>, given: string) {
    wanted == {} || given == "" || given in wanted
  }

  predicate Matches(c: Condition, e: Event, tick: int) {
    && tick >= (if e.visibleAt >= 0 then e.visibleAt else e.tick + 1)
    && tick >= c.wakeAt
    && e.kind in c.kinds
    && Admits(c.tasks, e.task)
    && Admits(c.resources, e.resource)
    && Admits(c.threads, e.thread)
    && Admits(c.senders, e.source)
  }

  /** The documented rule: a restriction that is not empty must contain the event's field. */
  predicate Contains(wanted: set<string>, given: string) {
    wanted == {} || given in wanted
  }

  predicate MatchesAsDocumented(c: Condition, e: Event, tick: int) {
    && tick >= (if e.visibleAt >= 0 then e.visibleAt else e.tick + 1)
    && tick >= c.wakeAt
    && e.kind in c.kinds
    && Contains(c.tasks, e.task)
    && Contains(c.resources, e.resource)
    && Contains(c.threads, e.thread)
    && Contains(c.senders, e.source)
  }

  /** The restriction treats an event that leaves the field empty as documented. */
  predicate Indifferent(wanted: set<string>) {
    wanted == {} || "" in wanted
  }

  /** An event that leaves every field empty, visible from the start. */
  function BareEvent(kind: string): Event {
    Event("", kind, "", "", "", "", "", 0, 0)
  }

  /** A condition matches as documented, for every event and tick, exactly when it wakes for
      no kind of event or each of its restrictions is empty or contains the empty name. */
  lemma MatchesAsDocumentedIff(c: Condition)
    ensures (forall e, tick :: Matches(c, e, tick) <==> MatchesAsDocumented(c, e, tick))
            <==> c.kinds == {}
                 || (Indifferent(c.tasks) && Indifferent(c.resources) && Indifferent(c.threads)
                     && Indifferent(c.senders))
  {
    if c.kinds != {}
       && !(Indifferent(c.tasks) && Indifferent(c.resources) && Indifferent(c.threads) && Indifferent(c.senders)) {
      var kind :| kind in c.kinds;
      EmptyFieldsSlipThrough(c, kind);
    }
  }

  /** The event that slips through: no task, resource, thread or sender of its own. */
  lemma EmptyFieldsSlipThrough(c: Condition, kind: string)
    requires kind in c.kinds
    requires !(Indifferent(c.tasks) && Indifferent(c.resources) && Indifferent(c.threads) && Indifferent(c.senders))
    ensures var tick := if c.wakeAt > 0 then c.wakeAt else 0;
            Matches(c, BareEvent(kind), tick) && !MatchesAsDocumented(c, BareEvent(kind), tick)
  {
  }

  datatype World = World(conditions: map<string, Condition>, agents: map<string, AgentState>, tick: int)

  /** The slot wakes its agent now. */
  predicate Wakes(w: World, s: Slot) {
    var agent := s.event.target;
    s.status.Eligible? && agent in w.agents && w.agents[agent].Active? && agent in w.conditions
    && Matches(w.conditions[agent], s.event, w.tick)
  }

  /** The agents that wake, in the order of their first event. */
  function WokenAgents(w: World, q: Queue): seq<string> {
    if q == [] then []
    else
      var front := WokenAgents(w, q[..|q| - 1]);
      var last := q[|q| - 1];
      if Wakes(w, last) && last.event.target !in front then front + [last.event.target] else front
  }

  /** All the events that wake one agent, in queue order. */
  function WakingEvents(w: World, q: Queue, agent: string): seq<Event> {
    if q == [] then []
    else
      var front := WakingEvents(w, q[..|q| - 1], agent);
      var last := q[|q| - 1];
      if Wakes(w, last) && last.event.target == agent then front + [last.event] else front
  }

  // ----- urgency -----

  datatype Rank = Rank(priority: int, deadline: Option<int>)
  type Urgency = string -> Rank

  /** A missing deadline sorts after every real one. */
  predicate Sooner(a: Option<int>, b: Option<int>) {
    a.Some? && (b.None? || a.value < b.value)
  }

  predicate Precedes(u: Urgency, a: string, b: string) {
    var x, y := u(a), u(b);
    if x.priority != y.priority then x.priority > y.priority
    else if x.deadline != y.deadline then Sooner(x.deadline, y.deadline)
    else Text.Less(a, b)
  }

  /** Higher priority first, then the earlier deadline, where none is later than any, then the
      name that comes first in the order of code points. */
  ghost predicate MoreUrgent(u: Urgency, a: string, b: string) {
    || u(a).priority > u(b).priority
    || (u(a).priority == u(b).priority
        && (|| (u(a).deadline.Some? && u(b).deadline.None?)
            || (u(a).deadline.Some? && u(b).deadline.Some? && u(a).deadline.value < u(b).deadline.value)
            || (u(a).deadline == u(b).deadline && exists k: nat :: Text.PartsAt(a, b, k))))
  }

  lemma PrecedesIsUrgency(u: Urgency, a: string, b: string)
    ensures Precedes(u, a, b) <==> MoreUrgent(u, a, b)
  {
    Text.LessAtFirstDifference(a, b);
  }

  lemma PrecedesIsTotal(u: Urgency, a: string, b: string)
    ensures a == b || Precedes(u, a, b) || Precedes(u, b, a)
  {
    Text.LessIsTotal(a, b);
  }

  lemma PrecedesIsTransitive(u: Urgency, a: string, b: string, c: string)
    requires Precedes(u, a, b) && Precedes(u, b, c)
    ensures Precedes(u, a, c)
  {
    if u(a) == u(b) == u(c) {
      Text.LessIsTransitive(a, b, c);
    }
  }

  function Insert(u: Urgency, a: string, s: seq<string>): seq<string> {
    if s == [] || Precedes(u, a, s[0]) then [a] + s else [s[0]] + Insert(u, a, s[1..])
  }

  function Ranked(u: Urgency, s: seq<string>): seq<string> {
    if s == [] then [] else Insert(u, s[0], Ranked(u, s[1..]))
  }

  ghost predicate InOrder(u: Urgency, s: seq<string>) {
    forall i, j :: 0 <= i < j < |s| ==> Precedes(u, s[i], s[j])
  }

  lemma {:induction false} InsertInOrder(u: Urgency, a: string, s: seq<string>)
    requires InOrder(u, s) && a !in s
    ensures InOrder(u, Insert(u, a, s)) && |Insert(u, a, s)| == |s| + 1
    ensures forall x :: x in Insert(u, a, s) <==> x == a || x in s
  {
    if s != [] {
      if Precedes(u, a, s[0]) {
        forall i | 1 <= i < |s| ensures Precedes(u, a, s[i]) {
          PrecedesIsTransitive(u, a, s[0], s[i]);
        }
      } else {
        PrecedesIsTotal(u, a, s[0]);
        assert s == [s[0]] + s[1..];
        InsertInOrder(u, a, s[1..]);
        var tail := Insert(u, a, s[1..]);
        assert forall i :: 0 <= i < |tail| ==> tail[i] in tail;
      }
    }
  }

  /** Sorting by urgency keeps the agents and leaves none before a more urgent one. */
  lemma {:induction false} RankedInOrder(u: Urgency, s: seq<string>)
    requires Distinct(s)
    ensures InOrder(u, Ranked(u, s)) && |Ranked(u, s)| == |s|
    ensures forall x :: x in Ranked(u, s) <==> x in s
  {
    if s != [] {
      assert s == [s[0]] + s[1..];
      RankedInOrder(u, s[1..]);
      InsertInOrder(u, s[0], Ranked(u, s[1..]));
    }
  }

  // ----- status changes -----

  function Retag(q: Queue, from: set<Status>, ids: set<string>, to: Status): (r: Queue)
    ensures |r| == |q|
    ensures forall i :: 0 <= i < |q|
                        ==> r[i] == if q[i].status in from && q[i].event.id in ids then Slot(q[i].event, to) else q[i]
  {
    seq(|q|, i requires 0 <= i < |q| =>
      if q[i].status in from && q[i].event.id in ids then Slot(q[i].event, to) else q[i])
  }

  function RetagAll(q: Queue, from: Status, to: Status): (r: Queue)
    ensures |r| == |q|
    ensures forall i :: 0 <= i < |q| ==> r[i] == if q[i].status == from then Slot(q[i].event, to) else q[i]
  {
    seq(|q|, i requires 0 <= i < |q| => if q[i].status == from then Slot(q[i].event, to) else q[i])
  }

  lemma RetagTwice(q: Queue, from: set<Status>, a: set<string>, b: set<string>, to: Status)
    requires to !in from
    ensures Retag(Retag(q, from, a, to), from, b, to) == Retag(q, from, a + b, to)
  {
  }

  function Ids(events: seq<Event>): set<string> {
    set e | e in events :: e.id
  }

  function AllIds(cands: seq<Candidate>): set<string> {
    set c, e | c in cands && e in c.events :: e.id
  }

  // ----- the scheduler as a value -----

  /** `acts` holds the activation records; `active` and `history` refer to them. */
  datatype State = State(
    capacity: nat,
    conditions: map<string, Condition>,
    queue: Queue,
    acts: map<nat, Activation>,
    active: map<string, nat>,
    history: seq<nat>,
    counter: nat,
    overflow: seq<Candidate>)

  datatype Fault = AlreadyActive | NotFound

  function Enqueued(s: State, e: Event): State {
    var visible := if e.visibleAt < 0 then e.(visibleAt := e.tick + 1) else e;
    s.(queue := s.queue + [Slot(visible, Queued)])
  }

  function Candidates(w: World, q: Queue, u: Urgency): (cs: seq<Candidate>)
  {
    var order := Ranked(u, WokenAgents(w, q));
    seq(|order|, i requires 0 <= i < |order| => Candidate(order[i], WakingEvents(w, q, order[i]), w.tick))
  }

  function Marked(q: Queue): Queue {
    RetagAll(q, Queued, Eligible)
  }

  /** Selects up to capacity by urgency and puts the events of the others back. */
  function Computed(s: State, w: World, u: Urgency): (State, seq<Candidate>) {
    var marked := Marked(s.queue);
    var all := Candidates(w, marked, u);
    if |all| <= s.capacity then (s.(queue := marked, overflow := []), all)
    else
      var cut := all[s.capacity..];
      (s.(queue := Retag(marked, {Claimed, Eligible}, AllIds(cut), Queued), overflow := cut), all[..s.capacity])
  }

  function Begun(s: State, c: Candidate, tick: int): Result<State, Fault> {
    if c.agent in s.active then Err(AlreadyActive)
    else
      var n := s.counter + 1;
      Ok(s.(counter := n,
            acts := s.acts[n := Activation(c.agent, c.events, tick, false)],
            queue := Retag(s.queue, {Eligible}, Ids(c.events), Claimed),
            active := s.active[c.agent := n]))
  }

  function Completed(s: State, n: nat, success: bool): Result<State, Fault> {
    if n !in s.active.Values || n !in s.acts then Err(NotFound)
    else
      var a := s.acts[n];
      Ok(s.(acts := s.acts[n := a.(completed := success)],
            queue := Retag(s.queue, {Claimed}, Ids(a.events), if success then Consumed else Eligible),
            history := s.history + [n]))
  }

  function Ended(s: State): State {
    s.(queue := RetagAll(s.queue, Eligible, Expired), active := map[])
  }

  // ----- what a computation selects -----

  lemma {:induction false} WokenMeaning(w: World, q: Queue)
    ensures Distinct(WokenAgents(w, q))
    ensures forall a :: a in WokenAgents(w, q) <==> WakingEvents(w, q, a) != []
  {
    if q != [] {
      WokenMeaning(w, q[..|q| - 1]);
    }
  }

  lemma {:induction false} WakingEventsMeaning(w: World, q: Queue, agent: string, e: Event)
    ensures e in WakingEvents(w, q, agent)
            <==> e.target == agent && agent in w.agents && w.agents[agent] == Active
                 && agent in w.conditions && Matches(w.conditions[agent], e, w.tick)
                 && exists i :: 0 <= i < |q| && q[i] == Slot(e, Eligible)
  {
    if q != [] {
      var front := q[..|q| - 1];
      WakingEventsMeaning(w, front, agent, e);
      assert forall i :: 0 <= i < |front| ==> front[i] == q[i];
    }
  }

  /** The candidates are the agents with waking events, each with all of its events, in
      strict order of urgency. */
  lemma CandidatesMeaning(w: World, q: Queue, u: Urgency)
    ensures var all := Candidates(w, q, u);
            && (forall i, j :: 0 <= i < j < |all| ==> Precedes(u, all[i].agent, all[j].agent))
            && (forall a :: WakingEvents(w, q, a) != [] <==> exists c :: c in all && c.agent == a)
            && (forall c :: c in all ==> c.events == WakingEvents(w, q, c.agent) && c.tick == w.tick)
  {
    var agents := WokenAgents(w, q);
    var order := Ranked(u, agents);
    var all := Candidates(w, q, u);
    WokenMeaning(w, q);
    RankedInOrder(u, agents);
    forall a ensures WakingEvents(w, q, a) != [] <==> exists c :: c in all && c.agent == a {
      if a in order {
        var i :| 0 <= i < |order| && order[i] == a;
        assert all[i] in all && all[i].agent == a;
      }
    }
  }

  /** Every candidate is selected or cut; at most `capacity` are selected, as many as fit,
      and every selected agent precedes every cut one. */
  lemma SelectionIsUrgentPrefix(s: State, w: World, u: Urgency)
    ensures var (next, ready) := Computed(s, w, u);
            && ready + next.overflow == Candidates(w, Marked(s.queue), u)
            && |ready| <= s.capacity
            && (next.overflow != [] ==> |ready| == s.capacity)
            && forall i, j :: 0 <= i < |ready| && 0 <= j < |next.overflow|
                ==> MoreUrgent(u, ready[i].agent, next.overflow[j].agent)
  {
    forall a, b ensures Precedes(u, a, b) <==> MoreUrgent(u, a, b) {
      PrecedesIsUrgency(u, a, b);
    }
    CandidatesMeaning(w, Marked(s.queue), u);
    SelectionSplits(s, w, u);
    FrontPrecedesBack(u, Candidates(w, Marked(s.queue), u), Computed(s, w, u).1, Computed(s, w, u).0.overflow);
  }

  lemma SelectionSplits(s: State, w: World, u: Urgency)
    ensures Computed(s, w, u).1 + Computed(s, w, u).0.overflow == Candidates(w, Marked(s.queue), u)
  {
  }

  lemma FrontPrecedesBack(u: Urgency, all: seq<Candidate>, front: seq<Candidate>, back: seq<Candidate>)
    requires front + back == all
    requires forall i, j :: 0 <= i < j < |all| ==> Precedes(u, all[i].agent, all[j].agent)
    ensures forall i, j :: 0 <= i < |front| && 0 <= j < |back| ==> Precedes(u, front[i].agent, back[j].agent)
  {
    forall i, j | 0 <= i < |front| && 0 <= j < |back| ensures Precedes(u, front[i].agent, back[j].agent) {
      assert front[i] == all[i] && back[j] == all[|front| + j];
    }
  }

  // ----- runs -----

  /** A scheduler and the ready list that the current tick works through. */
  datatype Session = Session(state: State, ready: seq<Candidate>)

  datatype Op =
    | Enqueue(event: Event)
    | SetCondition(agent: string, condition: Condition)
    | Compute(agents: map<string, AgentState>, tick: int, urgency: Urgency)
    | Begin(candidate: Candidate, tick: int)
    | Complete(id: nat, success: bool)
    | EndTick

  function Accepted(s: Session, r: Result<State, Fault>): Session {
    if r.Ok? then s.(state := r.value) else s
  }

  function WorldOf(s: State, agents: map<string, AgentState>, tick: int): World {
    World(s.conditions, agents, tick)
  }

  function Perform(s: Session, op: Op): Session {
    match op
    case Enqueue(e) => s.(state := Enqueued(s.state, e))
    case SetCondition(a, c) => s.(state := s.state.(conditions := s.state.conditions[a := c]))
    case Compute(agents, tick, u) =>
      var (next, ready) := Computed(s.state, WorldOf(s.state, agents, tick), u);
      Session(next, ready)
    case Begin(c, tick) => Accepted(s, Begun(s.state, c, tick))
    case Complete(n, success) => Accepted(s, Completed(s.state, n, success))
    case EndTick => Session(Ended(s.state), [])
  }

  ghost predicate FreshId(q: Queue, id: string) {
    forall i :: 0 <= i < |q| ==> q[i].event.id != id
  }

  /** The activation can be completed: it is of this tick. */
  predicate Completable(s: State, n: nat) {
    n in s.active.Values && n in s.acts
  }

  /** Every event of the candidate is in the queue and neither finished nor put back. */
  ghost predicate Runnable(q: Queue, c: Candidate) {
    Holds(q, c.events, c.agent)
    && forall i :: 0 <= i < |q| && q[i].event.id in Ids(c.events) ==> q[i].status.Eligible? || q[i].status.Claimed?
  }

  /** Event ids are unique, what is begun can be run, and an activation is called a success
      at its first completion or once its events are consumed. */
  ghost predicate Disciplined(s: Session, op: Op) {
    match op
    case Enqueue(e) => FreshId(s.state.queue, e.id)
    case Begin(c, _) => c.agent in s.state.active || Runnable(s.state.queue, c)
    case Complete(n, success) => success && Completable(s.state, n) ==> MaySucceed(s.state, n)
    case _ => true
  }

  ghost predicate MaySucceed(s: State, n: nat)
    requires n in s.acts
  {
    n !in s.history || AllHave(s.queue, s.acts[n].events, Consumed)
  }

  ghost predicate UniqueIds(q: Queue) {
    forall i, j :: 0 <= i < j < |q| ==> q[i].event.id != q[j].event.id
  }

  ghost predicate InQueue(q: Queue, e: Event) {
    exists i :: 0 <= i < |q| && q[i].event == e
  }

  ghost predicate Holds(q: Queue, events: seq<Event>, agent: string) {
    forall e :: e in events ==> e.target == agent && InQueue(q, e)
  }

  ghost predicate AllHave(q: Queue, events: seq<Event>, st: Status) {
    forall i :: 0 <= i < |q| && q[i].event.id in Ids(events) ==> q[i].status == st
  }

  ghost predicate WellFormed(s: Session) {
    && UniqueIds(s.state.queue)
    && (forall n :: n in s.state.acts
                    ==> n <= s.state.counter && Holds(s.state.queue, s.state.acts[n].events, s.state.acts[n].agent))
    && (forall a :: a in s.state.active
                    ==> s.state.active[a] in s.state.acts && s.state.acts[s.state.active[a]].agent == a)
    && (forall c :: c in s.ready ==> Holds(s.state.queue, c.events, c.agent))
    && (forall i, j :: 0 <= i < j < |s.ready| ==> s.ready[i].agent != s.ready[j].agent)
    && (forall n :: n in s.state.history ==> n in s.state.acts)
  }

  /** Waiting candidates hold eligible events, running activations claimed ones,
      successful activations consumed ones. */
  ghost predicate Tagged(s: Session) {
    && (forall c :: c in s.ready && c.agent !in s.state.active ==> AllHave(s.state.queue, c.events, Eligible))
    && (forall a :: a in s.state.active && s.state.active[a] in s.state.acts && s.state.active[a] !in s.state.history
                    ==> AllHave(s.state.queue, s.state.acts[s.state.active[a]].events, Claimed))
    && (forall n :: n in s.state.acts && s.state.acts[n].completed
                    ==> n in s.state.history && AllHave(s.state.queue, s.state.acts[n].events, Consumed))
  }

  /** No event is in two successful activations. */
  ghost predicate Exclusive(s: State) {
    forall n, m :: n in s.acts && m in s.acts && n != m && s.acts[n].completed && s.acts[m].completed
                   ==> Ids(s.acts[n].events) !! Ids(s.acts[m].events)
  }

  ghost predicate NoneClaimed(q: Queue, events: seq<Event>) {
    forall i :: 0 <= i < |q| && q[i].event.id in Ids(events) ==> !q[i].status.Claimed?
  }

  /** A completed activation holds no claim, and no activation of this tick shares an event
      with a successful one. */
  ghost predicate Rested(s: State) {
    && (forall a :: a in s.active && s.active[a] in s.acts && s.active[a] in s.history
                    ==> NoneClaimed(s.queue, s.acts[s.active[a]].events))
    && (forall a, m :: a in s.active && s.active[a] in s.acts && m in s.acts && s.acts[m].completed && m != s.active[a]
                       ==> Ids(s.acts[s.active[a]].events) !! Ids(s.acts[m].events))
  }

  ghost predicate Inv(s: Session) {
    WellFormed(s) && Tagged(s) && Rested(s.state) && Exclusive(s.state)
  }

  // ----- moving facts along a status change -----

  /** `r` is `q` with other statuses, and possibly new slots. */
  ghost predicate Extends(q: Queue, r: Queue) {
    |q| <= |r| && UniqueIds(r) && forall i :: 0 <= i < |q| ==> r[i].event == q[i].event
  }

  lemma HoldsStays(q: Queue, r: Queue, events: seq<Event>, agent: string)
    requires Extends(q, r) && Holds(q, events, agent)
    ensures Holds(r, events, agent)
  {
    forall e | e in events ensures InQueue(r, e) {
      var i :| 0 <= i < |q| && q[i].event == e;
      assert r[i].event == e;
    }
  }

  lemma AllHaveStays(q: Queue, r: Queue, events: seq<Event>, agent: string, st: Status)
    requires Extends(q, r) && Holds(q, events, agent) && AllHave(q, events, st)
    requires forall i :: 0 <= i < |q| && q[i].status == st && q[i].event.id in Ids(events) ==> r[i].status == st
    ensures AllHave(r, events, st)
  {
    forall j | 0 <= j < |r| && r[j].event.id in Ids(events) ensures r[j].status == st {
      var e :| e in events && e.id == r[j].event.id;
      var i :| 0 <= i < |q| && q[i].event == e;
      assert r[i].event == e;
      assert i == j;
    }
  }

  lemma NoneClaimedStays(q: Queue, r: Queue, events: seq<Event>, agent: string)
    requires Extends(q, r) && Holds(q, events, agent) && NoneClaimed(q, events)
    requires forall i :: 0 <= i < |q| && !q[i].status.Claimed? && q[i].event.id in Ids(events) ==> !r[i].status.Claimed?
    ensures NoneClaimed(r, events)
  {
    forall j | 0 <= j < |r| && r[j].event.id in Ids(events) ensures !r[j].status.Claimed? {
      var e :| e in events && e.id == r[j].event.id;
      var i :| 0 <= i < |q| && q[i].event == e;
      assert r[i].event == e;
      assert i == j;
    }
  }

  /** Events of different agents have different ids. */
  lemma OtherAgentsEvents(q: Queue, a: seq<Event>, b: seq<Event>, x: string, y: string)
    requires UniqueIds(q) && Holds(q, a, x) && Holds(q, b, y) && x != y
    ensures Ids(a) !! Ids(b)
  {
    forall e, f | e in a && f in b ensures e.id != f.id {
      var i :| 0 <= i < |q| && q[i].event == e;
      var j :| 0 <= j < |q| && q[j].event == f;
    }
  }

  /** Events that are not consumed are in no successful activation. */
  lemma OpenExcludesConsumed(q: Queue, a: seq<Event>, b: seq<Event>, agent: string)
    requires Holds(q, a, agent) && AllHave(q, b, Consumed)
    requires forall i :: 0 <= i < |q| && q[i].event.id in Ids(a) ==> !q[i].status.Consumed?
    ensures Ids(a) !! Ids(b)
  {
    forall id | id in Ids(a) ensures id !in Ids(b) {
      var e :| e in a && e.id == id;
      var i :| 0 <= i < |q| && q[i].event == e;
      assert q[i].event.id in Ids(a);
    }
  }

  /** A change that claims nothing new leaves what rested at rest. */
  lemma RestStays(s: Session, q: Queue)
    requires WellFormed(s) && Rested(s.state) && Extends(s.state.queue, q)
    requires forall i :: 0 <= i < |s.state.queue| && !s.state.queue[i].status.Claimed? ==> !q[i].status.Claimed?
    ensures Rested(s.state.(queue := q))
  {
    forall a | a in s.state.active && s.state.active[a] in s.state.history
      ensures NoneClaimed(q, s.state.acts[s.state.active[a]].events)
    {
      NoneClaimedStays(s.state.queue, q, s.state.acts[s.state.active[a]].events, a);
    }
  }

  /** A change of statuses alone keeps the records well formed. */
  lemma RetaggedWellFormed(s: Session, q: Queue)
    requires WellFormed(s) && Extends(s.state.queue, q)
    ensures WellFormed(s.(state := s.state.(queue := q)))
  {
    forall n | n in s.state.acts ensures Holds(q, s.state.acts[n].events, s.state.acts[n].agent) {
      HoldsStays(s.state.queue, q, s.state.acts[n].events, s.state.acts[n].agent);
    }
    forall c | c in s.ready ensures Holds(q, c.events, c.agent) {
      HoldsStays(s.state.queue, q, c.events, c.agent);
    }
  }

  /** Consumed events stay consumed, so successful activations keep theirs. */
  lemma SuccessStays(s: Session, q: Queue)
    requires WellFormed(s) && Tagged(s) && Extends(s.state.queue, q)
    requires forall i :: 0 <= i < |s.state.queue| && s.state.queue[i].status.Consumed? ==> q[i].status.Consumed?
    ensures forall n :: n in s.state.acts && s.state.acts[n].completed ==> AllHave(q, s.state.acts[n].events, Consumed)
  {
    forall n | n in s.state.acts && s.state.acts[n].completed ensures AllHave(q, s.state.acts[n].events, Consumed) {
      AllHaveStays(s.state.queue, q, s.state.acts[n].events, s.state.acts[n].agent, Consumed);
    }
  }

  lemma RunningStays(s: Session, q: Queue)
    requires WellFormed(s) && Tagged(s) && Extends(s.state.queue, q)
    requires forall i :: 0 <= i < |s.state.queue| && s.state.queue[i].status.Claimed? ==> q[i].status.Claimed?
    ensures forall a :: a in s.state.active && s.state.active[a] !in s.state.history
                        ==> AllHave(q, s.state.acts[s.state.active[a]].events, Claimed)
  {
    forall a | a in s.state.active && s.state.active[a] !in s.state.history
      ensures AllHave(q, s.state.acts[s.state.active[a]].events, Claimed)
    {
      AllHaveStays(s.state.queue, q, s.state.acts[s.state.active[a]].events, a, Claimed);
    }
  }

  lemma WaitingStays(s: Session, q: Queue)
    requires WellFormed(s) && Tagged(s) && Extends(s.state.queue, q)
    requires forall i :: 0 <= i < |s.state.queue| && s.state.queue[i].status.Eligible? ==> q[i].status.Eligible?
    ensures forall c :: c in s.ready && c.agent !in s.state.active ==> AllHave(q, c.events, Eligible)
  {
    forall c | c in s.ready && c.agent !in s.state.active ensures AllHave(q, c.events, Eligible) {
      AllHaveStays(s.state.queue, q, c.events, c.agent, Eligible);
    }
  }

  // ----- every step keeps the invariant -----

  lemma EnqueueKeepsInv(s: Session, e: Event)
    requires Inv(s) && FreshId(s.state.queue, e.id)
    ensures Inv(Perform(s, Enqueue(e)))
  {
    var q := Enqueued(s.state, e).queue;
    assert Extends(s.state.queue, q);
    RetaggedWellFormed(s, q);
    SuccessStays(s, q);
    RunningStays(s, q);
    WaitingStays(s, q);
    RestStays(s, q);
  }

  lemma EndTickKeepsInv(s: Session)
    requires Inv(s)
    ensures Inv(Perform(s, EndTick))
  {
    var q := RetagAll(s.state.queue, Eligible, Expired);
    assert Extends(s.state.queue, q);
    RetaggedWellFormed(s, q);
    SuccessStays(s, q);
  }

  /** Beginning one candidate leaves the events of the other waiting ones eligible. */
  lemma OthersStillWait(s: Session, c: Candidate, q: Queue)
    requires Inv(s) && Holds(s.state.queue, c.events, c.agent)
    requires q == Retag(s.state.queue, {Eligible}, Ids(c.events), Claimed)
    ensures forall d :: d in s.ready && d.agent !in s.state.active && d.agent != c.agent
                        ==> AllHave(q, d.events, Eligible)
  {
    forall d | d in s.ready && d.agent !in s.state.active && d.agent != c.agent ensures AllHave(q, d.events, Eligible) {
      OtherAgentsEvents(s.state.queue, c.events, d.events, c.agent, d.agent);
      AllHaveStays(s.state.queue, q, d.events, d.agent, Eligible);
    }
  }

  lemma BeginWellFormed(s: Session, c: Candidate, tick: int)
    requires WellFormed(s) && Runnable(s.state.queue, c) && c.agent !in s.state.active
    ensures WellFormed(s.(state := Begun(s.state, c, tick).value))
  {
    var q := Retag(s.state.queue, {Eligible}, Ids(c.events), Claimed);
    RetaggedWellFormed(s, q);
    HoldsStays(s.state.queue, q, c.events, c.agent);
  }

  lemma BeginTagged(s: Session, c: Candidate, tick: int)
    requires Inv(s) && Runnable(s.state.queue, c) && c.agent !in s.state.active
    ensures Tagged(s.(state := Begun(s.state, c, tick).value))
  {
    var q := Retag(s.state.queue, {Eligible}, Ids(c.events), Claimed);
    SuccessStays(s, q);
    RunningStays(s, q);
    OthersStillWait(s, c, q);
    assert AllHave(q, c.events, Claimed);
  }

  /** The new activation claims only its own agent's events, and none that succeeded. */
  lemma BeginRested(s: Session, c: Candidate, tick: int)
    requires Inv(s) && Runnable(s.state.queue, c) && c.agent !in s.state.active
    ensures Rested(Begun(s.state, c, tick).value)
  {
    var q := Retag(s.state.queue, {Eligible}, Ids(c.events), Claimed);
    forall a | a in s.state.active && s.state.active[a] in s.state.history
      ensures NoneClaimed(q, s.state.acts[s.state.active[a]].events)
    {
      OtherAgentsEvents(s.state.queue, c.events, s.state.acts[s.state.active[a]].events, c.agent, a);
      NoneClaimedStays(s.state.queue, q, s.state.acts[s.state.active[a]].events, a);
    }
    forall m | m in s.state.acts && s.state.acts[m].completed ensures Ids(c.events) !! Ids(s.state.acts[m].events) {
      OpenExcludesConsumed(s.state.queue, c.events, s.state.acts[m].events, c.agent);
    }
  }

  lemma BeginExclusive(s: Session, c: Candidate, tick: int)
    requires Exclusive(s.state) && c.agent !in s.state.active
    ensures Exclusive(Begun(s.state, c, tick).value)
  {
    var next := Begun(s.state, c, tick).value;
    assert forall n :: n in next.acts && next.acts[n].completed
                       ==> n in s.state.acts && next.acts[n] == s.state.acts[n];
  }

  lemma BeginKeepsInv(s: Session, c: Candidate, tick: int)
    requires Inv(s) && (c.agent in s.state.active || Runnable(s.state.queue, c))
    ensures Inv(Perform(s, Begin(c, tick)))
  {
    if c.agent !in s.state.active {
      BeginWellFormed(s, c, tick);
      BeginTagged(s, c, tick);
      BeginRested(s, c, tick);
      BeginExclusive(s, c, tick);
    }
  }

  /** What the tick's ready list still offers can be begun. */
  lemma ReadyIsRunnable(s: Session, c: Candidate)
    requires Inv(s) && c in s.ready && c.agent !in s.state.active
    ensures Runnable(s.state.queue, c)
  {
  }

  lemma ActiveByAgent(s: Session, n: nat)
    requires WellFormed(s) && Completable(s.state, n)
    ensures s.state.acts[n].agent in s.state.active && s.state.active[s.state.acts[n].agent] == n
  {
    var a :| a in s.state.active && s.state.active[a] == n;
  }

  /** The activations of one tick have different agents, hence different events. */
  lemma OtherActivations(s: Session, n: nat, a: string)
    requires WellFormed(s) && Completable(s.state, n) && a in s.state.active && s.state.active[a] != n
    ensures Ids(s.state.acts[n].events) !! Ids(s.state.acts[s.state.active[a]].events)
  {
    ActiveByAgent(s, n);
    OtherAgentsEvents(s.state.queue, s.state.acts[n].events, s.state.acts[s.state.active[a]].events,
        s.state.acts[n].agent, a);
  }

  lemma OthersStillRun(s: Session, n: nat, q: Queue, to: Status)
    requires Inv(s) && Completable(s.state, n)
    requires q == Retag(s.state.queue, {Claimed}, Ids(s.state.acts[n].events), to)
    ensures forall a :: a in s.state.active && s.state.active[a] !in s.state.history && s.state.active[a] != n
                        ==> AllHave(q, s.state.acts[s.state.active[a]].events, Claimed)
  {
    forall a | a in s.state.active && s.state.active[a] !in s.state.history && s.state.active[a] != n
      ensures AllHave(q, s.state.acts[s.state.active[a]].events, Claimed)
    {
      OtherActivations(s, n, a);
      AllHaveStays(s.state.queue, q, s.state.acts[s.state.active[a]].events, a, Claimed);
    }
  }

  lemma CompleteWellFormed(s: Session, n: nat, success: bool)
    requires WellFormed(s) && Completable(s.state, n)
    ensures WellFormed(s.(state := Completed(s.state, n, success).value))
  {
    var to := if success then Consumed else Eligible;
    RetaggedWellFormed(s, Retag(s.state.queue, {Claimed}, Ids(s.state.acts[n].events), to));
  }

  /** What a success leaves of its events: all consumed. */
  lemma SuccessConsumes(s: Session, n: nat)
    requires Inv(s) && Completable(s.state, n) && MaySucceed(s.state, n)
    ensures AllHave(Retag(s.state.queue, {Claimed}, Ids(s.state.acts[n].events), Consumed), s.state.acts[n].events,
            Consumed)
  {
    ActiveByAgent(s, n);
  }

  lemma CompleteTagged(s: Session, n: nat, success: bool)
    requires Inv(s) && Completable(s.state, n) && (success ==> MaySucceed(s.state, n))
    ensures Tagged(s.(state := Completed(s.state, n, success).value))
  {
    var to := if success then Consumed else Eligible;
    var q := Retag(s.state.queue, {Claimed}, Ids(s.state.acts[n].events), to);
    SuccessStays(s, q);
    WaitingStays(s, q);
    OthersStillRun(s, n, q, to);
    if success {
      SuccessConsumes(s, n);
    }
  }

  lemma CompleteRested(s: Session, n: nat, success: bool)
    requires Inv(s) && Completable(s.state, n)
    ensures Rested(Completed(s.state, n, success).value)
  {
    var to := if success then Consumed else Eligible;
    var q := Retag(s.state.queue, {Claimed}, Ids(s.state.acts[n].events), to);
    RestStays(s, q);
    forall a | a in s.state.active && s.state.active[a] != n
      ensures Ids(s.state.acts[s.state.active[a]].events) !! Ids(s.state.acts[n].events)
    {
      OtherActivations(s, n, a);
    }
  }

  /** A completion that succeeds shares no event with an earlier success. */
  lemma CompletionIsExclusive(s: Session, n: nat, success: bool)
    requires Inv(s) && Completable(s.state, n)
    ensures Exclusive(Completed(s.state, n, success).value)
  {
    ActiveByAgent(s, n);
  }

  lemma CompleteKeepsInv(s: Session, n: nat, success: bool)
    requires Inv(s) && (success && Completable(s.state, n) ==> MaySucceed(s.state, n))
    ensures Inv(Perform(s, Complete(n, success)))
  {
    if Completable(s.state, n) {
      CompleteWellFormed(s, n, success);
      CompleteTagged(s, n, success);
      CompleteRested(s, n, success);
      CompletionIsExclusive(s, n, success);
    }
  }

  /** A success claimed for events that are not consumed leaves the books wrong. */
  lemma UnearnedSuccess(s: Session, n: nat, i: nat)
    requires Inv(s) && Completable(s.state, n) && n in s.state.history && i < |s.state.queue|
    requires s.state.queue[i].event.id in Ids(s.state.acts[n].events) && s.state.queue[i].status != Consumed
    ensures !Tagged(s.(state := Completed(s.state, n, true).value))
  {
    ActiveByAgent(s, n);
    var next := Completed(s.state, n, true).value;
    assert next.queue[i] == s.state.queue[i] && next.acts[n].events == s.state.acts[n].events;
    assert !AllHave(next.queue, next.acts[n].events, Consumed);
  }

  /** The guard is exact: calling an activation a success keeps the bookkeeping true exactly
      when it is its first completion or its events are consumed already. */
  lemma SuccessIsHarmlessIff(s: Session, n: nat)
    requires Inv(s) && Completable(s.state, n)
    ensures Inv(s.(state := Completed(s.state, n, true).value)) <==> MaySucceed(s.state, n)
  {
    if MaySucceed(s.state, n) {
      CompleteWellFormed(s, n, true);
      CompleteTagged(s, n, true);
      CompleteRested(s, n, true);
      CompletionIsExclusive(s, n, true);
    } else {
      var i :| 0 <= i < |s.state.queue| && s.state.queue[i].event.id in Ids(s.state.acts[n].events)
               && s.state.queue[i].status != Consumed;
      UnearnedSuccess(s, n, i);
    }
  }

  /** A candidate's events are eligible slots of its agent. */
  lemma CandidateHolds(w: World, q: Queue, agent: string)
    requires UniqueIds(q)
    ensures Holds(q, WakingEvents(w, q, agent), agent)
    ensures AllHave(q, WakingEvents(w, q, agent), Eligible)
  {
    var events := WakingEvents(w, q, agent);
    forall e | e in events ensures e.target == agent && InQueue(q, e) {
      WakingEventsMeaning(w, q, agent, e);
    }
    forall j | 0 <= j < |q| && q[j].event.id in Ids(events) ensures q[j].status == Eligible {
      var e :| e in events && e.id == q[j].event.id;
      WakingEventsMeaning(w, q, agent, e);
    }
  }

  lemma CandidatesDiffer(w: World, q: Queue, u: Urgency, i: nat, j: nat)
    requires i < j < |Candidates(w, q, u)|
    ensures Candidates(w, q, u)[i].agent != Candidates(w, q, u)[j].agent
  {
    WokenMeaning(w, q);
    RankedInOrder(u, WokenAgents(w, q));
    var order := Ranked(u, WokenAgents(w, q));
    assert Precedes(u, order[i], order[j]);
    Text.LessIsIrreflexive(order[i]);
  }

  /** Putting the cut candidates back touches no running event and no selected one. */
  lemma CutSparesOthers(w: World, q: Queue, u: Urgency, n: nat, r: Queue)
    requires UniqueIds(q) && n <= |Candidates(w, q, u)|
    requires r == Retag(q, {Claimed, Eligible}, AllIds(Candidates(w, q, u)[n..]), Queued)
    ensures forall i :: 0 <= i < |q| && !q[i].status.Eligible? ==> r[i] == q[i]
    ensures forall c :: c in Candidates(w, q, u)[..n] ==> AllHave(r, c.events, Eligible)
  {
    var all := Candidates(w, q, u);
    forall i | 0 <= i < |q| && !q[i].status.Eligible? ensures r[i] == q[i] {
      forall c | c in all[n..] ensures q[i].event.id !in Ids(c.events) {
        CandidateHolds(w, q, c.agent);
      }
      assert q[i].event.id !in AllIds(all[n..]);
    }
    forall c | c in all[..n] ensures AllHave(r, c.events, Eligible) {
      var k :| 0 <= k < n && all[k] == c;
      CandidateHolds(w, q, c.agent);
      forall m | n <= m < |all| ensures Ids(c.events) !! Ids(all[m].events) {
        CandidatesDiffer(w, q, u, k, m);
        CandidateHolds(w, q, all[m].agent);
        OtherAgentsEvents(q, c.events, all[m].events, c.agent, all[m].agent);
      }
      forall i | 0 <= i < |q| && q[i].event.id in Ids(c.events) ensures q[i].event.id !in AllIds(all[n..]) {
      }
    }
  }

  lemma MarkedKeeps(s: Session)
    requires Inv(s)
    ensures var t := s.(state := s.state.(queue := Marked(s.state.queue)), ready := []);
            WellFormed(t) && Tagged(t) && Rested(t.state)
  {
    var q := Marked(s.state.queue);
    RetaggedWellFormed(s, q);
    SuccessStays(s, q);
    RunningStays(s, q);
    RestStays(s, q);
  }

  lemma ReadyIsWellFormed(w: World, q: Queue, u: Urgency, ready: seq<Candidate>, r: Queue)
    requires UniqueIds(q) && Extends(q, r) && ready <= Candidates(w, q, u)
    ensures forall c :: c in ready ==> Holds(r, c.events, c.agent)
    ensures forall i, j :: 0 <= i < j < |ready| ==> ready[i].agent != ready[j].agent
  {
    forall c | c in ready ensures Holds(r, c.events, c.agent) {
      CandidateHolds(w, q, c.agent);
      HoldsStays(q, r, c.events, c.agent);
    }
    forall i, j | 0 <= i < j < |ready| ensures ready[i].agent != ready[j].agent {
      CandidatesDiffer(w, q, u, i, j);
    }
  }

  /** Putting cut candidates back in a marked queue, with the rest as the ready list. */
  lemma SelectionKeepsInv(t: Session, w: World, u: Urgency, n: nat, r: Queue)
    requires WellFormed(t) && Tagged(t) && Rested(t.state) && t.ready == [] && n <= |Candidates(w, t.state.queue, u)|
    requires r == Retag(t.state.queue, {Claimed, Eligible}, AllIds(Candidates(w, t.state.queue, u)[n..]), Queued)
    ensures WellFormed(t.(state := t.state.(queue := r), ready := Candidates(w, t.state.queue, u)[..n]))
    ensures Tagged(t.(state := t.state.(queue := r), ready := Candidates(w, t.state.queue, u)[..n]))
    ensures Rested(t.state.(queue := r))
  {
    var q := t.state.queue;
    CutSparesOthers(w, q, u, n, r);
    RestStays(t, r);
    RetaggedWellFormed(t, r);
    SuccessStays(t, r);
    RunningStays(t, r);
    ReadyIsWellFormed(w, q, u, Candidates(w, q, u)[..n], r);
  }

  lemma ComputeKeepsInv(s: Session, w: World, u: Urgency)
    requires Inv(s)
    ensures var (next, ready) := Computed(s.state, w, u); Inv(Session(next, ready))
  {
    var q := Marked(s.state.queue);
    var all := Candidates(w, q, u);
    var n := if |all| <= s.state.capacity then |all| else s.state.capacity;
    var r := Retag(q, {Claimed, Eligible}, AllIds(all[n..]), Queued);
    MarkedKeeps(s);
    SelectionKeepsInv(s.(state := s.state.(queue := q), ready := []), w, u, n, r);
    if n == |all| {
      assert all[n..] == [] && all[..n] == all;
      assert r == q;
    }
  }

  lemma PerformKeepsInv(s: Session, op: Op)
    requires Inv(s) && Disciplined(s, op)
    ensures Inv(Perform(s, op))
  {
    match op
    case Enqueue(e) => EnqueueKeepsInv(s, e);
    case SetCondition(_, _) =>
    case Compute(agents, tick, u) => ComputeKeepsInv(s, WorldOf(s.state, agents, tick), u);
    case Begin(c, tick) => BeginKeepsInv(s, c, tick);
    case Complete(n, success) => CompleteKeepsInv(s, n, success);
    case EndTick => EndTickKeepsInv(s);
  }

  function Opened(capacity: nat, conditions: map<string, Condition>): Session {
    Session(State(capacity, conditions, [], map[], map[], [], 0, []), [])
  }

  function RunAll(s: Session, ops: seq<Op>): Session {
    if ops == [] then s else Perform(RunAll(s, ops[..|ops| - 1]), ops[|ops| - 1])
  }

  ghost predicate AllDisciplined(s: Session, ops: seq<Op>) {
    ops == [] || (AllDisciplined(s, ops[..|ops| - 1]) && Disciplined(RunAll(s, ops[..|ops| - 1]), ops[|ops| - 1]))
  }

  /** Over every run, an event is part of at most one successful activation. */
  lemma {:induction false} EveryRunIsExclusive(capacity: nat, conditions: map<string, Condition>, ops: seq<Op>)
    requires AllDisciplined(Opened(capacity, conditions), ops)
    ensures Inv(RunAll(Opened(capacity, conditions), ops))
    ensures Exclusive(RunAll(Opened(capacity, conditions), ops).state)
  {
    if ops != [] {
      EveryRunIsExclusive(capacity, conditions, ops[..|ops| - 1]);
      PerformKeepsInv(RunAll(Opened(capacity, conditions), ops[..|ops| - 1]), ops[|ops| - 1]);
    }
  }

  // ----- candidates from anywhere -----

  /** Every consumed event belongs to a successful activation. */
  ghost predicate Recorded(s: State) {
    forall i :: 0 <= i < |s.queue| && s.queue[i].status.Consumed? ==> Succeeded(s, s.queue[i].event.id)
  }

  ghost predicate Succeeded(s: State, id: string) {
    exists n :: n in s.acts && s.acts[n].completed && id in Ids(s.acts[n].events)
  }

  /** Successes on record stay on record. */
  ghost predicate Keeps(s: State, next: State) {
    forall n :: n in s.acts && s.acts[n].completed
                ==> n in next.acts && next.acts[n].completed && next.acts[n].events == s.acts[n].events
  }

  lemma SucceededStays(s: State, next: State, id: string)
    requires Keeps(s, next) && Succeeded(s, id)
    ensures Succeeded(next, id)
  {
    var n :| n in s.acts && s.acts[n].completed && id in Ids(s.acts[n].events);
    assert next.acts[n].completed && id in Ids(next.acts[n].events);
  }

  lemma ConsumedWasConsumed(s: Session, op: Op, i: nat)
    requires !op.Complete? && i < |Perform(s, op).state.queue| && Perform(s, op).state.queue[i].status.Consumed?
    ensures i < |s.state.queue| && s.state.queue[i] == Perform(s, op).state.queue[i]
  {
  }

  lemma OtherStepsKeepSuccesses(s: Session, op: Op)
    requires Inv(s) && !op.Complete?
    ensures Keeps(s.state, Perform(s, op).state)
  {
  }

  lemma CompleteKeepsRecorded(s: State, n: nat, success: bool)
    requires Recorded(s) && Completable(s, n) && (s.acts[n].completed ==> success)
    ensures Recorded(Completed(s, n, success).value)
  {
    var next := Completed(s, n, success).value;
    forall i | 0 <= i < |next.queue| && next.queue[i].status.Consumed? ensures Succeeded(next, next.queue[i].event.id) {
      if s.queue[i].status.Consumed? {
        SucceededStays(s, next, s.queue[i].event.id);
      } else {
        assert next.acts[n].completed && next.queue[i].event.id in Ids(next.acts[n].events);
      }
    }
  }

  /** No step but one loses the record of a success: declaring it a failure afterwards. */
  lemma PerformKeepsRecorded(s: Session, op: Op)
    requires Inv(s) && Recorded(s.state)
    requires !(op.Complete? && !op.success && op.id in s.state.acts && s.state.acts[op.id].completed)
    ensures Recorded(Perform(s, op).state)
  {
    if op.Complete? {
      if Completable(s.state, op.id) {
        CompleteKeepsRecorded(s.state, op.id, op.success);
      }
    } else {
      var next := Perform(s, op).state;
      OtherStepsKeepSuccesses(s, op);
      forall i | 0 <= i < |next.queue| && next.queue[i].status.Consumed?
             ensures Succeeded(next, next.queue[i].event.id) {
        ConsumedWasConsumed(s, op, i);
        SucceededStays(s.state, next, next.queue[i].event.id);
      }
    }
  }

  lemma RunOfCandidate(s: State, c: Candidate, tick: int)
    requires c.agent !in s.active && forall n :: n in s.acts ==> n <= s.counter
    ensures var begun := Begun(s, c, tick).value;
            var last := Completed(begun, begun.counter, true);
            last.Ok? && last.value.acts == s.acts[begun.counter := Activation(c.agent, c.events, tick, true)]
  {
    var begun := Begun(s, c, tick).value;
    assert begun.active[c.agent] == begun.counter && begun.counter in begun.active.Values;
  }

  /** `begin_activation` does not look at the status of the events it is handed.  Running
      a candidate to success keeps events exclusive exactly when none of its events is
      consumed. */
  lemma RunningCandidateIsExclusiveIff(s: Session, c: Candidate, tick: int)
    requires Inv(s) && Recorded(s.state) && c.agent !in s.state.active && Holds(s.state.queue, c.events, c.agent)
    ensures var begun := Begun(s.state, c, tick).value;
            Completed(begun, begun.counter, true).Ok?
            && (Exclusive(Completed(begun, begun.counter, true).value) <==>
                forall i :: 0 <= i < |s.state.queue| && s.state.queue[i].event.id in Ids(c.events)
                            ==> !s.state.queue[i].status.Consumed?)
  {
    var k := s.state.counter + 1;
    var begun := Begun(s.state, c, tick).value;
    RunOfCandidate(s.state, c, tick);
    var last := Completed(begun, k, true).value;
    if i :| 0 <= i < |s.state.queue| && s.state.queue[i].event.id in Ids(c.events) && IsConsumed(s.state.queue[i]) {
      ConsumedCandidateRepeats(s, c, last, k, i);
    } else {
      FreshCandidateIsApart(s, c, last, k);
    }
  }

  predicate IsConsumed(slot: Slot) {
    slot.status.Consumed?
  }

  lemma ConsumedCandidateRepeats(s: Session, c: Candidate, last: State, k: nat, i: nat)
    requires Inv(s) && Recorded(s.state) && k == s.state.counter + 1
    requires k in last.acts && last.acts[k].completed && last.acts[k].events == c.events
    requires forall n :: n in s.state.acts ==> n in last.acts && last.acts[n] == s.state.acts[n]
    requires i < |s.state.queue| && s.state.queue[i].event.id in Ids(c.events) && s.state.queue[i].status.Consumed?
    ensures !Exclusive(last)
  {
    var id := s.state.queue[i].event.id;
    assert Succeeded(s.state, id);
    var n :| n in s.state.acts && s.state.acts[n].completed && id in Ids(s.state.acts[n].events);
    assert n != k && id in Ids(last.acts[n].events) && id in Ids(last.acts[k].events);
  }

  lemma FreshCandidateIsApart(s: Session, c: Candidate, last: State, k: nat)
    requires Inv(s) && Holds(s.state.queue, c.events, c.agent)
    requires k in last.acts && last.acts[k].events == c.events
    requires forall n :: n in last.acts && n != k ==> n in s.state.acts && last.acts[n] == s.state.acts[n]
    requires forall i :: 0 <= i < |s.state.queue| && s.state.queue[i].event.id in Ids(c.events)
                         ==> !s.state.queue[i].status.Consumed?
    ensures Exclusive(last)
  {
    forall m | m in s.state.acts && s.state.acts[m].completed ensures Ids(c.events) !! Ids(s.state.acts[m].events) {
      OpenExcludesConsumed(s.state.queue, c.events, s.state.acts[m].events, c.agent);
    }
  }

  // ----- a run that breaks the rule of successes -----

  lemma {:induction false} FirstSlotWakes(w: World, q: Queue, e: Event)
    requires q != [] && q[0] == Slot(e, Eligible) && Wakes(w, q[0])
    requires forall i :: 0 < i < |q| ==> !Wakes(w, q[i])
    ensures WokenAgents(w, q) == [e.target] && WakingEvents(w, q, e.target) == [e]
  {
    var front := q[..|q| - 1];
    if |q| == 1 {
      assert front == [];
      assert WokenAgents(w, front) == [] && WakingEvents(w, front, e.target) == [];
    } else {
      FirstSlotWakes(w, front, e);
    }
  }

  lemma LoneCandidate(w: World, q: Queue, u: Urgency, e: Event)
    requires q != [] && q[0] == Slot(e, Eligible) && Wakes(w, q[0])
    requires forall i :: 0 < i < |q| ==> !Wakes(w, q[i])
    ensures Candidates(w, q, u) == [Candidate(e.target, [e], w.tick)]
  {
    FirstSlotWakes(w, q, e);
    assert [e.target][1..] == [] && Ranked(u, []) == [];
    assert Ranked(u, [e.target]) == [e.target];
  }

  lemma PairRanked(u: Urgency, a: string, b: string)
    requires Precedes(u, a, b)
    ensures Ranked(u, [b, a]) == [a, b]
  {
    if Precedes(u, b, a) {
      PrecedesIsTransitive(u, b, a, b);
      Text.LessIsIrreflexive(b);
    }
    assert [b, a][1..] == [a] && [a][1..] == [] && Ranked(u, []) == [];
    assert Ranked(u, [a]) == [a];
    assert Insert(u, b, []) == [b];
  }

  lemma TwoCandidates(w: World, q: Queue, u: Urgency, e: Event, f: Event)
    requires q == [Slot(e, Eligible), Slot(f, Eligible)] && Wakes(w, q[0]) && Wakes(w, q[1])
    requires e.target != f.target && Precedes(u, f.target, e.target)
    ensures Candidates(w, q, u) == [Candidate(f.target, [f], w.tick), Candidate(e.target, [e], w.tick)]
  {
    var front := q[..1];
    FirstSlotWakes(w, front, e);
    assert WakingEvents(w, [], f.target) == [] && front[..0] == [];
    assert WakingEvents(w, front, f.target) == [];
    assert WakingEvents(w, q, f.target) == [f] && WakingEvents(w, q, e.target) == [e];
    assert WokenAgents(w, q) == [e.target, f.target];
    PairRanked(u, f.target, e.target);
  }

  /** A scheduler with two wakeable agents, room for one, and nothing done yet. */
  ghost predicate Stage(s: State, w: World, u: Urgency, e: Event, f: Event) {
    && s.capacity == 1 && s.queue == [] && s.acts == map[] && s.active == map[] && s.history == [] && s.counter == 0
    && w.conditions == s.conditions && Wakes(w, Slot(e, Eligible)) && Wakes(w, Slot(f, Eligible))
    && e.visibleAt >= 0 && f.visibleAt >= 0 && e.id != f.id
    && e.target != f.target && Precedes(u, f.target, e.target)
  }

  /** The agent of `e` is run, fails, and is then called a success after all. */
  function CalledSuccessAfterFailure(s: State, w: World, u: Urgency, e: Event): Result<State, Fault> {
    var (computed, ready) := Computed(Enqueued(s, e), w, u);
    if ready == [] then Err(NotFound)
    else
      var begun := Begun(computed, ready[0], w.tick);
      if begun.Err? then begun
      else
        var failed := Completed(begun.value, 1, false);
        if failed.Err? then failed else Completed(failed.value, 1, true)
  }

  /** A more urgent agent takes the room in a second computation; the tick ends; the event
      of `e` is still queued, and is run to success in the next one. */
  function RunAgain(s: State, w: World, u: Urgency, f: Event): Result<State, Fault> {
    var (cut, _) := Computed(Enqueued(s, f), w, u);
    var (computed, ready) := Computed(Ended(cut), w, u);
    if ready == [] then Err(NotFound)
    else
      var begun := Begun(computed, ready[0], w.tick);
      if begun.Err? then begun else Completed(begun.value, 2, true)
  }

  lemma ComputeLone(s: State, w: World, u: Urgency, e: Event)
    requires s.capacity == 1 && s.queue != [] && s.queue[0] == Slot(e, Queued) && Wakes(w, Slot(e, Eligible))
    requires forall i :: 0 < i < |s.queue| ==> s.queue[i].status == Expired
    ensures Computed(s, w, u)
            == (s.(queue := s.queue[0 := Slot(e, Eligible)], overflow := []), [Candidate(e.target, [e], w.tick)])
  {
    var q := s.queue[0 := Slot(e, Eligible)];
    assert Marked(s.queue) == q;
    LoneCandidate(w, q, u, e);
  }

  lemma OneEventId(e: Event)
    ensures Ids([e]) == {e.id}
  {
    assert e in [e];
  }

  lemma BeginLone(s: State, e: Event, tick: int)
    requires s.queue == [Slot(e, Eligible)] && e.target !in s.active
    ensures Begun(s, Candidate(e.target, [e], tick), tick)
            == Ok(s.(counter := s.counter + 1, queue := [Slot(e, Claimed)],
                active := s.active[e.target := s.counter + 1],
                     acts := s.acts[s.counter + 1 := Activation(e.target, [e], tick, false)]))
  {
    OneEventId(e);
    assert Retag(s.queue, {Eligible}, {e.id}, Claimed) == [Slot(e, Claimed)];
  }

  lemma CompleteLone(s: State, n: nat, e: Event, success: bool, before: Status, after: Status)
    requires Completable(s, n) && s.acts[n].events == [e] && s.queue == [Slot(e, before)]
    requires after == if before.Claimed? then (if success then Consumed else Eligible) else before
    ensures Completed(s, n, success)
            == Ok(s.(acts := s.acts[n := s.acts[n].(completed := success)], queue := [Slot(e, after)],
                history := s.history + [n]))
  {
    OneEventId(e);
    assert Retag(s.queue, {Claimed}, {e.id}, if success then Consumed else Eligible) == [Slot(e, after)];
  }

  lemma FirstHalf(s: State, w: World, u: Urgency, e: Event, f: Event)
    requires Stage(s, w, u, e, f)
    ensures var r := CalledSuccessAfterFailure(s, w, u, e);
            && r.Ok? && r.value.capacity == 1 && r.value.conditions == s.conditions && r.value.counter == 1
            && r.value.queue == [Slot(e, Eligible)]
            && r.value.acts == map[1 := Activation(e.target, [e], w.tick, true)]
  {
    ComputeLone(Enqueued(s, e), w, u, e);
    var (computed, ready) := Computed(Enqueued(s, e), w, u);
    BeginLone(computed, e, w.tick);
    var begun := Begun(computed, ready[0], w.tick).value;
    assert begun.active[e.target] == 1;
    CompleteLone(begun, 1, e, false, Claimed, Eligible);
    var failed := Completed(begun, 1, false).value;
    assert failed.active[e.target] == 1;
    CompleteLone(failed, 1, e, true, Eligible, Eligible);
  }

  /** With room for one, the less urgent of two agents goes back to the queue. */
  lemma ComputeCuts(s: State, w: World, u: Urgency, e: Event, f: Event)
    requires s.capacity == 1 && s.queue == [Slot(e, Eligible), Slot(f, Queued)] && e.id != f.id
    requires Wakes(w, Slot(e, Eligible)) && Wakes(w, Slot(f, Eligible))
    requires e.target != f.target && Precedes(u, f.target, e.target)
    ensures Computed(s, w, u).0.queue == [Slot(e, Queued), Slot(f, Eligible)]
  {
    var both := [Slot(e, Eligible), Slot(f, Eligible)];
    assert Marked(s.queue) == both;
    TwoCandidates(w, both, u, e, f);
    var first, second := Candidate(f.target, [f], w.tick), Candidate(e.target, [e], w.tick);
    assert [first, second][1..] == [second];
    assert AllIds([second]) == {e.id} by {
      assert second in [second] && e in second.events;
    }
  }

  lemma TwoSuccesses(s: State, e: Event, n: nat, m: nat)
    requires n != m && n in s.acts && m in s.acts && s.acts[n].completed && s.acts[m].completed
    requires s.acts[n].events == [e] && s.acts[m].events == [e]
    ensures !Exclusive(s)
  {
    OneEventId(e);
    assert e.id in Ids(s.acts[n].events) && e.id in Ids(s.acts[m].events);
  }

  /** The state in which the next tick finds the cut event. */
  lemma CutIsThereNextTick(s: State, w: World, u: Urgency, e: Event, f: Event)
    requires s.capacity == 1 && s.queue == [Slot(e, Eligible)] && f.visibleAt >= 0 && e.id != f.id
    requires Wakes(w, Slot(e, Eligible)) && Wakes(w, Slot(f, Eligible))
    requires e.target != f.target && Precedes(u, f.target, e.target)
    ensures var ended := Ended(Computed(Enqueued(s, f), w, u).0);
            && ended.queue == [Slot(e, Queued), Slot(f, Expired)] && ended.active == map[] && ended.capacity == 1
            && ended.acts == s.acts && ended.counter == s.counter
  {
    ComputeCuts(Enqueued(s, f), w, u, e, f);
  }

  lemma SecondHalf(s: State, w: World, u: Urgency, e: Event, f: Event)
    requires s.capacity == 1 && s.counter == 1 && s.queue == [Slot(e, Eligible)]
    requires s.acts == map[1 := Activation(e.target, [e], w.tick, true)] && f.visibleAt >= 0 && e.id != f.id
    requires Wakes(w, Slot(e, Eligible)) && Wakes(w, Slot(f, Eligible))
    requires e.target != f.target && Precedes(u, f.target, e.target)
    ensures RunAgain(s, w, u, f).Ok? && !Exclusive(RunAgain(s, w, u, f).value)
  {
    var ended := Ended(Computed(Enqueued(s, f), w, u).0);
    CutIsThereNextTick(s, w, u, e, f);
    ComputeLone(ended, w, u, e);
    RunOfCandidate(Computed(ended, w, u).0, Candidate(e.target, [e], w.tick), w.tick);
    TwoSuccesses(RunAgain(s, w, u, f).value, e, 1, 2);
  }

  /** Completing an activation a second time, with success after failure, lets its event be
      in two successful activations. */
  lemma SecondSuccessBreaksExclusivity(s: State, w: World, u: Urgency, e: Event, f: Event)
    requires Stage(s, w, u, e, f)
    ensures CalledSuccessAfterFailure(s, w, u, e).Ok?
    ensures var twice := RunAgain(CalledSuccessAfterFailure(s, w, u, e).value, w, u, f);
            twice.Ok? && !Exclusive(twice.value)
  {
    FirstHalf(s, w, u, e, f);
    SecondHalf(CalledSuccessAfterFailure(s, w, u, e).value, w, u, e, f);
  }

  /** Such a stage can be set. */
  lemma StageCanBeSet()
    ensures exists s: State, w: World, u: Urgency, e: Event, f: Event :: Stage(s, w, u, e, f)
  {
    var condition := Condition({"k"}, 0, {}, {}, {}, {});
    var conditions := map["a" := condition, "b" := condition];
    var e := Event("1", "k", "b", "", "", "", "", 0, 0);
    var f := Event("2", "k", "a", "", "", "", "", 0, 0);
    var u: Urgency := (x: string) => Rank(0, None);
    var w := World(conditions, map["a" := Active, "b" := Active], 0);
    var s := Opened(1, conditions).state;
    assert "a"[0] == 'a' && "b"[0] == 'b' && "1"[0] == '1' && "2"[0] == '2';
    assert Text.Less("a", "b");
    assert Stage(s, w, u, e, f);
  }

  // ----- one activation per agent and tick -----

  lemma {:induction false} AgentStaysActive(s: Session, ops: seq<Op>, agent: string)
    requires agent in s.state.active && forall i :: 0 <= i < |ops| ==> !ops[i].EndTick?
    ensures agent in RunAll(s, ops).state.active && RunAll(s, ops).state.active[agent] == s.state.active[agent]
  {
    if ops != [] {
      AgentStaysActive(s, ops[..|ops| - 1], agent);
    }
  }

  /** Once begun, an agent cannot begin again before the tick ends, whatever happens. */
  lemma OneActivationPerTick(s: Session, ops: seq<Op>, c: Candidate, again: Candidate, tick: int)
    requires Begun(s.state, c, tick).Ok? && again.agent == c.agent
    requires forall i :: 0 <= i < |ops| ==> !ops[i].EndTick?
    ensures Begun(RunAll(s.(state := Begun(s.state, c, tick).value), ops).state, again, tick) == Err(AlreadyActive)
  {
    AgentStaysActive(s.(state := Begun(s.state, c, tick).value), ops, c.agent);
  }

  // ----- what becomes of the events that were not run -----

  ghost predicate QueuedAt(s: Session, e: Event) {
    exists i :: 0 <= i < |s.state.queue| && s.state.queue[i] == Slot(e, Queued)
  }

  lemma QueuedStays(s: Session, op: Op, e: Event)
    requires QueuedAt(s, e) && !op.Compute?
    ensures QueuedAt(Perform(s, op), e)
  {
    var i :| 0 <= i < |s.state.queue| && s.state.queue[i] == Slot(e, Queued);
    assert Perform(s, op).state.queue[i] == Slot(e, Queued);
  }

  lemma {:induction false} QueuedStaysThroughout(s: Session, ops: seq<Op>, e: Event)
    requires QueuedAt(s, e) && forall i :: 0 <= i < |ops| ==> !ops[i].Compute?
    ensures QueuedAt(RunAll(s, ops), e)
  {
    if ops != [] {
      QueuedStaysThroughout(s, ops[..|ops| - 1], e);
      QueuedStays(RunAll(s, ops[..|ops| - 1]), ops[|ops| - 1], e);
    }
  }

  lemma CutIsQueued(s: Session, w: World, u: Urgency, c: Candidate, e: Event)
    requires c in Computed(s.state, w, u).0.overflow && e in c.events
    ensures QueuedAt(Session(Computed(s.state, w, u).0, Computed(s.state, w, u).1), e)
  {
    var q := Marked(s.state.queue);
    var cut := Computed(s.state, w, u).0.overflow;
    WakingEventsMeaning(w, q, c.agent, e);
    var i :| 0 <= i < |q| && q[i] == Slot(e, Eligible);
    assert e.id in AllIds(cut);
    assert Computed(s.state, w, u).0.queue[i] == Slot(e, Queued);
  }

  lemma QueuedOutlastsTick(s: Session, ops: seq<Op>, e: Event)
    requires QueuedAt(s, e) && forall i :: 0 <= i < |ops| ==> !ops[i].Compute?
    ensures QueuedAt(Perform(RunAll(s, ops), EndTick), e)
  {
    QueuedStaysThroughout(s, ops, e);
    QueuedStays(RunAll(s, ops), EndTick, e);
  }

  /** The events of a cut candidate are queued again at the end of the tick, whatever the
      selected agents do in it. */
  lemma CutEventsSurviveTheTick(
    s: Session, w: World, u: Urgency, computed: Session, ops: seq<Op>, c: Candidate, e: Event)
    requires computed == Session(Computed(s.state, w, u).0, Computed(s.state, w, u).1)
    requires c in computed.state.overflow && e in c.events
    requires forall i :: 0 <= i < |ops| ==> !ops[i].Compute?
    ensures QueuedAt(Perform(RunAll(computed, ops), EndTick), e)
  {
    CutIsQueued(s, w, u, c, e);
    QueuedOutlastsTick(computed, ops, e);
  }

  lemma UnmatchedStaysEligible(s: State, w: World, u: Urgency, i: nat)
    requires UniqueIds(s.queue) && i < |s.queue| && s.queue[i].status == Queued
    requires !Wakes(w, Slot(s.queue[i].event, Eligible))
    ensures |Computed(s, w, u).0.queue| == |s.queue|
    ensures Computed(s, w, u).0.queue[i].status == Eligible
  {
    var q := Marked(s.queue);
    var all := Candidates(w, q, u);
    forall c, e | c in all && e in c.events ensures e.id != q[i].event.id {
      WakingEventsMeaning(w, q, c.agent, e);
    }
  }

  /** An event that waits for a later tick is not kept for it: once a computation has
      looked at it without waking its agent, the end of the tick expires it. */
  lemma UnmatchedEventExpires(s: Session, agents: map<string, AgentState>, tick: int, u: Urgency, i: nat)
    requires UniqueIds(s.state.queue) && i < |s.state.queue| && s.state.queue[i].status == Queued
    requires !Wakes(WorldOf(s.state, agents, tick), Slot(s.state.queue[i].event, Eligible))
    ensures var last := Perform(Perform(s, Compute(agents, tick, u)), EndTick).state.queue;
            i < |last| && last[i].status == Expired
  {
    UnmatchedStaysEligible(s.state, WorldOf(s.state, agents, tick), u, i);
  }

  /** In particular one that is not visible yet. */
  lemma EarlyEventExpires(s: Session, agents: map<string, AgentState>, tick: int, u: Urgency, i: nat)
    requires UniqueIds(s.state.queue) && i < |s.state.queue| && s.state.queue[i].status == Queued
    requires 0 <= tick < s.state.queue[i].event.visibleAt
    ensures var last := Perform(Perform(s, Compute(agents, tick, u)), EndTick).state.queue;
            i < |last| && last[i].status == Expired
  {
    UnmatchedEventExpires(s, agents, tick, u, i);
  }

  /** The slot belongs to a candidate for which there was no room. */
  ghost predicate Cut(cut: seq<Candidate>, e: Event) {
    exists c :: c in cut && e in c.events
  }

  lemma CutById(w: World, q: Queue, u: Urgency, cut: seq<Candidate>, i: nat)
    requires UniqueIds(q) && i < |q| && forall c :: c in cut ==> c in Candidates(w, q, u)
    ensures q[i].event.id in AllIds(cut) <==> Cut(cut, q[i].event)
    ensures Cut(cut, q[i].event) ==> q[i].status.Eligible?
  {
    if q[i].event.id in AllIds(cut) {
      var c, e :| c in cut && e in c.events && e.id == q[i].event.id;
      WakingEventsMeaning(w, q, c.agent, e);
      var j :| 0 <= j < |q| && Wakes(w, q[j]) && q[j].event == e;
      assert i == j;
    }
    if Cut(cut, q[i].event) {
      var c :| c in cut && q[i].event in c.events;
      assert q[i].event.id in AllIds(cut);
      CandidateHolds(w, q, c.agent);
    }
  }

  /** Of the queued events that a tick looks at and no activation takes, exactly those of
      cut candidates are kept; all others expire. */
  lemma UntakenEventSurvivesIff(s: Session, w: World, u: Urgency, i: nat)
    requires UniqueIds(s.state.queue) && i < |s.state.queue| && s.state.queue[i].status == Queued
    ensures var computed := Computed(s.state, w, u).0;
            var last := Ended(computed).queue;
            && |last| == |s.state.queue|
            && last[i].status == if Cut(computed.overflow, s.state.queue[i].event) then Queued else Expired
  {
    var q := Marked(s.state.queue);
    var all := Candidates(w, q, u);
    var cut := Computed(s.state, w, u).0.overflow;
    SelectionSplits(s.state, w, u);
    assert forall c :: c in cut ==> c in all;
    CutById(w, q, u, cut, i);
  }

  // ----- the object -----

  class AgentScheduler {
    const capacity: nat
    var conditions: map<string, Condition>
    var queue: Queue
    var acts: map<nat, Activation>
    var active: map<string, nat>
    var history: seq<nat>
    var counter: nat
    var overflow: seq<Candidate>

    ghost function Value(): State
      reads this
    {
      State(capacity, conditions, queue, acts, active, history, counter, overflow)
    }

    constructor (capacity: nat, conditions: map<string, Condition>)
      ensures Value() == Opened(capacity, conditions).state
    {
      this.capacity, this.conditions := capacity, conditions;
      queue, acts, active, history, counter, overflow := [], map[], map[], [], 0, [];
    }

    method EnqueueEvent(e: Event)
      modifies this`queue
      ensures Value() == old(Enqueued(Value(), e))
    {
      var visible := e;
      if e.visibleAt < 0 {
        visible := e.(visibleAt := e.tick + 1);
      }
      queue := queue + [Slot(visible, Queued)];
    }

    /** Walks the queue and moves the named events out of the given statuses. */
    method Move(from: set<Status>, ids: set<string>, to: Status)
      modifies this`queue
      ensures queue == Retag(old(queue), from, ids, to)
    {
      for i := 0 to |queue|
        invariant |queue| == |old(queue)|
        invariant forall j :: 0 <= j < i ==> queue[j] == Retag(old(queue), from, ids, to)[j]
        invariant forall j :: i <= j < |queue| ==> queue[j] == old(queue)[j]
      {
        if queue[i].status in from && queue[i].event.id in ids {
          queue := queue[i := Slot(queue[i].event, to)];
        }
      }
    }

    method MoveAll(from: Status, to: Status)
      modifies this`queue
      ensures queue == RetagAll(old(queue), from, to)
    {
      for i := 0 to |queue|
        invariant |queue| == |old(queue)|
        invariant forall j :: 0 <= j < i ==> queue[j] == RetagAll(old(queue), from, to)[j]
        invariant forall j :: i <= j < |queue| ==> queue[j] == old(queue)[j]
      {
        if queue[i].status == from {
          queue := queue[i := Slot(queue[i].event, to)];
        }
      }
    }

    /** Groups the waking events by agent, in the order the agents first appear. */
    method Group(w: World) returns (order: seq<string>, groups: map<string, seq<Event>>)
      ensures order == WokenAgents(w, queue)
      ensures forall a :: a in order ==> a in groups && groups[a] == WakingEvents(w, queue, a)
    {
      order, groups := [], map[];
      for i := 0 to |queue|
        invariant order == WokenAgents(w, queue[..i])
        invariant forall a :: a in order <==> a in groups
        invariant forall a :: a in groups ==> groups[a] == WakingEvents(w, queue[..i], a)
      {
        var slot := queue[i];
        assert queue[..i + 1][..i] == queue[..i];
        WokenMeaning(w, queue[..i]);
        if Wakes(w, slot) {
          var agent := slot.event.target;
          if agent !in groups {
            order := order + [agent];
            groups := groups[agent := []];
          }
          groups := groups[agent := groups[agent] + [slot.event]];
        }
      }
      assert queue[..|queue|] == queue;
    }

    /** Puts the events of the cut candidates back in the queue. */
    method PutBack(cut: seq<Candidate>)
      modifies this`queue
      ensures queue == Retag(old(queue), {Claimed, Eligible}, AllIds(cut), Queued)
    {
      for k := 0 to |cut|
        invariant queue == Retag(old(queue), {Claimed, Eligible}, AllIds(cut[..k]), Queued)
      {
        assert cut[..k + 1] == cut[..k] + [cut[k]];
        assert AllIds(cut[..k + 1]) == AllIds(cut[..k]) + Ids(cut[k].events);
        RetagTwice(old(queue), {Claimed, Eligible}, AllIds(cut[..k]), Ids(cut[k].events), Queued);
        Move({Claimed, Eligible}, Ids(cut[k].events), Queued);
      }
      assert cut[..|cut|] == cut;
    }

    method ComputeReadySet(agents: map<string, AgentState>, tick: int, u: Urgency) returns (ready: seq<Candidate>)
      modifies this`queue, this`overflow
      ensures (Value(), ready) == old(Computed(Value(), WorldOf(Value(), agents, tick), u))
    {
      var w := World(conditions, agents, tick);
      MoveAll(Queued, Eligible);
      var order, groups := Group(w);
      WokenMeaning(w, queue);
      RankedInOrder(u, order);
      var sorted := Ranked(u, order);
      assert forall i :: 0 <= i < |sorted| ==> sorted[i] in order;
      ready := seq(|sorted|, i requires 0 <= i < |sorted| => Candidate(sorted[i], groups[sorted[i]], tick));
      assert ready == Candidates(w, queue, u);
      overflow := [];
      if |ready| > capacity {
        overflow := ready[capacity..];
        PutBack(overflow);
        ready := ready[..capacity];
      }
    }

    method BeginActivation(c: Candidate, tick: int) returns (fault: Option<Fault>)
      modifies this
      ensures match old(Begun(Value(), c, tick))
              case Ok(next) => fault == None && Value() == next
              case Err(why) => fault == Some(why) && Value() == old(Value())
    {
      if c.agent in active {
        return Some(AlreadyActive);
      }
      counter := counter + 1;
      acts := acts[counter := Activation(c.agent, c.events, tick, false)];
      Move({Eligible}, Ids(c.events), Claimed);
      active := active[c.agent := counter];
      return None;
    }

    method CompleteActivation(n: nat, success: bool) returns (fault: Option<Fault>)
      modifies this
      ensures match old(Completed(Value(), n, success))
              case Ok(next) => fault == None && Value() == next
              case Err(why) => fault == Some(why) && Value() == old(Value())
    {
      if n !in active.Values || n !in acts {
        return Some(NotFound);
      }
      var act := acts[n];
      acts := acts[n := act.(completed := success)];
      if success {
        Move({Claimed}, Ids(act.events), Consumed);
      } else {
        Move({Claimed}, Ids(act.events), Eligible);
      }
      history := history + [n];
      return None;
    }

    method FinishTick()
      modifies this
      ensures Value() == old(Ended(Value()))
    {
      MoveAll(Eligible, Expired);
      active := map[];
    }
  }
}
