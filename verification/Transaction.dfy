/** The commit pipeline of one tick: staged effects are validated, conflicts resolved,
    and the survivors committed or rolled back. */
module Transaction {
  import opened Common
  import Text

  datatype EffectType =
    | EmailSend | EmailDeliver | FileWrite | FilePatch | FileDelete
    | KbCreate | KbWrite | KbDelete | LockAcquire | LockRelease
    | TaskCreate | TaskUpdate | StateTransition | RecordUpsert | RecordDelta | RuleAdvance
    | MemoryEntryWrite | MemoryEntryEvict | MemoryEntryFold
    | MemoryRecallConfig | MemoryRecall | MemoryPin

  predicate IsExternal(kind: EffectType) {
    kind.EmailSend? || kind.EmailDeliver? || kind.FileWrite? || kind.FilePatch? || kind.FileDelete?
  }

  predicate NeedsLock(kind: EffectType) {
    kind.KbWrite? || kind.KbCreate? || kind.KbDelete? || kind.FileWrite? || kind.FilePatch? || kind.FileDelete?
  }

  /** What an agent staged; `grouped` is atomicity "group". */
  datatype Spec = Spec(
    kind: EffectType, agent: string, resource: string, payload: string,
    expectedVersion: Option<int>, lockToken: Option<string>, group: string, grouped: bool)

  datatype Status = Staged | Validated | Committed | Failed | RolledBack

  datatype Reason =
    | TaskRefused(message: string)
    | VersionConflict(expected: int)
    | LockNotHeld
    | PermissionDenied
    | GroupMemberFailed(group: string)
    | LostConflict(winner: string)
    | GroupMemberLost(group: string)

  datatype Effect = Effect(id: nat, spec: Spec, status: Status, error: Option<Reason>)

  /** The caller's precondition checks; an absent one is skipped. */
  datatype Checks = Checks(
    task: Option<Spec -> Option<string>>,
    version: Option<(string, int) -> bool>,
    lock: Option<(string, string, Option<string>) -> bool>,
    permission: Option<(string, string, EffectType) -> bool>)

  /** The first check that refuses an effect, in the order they are made. */
  function Refusal(c: Checks, s: Spec): Option<Reason> {
    if s.kind.TaskUpdate? && c.task.Some? && c.task.value(s).Some? then
      Some(TaskRefused(c.task.value(s).value))
    else if s.expectedVersion.Some? && c.version.Some? && !c.version.value(s.resource, s.expectedVersion.value) then
      Some(VersionConflict(s.expectedVersion.value))
    else if NeedsLock(s.kind) && c.lock.Some? && !c.lock.value(s.resource, s.agent, s.lockToken) then
      Some(LockNotHeld)
    else if c.permission.Some? && !c.permission.value(s.agent, s.resource, s.kind) then
      Some(PermissionDenied)
    else None
  }

  predicate Atomic(s: Spec) {
    s.group != "" && s.grouped
  }

  // ----- what the checks say -----

  /** The task check was not asked, or did not object. */
  ghost predicate TaskClears(c: Checks, s: Spec) {
    s.kind == TaskUpdate && c.task.Some? ==> c.task.value(s) == None
  }

  ghost predicate VersionClears(c: Checks, s: Spec) {
    s.expectedVersion.Some? && c.version.Some? ==> c.version.value(s.resource, s.expectedVersion.value)
  }

  ghost predicate LockClears(c: Checks, s: Spec) {
    s.kind in {KbWrite, KbCreate, KbDelete, FileWrite, FilePatch, FileDelete} && c.lock.Some?
    ==> c.lock.value(s.resource, s.agent, s.lockToken)
  }

  ghost predicate PermissionClears(c: Checks, s: Spec) {
    c.permission.Some? ==> c.permission.value(s.agent, s.resource, s.kind)
  }

  /** Every check that was supplied and applies speaks for the effect. */
  ghost predicate Cleared(c: Checks, s: Spec) {
    TaskClears(c, s) && VersionClears(c, s) && LockClears(c, s) && PermissionClears(c, s)
  }

  /** The reason names a check that objects while every earlier one is content. */
  ghost predicate FirstObjection(c: Checks, s: Spec, reason: Reason) {
    match reason
    case TaskRefused(message) => s.kind == TaskUpdate && c.task.Some? && c.task.value(s) == Some(message)
    case VersionConflict(expected) =>
      TaskClears(c, s) && s.expectedVersion == Some(expected) && !VersionClears(c, s)
    case LockNotHeld => TaskClears(c, s) && VersionClears(c, s) && !LockClears(c, s)
    case PermissionDenied => TaskClears(c, s) && VersionClears(c, s) && LockClears(c, s) && !PermissionClears(c, s)
    case _ => false
  }

  /** An effect is refused exactly when some check objects, for the first that does. */
  lemma RefusedByFirstObjection(c: Checks, s: Spec)
    ensures Refusal(c, s).None? <==> Cleared(c, s)
    ensures forall reason :: Refusal(c, s) == Some(reason) <==> FirstObjection(c, s, reason)
  {
  }

  // ----- which effects commit: the closed form -----

  ghost predicate Mates(s: Spec, t: Spec) {
    s.grouped && t.grouped && s.group == t.group != ""
  }

  /** Its own checks and those of its atomic group pass. */
  ghost predicate Passes(c: Checks, all: set<Spec>, s: Spec) {
    Cleared(c, s) && forall t :: t in all && Mates(s, t) ==> Cleared(c, t)
  }

  /** An agent earlier in the order has a passing effect on the same resource. */
  ghost predicate Loses(c: Checks, all: set<Spec>, s: Spec) {
    Passes(c, all, s)
    && exists t :: t in all && Passes(c, all, t) && t.resource == s.resource && Text.Less(t.agent, s.agent)
  }

  /** A loser of an atomic group carries this group identifier. */
  ghost predicate Dragged(c: Checks, all: set<Spec>, s: Spec) {
    exists t :: t in all && Loses(c, all, t) && t.grouped && t.group == s.group != ""
  }

  ghost predicate Commits(c: Checks, all: set<Spec>, s: Spec) {
    Passes(c, all, s) && !Loses(c, all, s) && !Dragged(c, all, s)
  }

  /** What commits has every supplied check in its favour, and so has its whole group; an
      effect without mates and rivals commits exactly then. */
  lemma CommittedIsCleared(c: Checks, all: set<Spec>, s: Spec)
    ensures Commits(c, all, s) ==> Cleared(c, s) && forall t :: t in all && Mates(s, t) ==> Cleared(c, t)
    ensures (forall t :: t in all && t != s ==> t.resource != s.resource && (t.group != s.group || s.group == ""))
            ==> (Commits(c, all, s) <==> Cleared(c, s))
  {
    Text.LessIsIrreflexive(s.agent);
  }

  /** The members of an atomic group commit together or not at all. */
  lemma GroupsAreAllOrNothing(c: Checks, all: set<Spec>, s: Spec, t: Spec)
    requires s in all && t in all && Mates(s, t)
    ensures Commits(c, all, s) <==> Commits(c, all, t)
  {
    MateFollows(c, all, s, t);
    MateFollows(c, all, t, s);
  }

  lemma MateFollows(c: Checks, all: set<Spec>, s: Spec, t: Spec)
    requires s in all && t in all && Mates(s, t)
    ensures Commits(c, all, s) ==> Commits(c, all, t)
  {
    assert Passes(c, all, s) ==> Passes(c, all, t);
  }

  /** All committed effects on one resource come from one agent. */
  lemma OneAgentPerResource(c: Checks, all: set<Spec>, s: Spec, t: Spec)
    requires s in all && t in all && Commits(c, all, s) && Commits(c, all, t) && s.resource == t.resource
    ensures s.agent == t.agent
  {
    Text.LessIsTotal(s.agent, t.agent);
  }

  // ----- who survives a contest -----

  /** The effects that contend for a resource once validation is over. */
  ghost function Contenders(c: Checks, all: set<Spec>, resource: string): set<Spec> {
    set s | s in all && s.resource == resource && Passes(c, all, s)
  }

  ghost predicate Foremost(c: Checks, all: set<Spec>, s: Spec) {
    forall t :: t in all && Passes(c, all, t) && t.resource == s.resource ==> !Text.Less(t.agent, s.agent)
  }

  /** Some member of a finite set has the smallest agent id. */
  lemma {:induction false} LeastAgent(specs: set<Spec>) returns (least: Spec)
    requires specs != {}
    ensures least in specs && forall t :: t in specs ==> !Text.Less(t.agent, least.agent)
    decreases |specs|
  {
    var s :| s in specs;
    least := s;
    Text.LessIsIrreflexive(s.agent);
    if specs != {s} {
      var other := LeastAgent(specs - {s});
      if !Text.Less(s.agent, other.agent) {
        least := other;
      } else {
        forall t | t in specs ensures !Text.Less(t.agent, s.agent) {
          if t != s && Text.Less(t.agent, s.agent) {
            Text.LessIsTransitive(t.agent, s.agent, other.agent);
          }
        }
      }
    }
  }

  /** Every resource with a contender has a foremost one. */
  lemma ForemostExists(c: Checks, all: set<Spec>, resource: string) returns (leader: Spec)
    requires Contenders(c, all, resource) != {}
    ensures leader in Contenders(c, all, resource) && Foremost(c, all, leader)
  {
    leader := LeastAgent(Contenders(c, all, resource));
    forall t | t in all && Passes(c, all, t) && t.resource == resource ensures !Text.Less(t.agent, leader.agent) {
      assert t in Contenders(c, all, resource);
    }
  }

  /** The contenders that win are those of the foremost agent, and no others. */
  lemma WinnersAreTheLeaders(c: Checks, all: set<Spec>, leader: Spec, s: Spec)
    requires leader in all && Passes(c, all, leader) && Foremost(c, all, leader)
    requires s in Contenders(c, all, leader.resource)
    ensures Loses(c, all, s) <==> s.agent != leader.agent
  {
    Text.LessIsTotal(s.agent, leader.agent);
  }

  /** Nothing on a contested resource commits exactly when each effect the foremost agent
      has there shares its group id with an atomic effect that lost somewhere. */
  lemma NoSurvivorIff(c: Checks, all: set<Spec>, leader: Spec)
    requires leader in all && Passes(c, all, leader) && Foremost(c, all, leader)
    ensures (forall s :: s in all && s.resource == leader.resource ==> !Commits(c, all, s))
            <==> (forall s :: s in Contenders(c, all, leader.resource) && s.agent == leader.agent
                              ==> exists t :: t in all && Atomic(t) && t.group == s.group && Loses(c, all, t))
  {
    forall s | s in all && s.resource == leader.resource
      ensures Commits(c, all, s)
              <==> s in Contenders(c, all, leader.resource) && s.agent == leader.agent && !Dragged(c, all, s)
    {
      if Passes(c, all, s) {
        WinnersAreTheLeaders(c, all, leader, s);
      }
    }
  }

  /** Where no atomic group takes part, every resource with a contender keeps a survivor,
      and the survivors are exactly the foremost agent's effects. */
  lemma UngroupedContestKeepsSurvivor(c: Checks, all: set<Spec>, resource: string) returns (leader: Spec)
    requires Contenders(c, all, resource) != {} && forall t :: t in all ==> !Atomic(t)
    ensures leader in all && leader.resource == resource && Commits(c, all, leader)
    ensures forall s :: s in all && s.resource == resource
                        ==> (Commits(c, all, s) <==> Passes(c, all, s) && s.agent == leader.agent)
  {
    leader := ForemostExists(c, all, resource);
    forall s | s in Contenders(c, all, resource) ensures Loses(c, all, s) <==> s.agent != leader.agent {
      WinnersAreTheLeaders(c, all, leader, s);
    }
    assert leader in Contenders(c, all, resource);
    assert forall s :: s in all && s.resource == resource && Passes(c, all, s) ==> s in Contenders(c, all, resource);
  }

  /** A winner can fail through its group: both agents lose one of two resources to the
      other's group, and nothing at all is committed. */
  lemma ContestCanEndWithoutSurvivor()
    ensures var c := Checks(None, None, None, None);
            var mine := Spec(KbWrite, "a", "r", "", None, None, "g", true);
            var rival := Spec(KbWrite, "b", "r", "", None, None, "", false);
            var elsewhere := Spec(KbWrite, "a", "q", "", None, None, "g", true);
            var first := Spec(KbWrite, "Z", "q", "", None, None, "", false);
            var all := {mine, rival, elsewhere, first};
            Passes(c, all, mine) && Foremost(c, all, mine)
            && forall s :: s in all && s.resource == "r" ==> !Commits(c, all, s)
  {
    var c := Checks(None, None, None, None);
    var mine := Spec(KbWrite, "a", "r", "", None, None, "g", true);
    var rival := Spec(KbWrite, "b", "r", "", None, None, "", false);
    var elsewhere := Spec(KbWrite, "a", "q", "", None, None, "g", true);
    var first := Spec(KbWrite, "Z", "q", "", None, None, "", false);
    var all := {mine, rival, elsewhere, first};
    assert forall s :: s in all ==> Passes(c, all, s);
    assert Text.Less("Z", "a") && Text.Less("a", "b");
    assert Loses(c, all, elsewhere);
    assert Dragged(c, all, mine);
    assert Loses(c, all, rival);
    Text.LessIsAsymmetric("a", "b");
    Text.LessIsIrreflexive("a");
    assert "q" != "r";
  }

  // ----- the pipeline on values -----

  function Specs(es: seq<Effect>): set<Spec> {
    set i | 0 <= i < |es| :: es[i].spec
  }

  /** First pass of `validate`. */
  function Judge(c: Checks, e: Effect): Effect {
    if e.status != Staged then e
    else
      match Refusal(c, e.spec)
      case None => e.(status := Validated)
      case Some(reason) => e.(status := Failed, error := Some(reason))
  }

  predicate GroupFailed(es: seq<Effect>, group: string) {
    exists i :: 0 <= i < |es| && Atomic(es[i].spec) && es[i].spec.group == group && es[i].status == Failed
  }

  /** Second pass of `validate`: a failed member fails its atomic group. */
  function Cascade(es: seq<Effect>, e: Effect): Effect {
    if Atomic(e.spec) && e.status != Failed && GroupFailed(es, e.spec.group)
    then e.(status := Failed, error := Some(GroupMemberFailed(e.spec.group)))
    else e
  }

  /** The effect at `k` once the groups in `seen` have been dealt with. */
  function CascadedIn(es: seq<Effect>, seen: set<string>, k: int): Effect
    requires 0 <= k < |es|
  {
    if es[k].spec.group in seen then Cascade(es, es[k]) else es[k]
  }

  function ValidateAll(c: Checks, es: seq<Effect>): (r: seq<Effect>)
    ensures |r| == |es|
  {
    var judged := seq(|es|, i requires 0 <= i < |es| => Judge(c, es[i]));
    seq(|es|, i requires 0 <= i < |es| => Cascade(judged, judged[i]))
  }

  /** The earliest agent with a validated effect on the resource, among the first `n`. */
  function Winner(es: seq<Effect>, resource: string, n: nat): Option<string>
    requires n <= |es|
  {
    if n == 0 then None
    else
      var sofar := Winner(es, resource, n - 1);
      var e := es[n - 1];
      if e.status != Validated || e.spec.resource != resource then sofar
      else if sofar.None? || Text.Less(e.spec.agent, sofar.value) then Some(e.spec.agent)
      else sofar
  }

  /** A validated effect on a resource that another agent wins. */
  predicate IsLoser(es: seq<Effect>, i: int) {
    0 <= i < |es| && es[i].status == Validated
    && var winner := Winner(es, es[i].spec.resource, |es|);
       winner.Some? && winner.value != es[i].spec.agent
  }

  function Losers(es: seq<Effect>): set<int> {
    set i | 0 <= i < |es| && IsLoser(es, i)
  }

  /** Some settled loser of an atomic group carries this group identifier. */
  predicate GroupLost(es: seq<Effect>, lost: set<int>, group: string) {
    exists j :: j in lost && IsLoser(es, j) && Atomic(es[j].spec) && es[j].spec.group == group
  }

  /** The effect at `i` once the conflicts of the losers in `lost` have been settled. */
  function Settle(es: seq<Effect>, lost: set<int>, i: int): Effect
    requires 0 <= i < |es| && forall j :: j in lost ==> IsLoser(es, j)
  {
    var e := es[i];
    if i in lost then
      assert IsLoser(es, i);
      e.(status := Failed, error := Some(LostConflict(Winner(es, e.spec.resource, |es|).value)))
    else if e.status != Failed && GroupLost(es, lost, e.spec.group) then
      e.(status := Failed, error := Some(GroupMemberLost(e.spec.group)))
    else e
  }

  function ResolveAll(es: seq<Effect>): (r: seq<Effect>)
    ensures |r| == |es|
  {
    seq(|es|, i requires 0 <= i < |es| => Settle(es, Losers(es), i))
  }

  function CommitOne(e: Effect): Effect {
    if e.status == Validated then e.(status := Committed) else e
  }

  function Undone(e: Effect): Effect {
    e.(status := RolledBack)
  }

  function CommitAll(es: seq<Effect>): (r: seq<Effect>)
    ensures |r| == |es|
  {
    seq(|es|, i requires 0 <= i < |es| => CommitOne(es[i]))
  }

  /** The positions of the validated effects among the first `n`, in order. */
  function Survivors(es: seq<Effect>, n: nat): seq<nat>
    requires n <= |es|
  {
    if n == 0 then []
    else Survivors(es, n - 1) + if es[n - 1].status == Validated then [n - 1] else []
  }

  /** Those of the positions whose effects leave the system. */
  function External(es: seq<Effect>, at: seq<nat>): seq<nat> {
    if at == [] then []
    else
      var last := at[|at| - 1];
      External(es, at[..|at| - 1]) + if last < |es| && IsExternal(es[last].spec.kind) then [last] else []
  }

  lemma ExternalAppend(es: seq<Effect>, at: seq<nat>, i: nat)
    ensures External(es, at + [i]) == External(es, at) + if i < |es| && IsExternal(es[i].spec.kind) then [i] else []
  {
    assert (at + [i])[..|at|] == at;
  }

  lemma {:induction false} SurvivorsAreValidated(es: seq<Effect>, n: nat)
    requires n <= |es|
    ensures forall k :: k in Survivors(es, n) <==> 0 <= k < n && es[k].status == Validated
  {
    if n > 0 {
      SurvivorsAreValidated(es, n - 1);
    }
  }

  lemma {:induction false} ExternalIsFilter(es: seq<Effect>, at: seq<nat>)
    requires forall k :: k in at ==> k < |es|
    ensures forall k :: k in External(es, at) <==> k in at && IsExternal(es[k].spec.kind)
  {
    if at != [] {
      var front, last := at[..|at| - 1], at[|at| - 1];
      assert at == front + [last];
      assert forall k :: k in front ==> k in at;
      ExternalIsFilter(es, front);
    }
  }

  function Pipeline(c: Checks, es: seq<Effect>): (r: seq<Effect>)
    ensures |r| == |es|
  {
    CommitAll(ResolveAll(ValidateAll(c, es)))
  }

  // ----- the pipeline computes the closed form -----

  lemma {:induction false} WinnerIsForemost(es: seq<Effect>, resource: string, n: nat)
    requires n <= |es|
    ensures var w := Winner(es, resource, n);
            && (w.Some? ==> exists i :: 0 <= i < n && es[i].status == Validated && es[i].spec.resource == resource
                                        && es[i].spec.agent == w.value)
            && (forall i :: 0 <= i < n && es[i].status == Validated && es[i].spec.resource == resource
                            ==> w.Some? && !Text.Less(es[i].spec.agent, w.value))
  {
    if n > 0 {
      WinnerIsForemost(es, resource, n - 1);
      var sofar, w, e := Winner(es, resource, n - 1), Winner(es, resource, n), es[n - 1];
      forall i | 0 <= i < n && es[i].status == Validated && es[i].spec.resource == resource
        ensures w.Some? && !Text.Less(es[i].spec.agent, w.value)
      {
        if i == n - 1 {
          Text.LessIsIrreflexive(e.spec.agent);
        } else if w != sofar && Text.Less(es[i].spec.agent, w.value) {
          Text.LessIsTransitive(es[i].spec.agent, w.value, sofar.value);
        }
      }
    }
  }

  lemma LoserHasForemostRival(es: seq<Effect>, i: int)
    requires 0 <= i < |es|
    ensures IsLoser(es, i) <==>
            es[i].status == Validated
            && exists j :: 0 <= j < |es| && es[j].status == Validated && es[j].spec.resource == es[i].spec.resource
                           && Text.Less(es[j].spec.agent, es[i].spec.agent)
  {
    if es[i].status == Validated {
      var resource := es[i].spec.resource;
      var w := Winner(es, resource, |es|);
      WinnerIsForemost(es, resource, |es|);
      Text.LessIsTotal(w.value, es[i].spec.agent);
      forall j | 0 <= j < |es| && es[j].status == Validated && es[j].spec.resource == resource
                 && Text.Less(es[j].spec.agent, es[i].spec.agent)
        ensures w.value != es[i].spec.agent
      {
      }
    }
  }

  ghost predicate Fresh(es: seq<Effect>) {
    forall i :: 0 <= i < |es| ==> es[i].status == Staged && es[i].error == None
  }

  lemma ValidatedIffPasses(c: Checks, es: seq<Effect>, i: int)
    requires Fresh(es) && 0 <= i < |es|
    ensures var v := ValidateAll(c, es);
            v[i].spec == es[i].spec
            && v[i].status == if Passes(c, Specs(es), es[i].spec) then Validated else Failed
  {
    var judged := seq(|es|, k requires 0 <= k < |es| => Judge(c, es[k]));
    var s := es[i].spec;
    forall t ensures Refusal(c, t).None? <==> Cleared(c, t) {
      RefusedByFirstObjection(c, t);
    }
    if Refusal(c, s).None? && Atomic(s) {
      if GroupFailed(judged, s.group) {
        var k :| 0 <= k < |judged| && Atomic(judged[k].spec) && judged[k].spec.group == s.group
            && judged[k].status == Failed;
        assert es[k].spec in Specs(es) && Mates(s, es[k].spec);
      } else {
        forall t | t in Specs(es) && Mates(s, t)
          ensures Cleared(c, t)
        {
          var k :| 0 <= k < |es| && es[k].spec == t;
          assert judged[k].spec == t;
        }
      }
    }
  }

  lemma LoserIffLoses(c: Checks, es: seq<Effect>, i: int)
    requires Fresh(es) && 0 <= i < |es|
    ensures IsLoser(ValidateAll(c, es), i) <==> Loses(c, Specs(es), es[i].spec)
  {
    var v := ValidateAll(c, es);
    forall k | 0 <= k < |es|
      ensures v[k].spec == es[k].spec
      ensures v[k].status == Validated <==> Passes(c, Specs(es), es[k].spec)
    {
      ValidatedIffPasses(c, es, k);
    }
    LoserHasForemostRival(v, i);
    if Loses(c, Specs(es), es[i].spec) {
      var t :| t in Specs(es) && Passes(c, Specs(es), t) && t.resource == es[i].spec.resource
               && Text.Less(t.agent, es[i].spec.agent);
      var k :| 0 <= k < |es| && es[k].spec == t;
      assert v[k].spec == t;
    }
  }

  lemma GroupLostIffDragged(c: Checks, es: seq<Effect>, v: seq<Effect>, s: Spec)
    requires |v| == |es|
    requires forall j :: 0 <= j < |es| ==> v[j].spec == es[j].spec
    requires forall j :: 0 <= j < |es| ==> (IsLoser(v, j) <==> Loses(c, Specs(es), es[j].spec))
    ensures GroupLost(v, Losers(v), s.group) <==> Dragged(c, Specs(es), s)
  {
    if GroupLost(v, Losers(v), s.group) {
      LostGroupDrags(c, es, v, s);
    }
    if Dragged(c, Specs(es), s) {
      DraggedGroupIsLost(c, es, v, s);
    }
  }

  lemma LostGroupDrags(c: Checks, es: seq<Effect>, v: seq<Effect>, s: Spec)
    requires |v| == |es| && GroupLost(v, Losers(v), s.group)
    requires forall j :: 0 <= j < |es| ==> v[j].spec == es[j].spec
    requires forall j :: 0 <= j < |es| && IsLoser(v, j) ==> Loses(c, Specs(es), es[j].spec)
    ensures Dragged(c, Specs(es), s)
  {
    var j :| j in Losers(v) && IsLoser(v, j) && Atomic(v[j].spec) && v[j].spec.group == s.group;
    DraggedBy(c, Specs(es), s, es[j].spec);
  }

  lemma DraggedGroupIsLost(c: Checks, es: seq<Effect>, v: seq<Effect>, s: Spec)
    requires |v| == |es| && Dragged(c, Specs(es), s)
    requires forall j :: 0 <= j < |es| ==> v[j].spec == es[j].spec
    requires forall j :: 0 <= j < |es| && Loses(c, Specs(es), es[j].spec) ==> IsLoser(v, j)
    ensures GroupLost(v, Losers(v), s.group)
  {
    var t :| t in Specs(es) && Loses(c, Specs(es), t) && Atomic(t) && t.group == s.group;
    var j :| 0 <= j < |es| && es[j].spec == t;
    GroupLostBy(v, j, s.group);
  }

  lemma DraggedBy(c: Checks, all: set<Spec>, s: Spec, t: Spec)
    requires t in all && Loses(c, all, t) && Atomic(t) && t.group == s.group
    ensures Dragged(c, all, s)
  {
  }

  lemma GroupLostBy(v: seq<Effect>, j: int, group: string)
    requires IsLoser(v, j) && Atomic(v[j].spec) && v[j].spec.group == group
    ensures GroupLost(v, Losers(v), group)
  {
    assert j in Losers(v);
  }

  lemma ResolvedClosedForm(c: Checks, es: seq<Effect>, i: int)
    requires Fresh(es) && 0 <= i < |es|
    ensures var r := ResolveAll(ValidateAll(c, es));
            r[i].spec == es[i].spec
            && r[i].status == if Commits(c, Specs(es), es[i].spec) then Validated else Failed
  {
    var v := ValidateAll(c, es);
    forall j | 0 <= j < |es|
      ensures v[j].spec == es[j].spec && (IsLoser(v, j) <==> Loses(c, Specs(es), es[j].spec))
    {
      ValidatedIffPasses(c, es, j);
      LoserIffLoses(c, es, j);
    }
    ValidatedIffPasses(c, es, i);
    GroupLostIffDragged(c, es, v, es[i].spec);
  }

  /** On freshly staged effects the pipeline commits exactly the effects of the closed
      form, and every other effect ends as failed. */
  lemma PipelineCommitsClosedForm(c: Checks, es: seq<Effect>, i: int)
    requires Fresh(es) && 0 <= i < |es|
    ensures Pipeline(c, es)[i].spec == es[i].spec
    ensures Pipeline(c, es)[i].status == if Commits(c, Specs(es), es[i].spec) then Committed else Failed
  {
    ResolvedClosedForm(c, es, i);
  }

  // ----- why an effect fails -----

  /** The reason is the true one: the first check that objects; failing that, a mate some
      check objects to; failing that, the foremost rival on the resource; failing that, an
      atomic loser with the same group id. */
  ghost predicate Explains(c: Checks, all: set<Spec>, s: Spec, reason: Reason) {
    match reason
    case GroupMemberFailed(group) =>
      group == s.group && Cleared(c, s) && exists t :: t in all && Mates(s, t) && !Cleared(c, t)
    case LostConflict(winner) =>
      Loses(c, all, s)
      && exists t :: t in Contenders(c, all, s.resource) && t.agent == winner && Foremost(c, all, t)
    case GroupMemberLost(group) =>
      group == s.group && Passes(c, all, s) && !Loses(c, all, s) && Dragged(c, all, s)
    case _ => FirstObjection(c, s, reason)
  }

  /** There is one explanation of a failure, up to the name of the foremost agent, of which
      there is one too; and none of a success. */
  lemma ExplanationIsUnique(c: Checks, all: set<Spec>, s: Spec, a: Reason, b: Reason)
    requires Explains(c, all, s, a)
    ensures Explains(c, all, s, b) ==> a == b
    ensures !Commits(c, all, s)
  {
    RefusedByFirstObjection(c, s);
    if a.LostConflict? && b.LostConflict? {
      Text.LessIsTotal(a.winner, b.winner);
    }
  }

  lemma ValidationExplains(c: Checks, es: seq<Effect>, i: int)
    requires Fresh(es) && 0 <= i < |es| && !Passes(c, Specs(es), es[i].spec)
    ensures var v := ValidateAll(c, es);
            v[i].error.Some? && Explains(c, Specs(es), es[i].spec, v[i].error.value)
            && !v[i].error.value.LostConflict? && !v[i].error.value.GroupMemberLost?
  {
    ValidatedIffPasses(c, es, i);
    RefusedByFirstObjection(c, es[i].spec);
  }

  lemma WinnerIsForemostContender(c: Checks, es: seq<Effect>, v: seq<Effect>, resource: string)
    requires |v| == |es| && Winner(v, resource, |v|).Some?
    requires forall j :: 0 <= j < |es| ==> v[j].spec == es[j].spec
    requires forall j :: 0 <= j < |es| ==> (v[j].status == Validated <==> Passes(c, Specs(es), es[j].spec))
    ensures exists t :: t in Contenders(c, Specs(es), resource) && t.agent == Winner(v, resource, |v|).value
                        && Foremost(c, Specs(es), t)
  {
    WinnerIsForemost(v, resource, |v|);
    var w := Winner(v, resource, |v|).value;
    var i :| 0 <= i < |v| && v[i].status == Validated && v[i].spec.resource == resource && v[i].spec.agent == w;
    var t := es[i].spec;
    assert t in Contenders(c, Specs(es), resource);
    forall u | u in Specs(es) && Passes(c, Specs(es), u) && u.resource == resource ensures !Text.Less(u.agent, w) {
      var j :| 0 <= j < |es| && es[j].spec == u;
      assert v[j].spec == u;
    }
    assert Foremost(c, Specs(es), t);
  }

  /** Resolution leaves what failed before alone, and marks losers and those they drag. */
  lemma SettledError(v: seq<Effect>, i: int)
    requires 0 <= i < |v|
    ensures var e := CommitOne(Settle(v, Losers(v), i));
            e.error == if IsLoser(v, i) then Some(LostConflict(Winner(v, v[i].spec.resource, |v|).value))
                       else if v[i].status != Failed && GroupLost(v, Losers(v), v[i].spec.group)
                       then Some(GroupMemberLost(v[i].spec.group))
                       else v[i].error
  {
  }

  lemma ValidatedHasNoError(c: Checks, es: seq<Effect>, i: int)
    requires Fresh(es) && 0 <= i < |es| && ValidateAll(c, es)[i].status == Validated
    ensures ValidateAll(c, es)[i].error == None
  {
  }

  /** Every failed effect carries its explanation, and a committed one no error. */
  lemma PipelineExplains(c: Checks, es: seq<Effect>, i: int)
    requires Fresh(es) && 0 <= i < |es|
    ensures Commits(c, Specs(es), es[i].spec) ==> Pipeline(c, es)[i].error == None
    ensures !Commits(c, Specs(es), es[i].spec)
            ==> Pipeline(c, es)[i].error.Some?
                && Explains(c, Specs(es), es[i].spec, Pipeline(c, es)[i].error.value)
  {
    var v := ValidateAll(c, es);
    forall j | 0 <= j < |es|
      ensures v[j].spec == es[j].spec && (IsLoser(v, j) <==> Loses(c, Specs(es), es[j].spec))
      ensures v[j].status == if Passes(c, Specs(es), es[j].spec) then Validated else Failed
    {
      ValidatedIffPasses(c, es, j);
      LoserIffLoses(c, es, j);
    }
    GroupLostIffDragged(c, es, v, es[i].spec);
    SettledError(v, i);
    assert Pipeline(c, es)[i] == CommitOne(Settle(v, Losers(v), i));
    if v[i].status == Validated {
      ValidatedHasNoError(c, es, i);
      RivalryExplains(c, es, v, i);
    } else {
      ValidationExplains(c, es, i);
    }
  }

  lemma RivalryExplains(c: Checks, es: seq<Effect>, v: seq<Effect>, i: int)
    requires |v| == |es| && 0 <= i < |es| && v[i].status == Validated
    requires forall j :: 0 <= j < |es| ==> v[j].spec == es[j].spec
    requires forall j :: 0 <= j < |es| ==> (v[j].status == Validated <==> Passes(c, Specs(es), es[j].spec))
    requires IsLoser(v, i) <==> Loses(c, Specs(es), es[i].spec)
    ensures IsLoser(v, i)
            ==> Explains(c, Specs(es), es[i].spec, LostConflict(Winner(v, es[i].spec.resource, |v|).value))
    ensures !IsLoser(v, i) && Dragged(c, Specs(es), es[i].spec)
            ==> Explains(c, Specs(es), es[i].spec, GroupMemberLost(es[i].spec.group))
  {
    if IsLoser(v, i) {
      WinnerIsForemostContender(c, es, v, es[i].spec.resource);
    }
  }

  /** The outcome of an effect does not depend on the order of staging. */
  lemma StagingOrderIsIrrelevant(c: Checks, es: seq<Effect>, fs: seq<Effect>, i: int, j: int)
    requires Fresh(es) && Fresh(fs) && Specs(es) == Specs(fs)
    requires 0 <= i < |es| && 0 <= j < |fs| && es[i].spec == fs[j].spec
    ensures Pipeline(c, es)[i].status == Pipeline(c, fs)[j].status
  {
    PipelineCommitsClosedForm(c, es, i);
    PipelineCommitsClosedForm(c, fs, j);
  }

  // ----- the buffer -----

  /** Identifiers grow with staging, committed effects have left the waiting states, and
      only committed external effects wait for delivery. */
  ghost predicate WellKept(es: seq<Effect>, counter: nat, committed: seq<nat>, outbox: seq<nat>) {
    && (forall i, j :: 0 <= i < j < |es| ==> es[i].id < es[j].id)
    && (forall i :: 0 <= i < |es| ==> es[i].id <= counter)
    && AllSettled(es, committed) && AllSent(es, committed, outbox)
  }

  /** Positions whose effects are settled and, in the outbox, also external. */
  ghost predicate AllSettled(es: seq<Effect>, at: seq<nat>) {
    forall k :: k in at ==> k < |es| && es[k].status != Staged && es[k].status != Validated
  }

  ghost predicate AllSent(es: seq<Effect>, committed: seq<nat>, outbox: seq<nat>)
    requires AllSettled(es, committed)
  {
    forall k :: k in outbox ==> k in committed && IsExternal(es[k].spec.kind)
  }

  lemma CommitSettles(es: seq<Effect>, committed: seq<nat>)
    requires AllSettled(es, committed)
    ensures AllSettled(CommitAll(es), committed + Survivors(es, |es|))
  {
    var done, now := Survivors(es, |es|), CommitAll(es);
    SurvivorsAreValidated(es, |es|);
    forall k | k in committed + done ensures k < |es| && now[k].status != Staged && now[k].status != Validated {
      assert k in committed || k in done;
      assert now[k] == CommitOne(es[k]);
    }
  }

  lemma CommitSends(es: seq<Effect>, committed: seq<nat>, outbox: seq<nat>)
    requires AllSettled(es, committed) && AllSent(es, committed, outbox)
    ensures var done := Survivors(es, |es|);
            AllSettled(CommitAll(es), committed + done)
            && AllSent(CommitAll(es), committed + done, outbox + External(es, done))
  {
    var done, now := Survivors(es, |es|), CommitAll(es);
    CommitSettles(es, committed);
    SurvivorsAreValidated(es, |es|);
    ExternalIsFilter(es, done);
    forall k | k in outbox + External(es, done) ensures k in committed + done && IsExternal(now[k].spec.kind) {
      assert k in outbox || k in External(es, done);
      assert now[k] == CommitOne(es[k]);
    }
  }

  lemma CommitKeepsIds(es: seq<Effect>)
    ensures forall k :: 0 <= k < |es| ==> CommitAll(es)[k].id == es[k].id
  {
  }

  lemma CommitKeepsBuffer(es: seq<Effect>, counter: nat, committed: seq<nat>, outbox: seq<nat>)
    requires WellKept(es, counter, committed, outbox)
    ensures var done := Survivors(es, |es|);
            WellKept(CommitAll(es), counter, committed + done, outbox + External(es, done))
  {
    CommitKeepsIds(es);
    CommitSends(es, committed, outbox);
  }

  /** `committed` and `outbox` hold positions in `effects`, as the source's lists hold
      references to the staged objects. */
  class TransactionBuffer {
    var effects: seq<Effect>
    var counter: nat
    var committed: seq<nat>
    var outbox: seq<nat>

    constructor ()
      ensures effects == [] && counter == 0 && committed == [] && outbox == []
    {
      effects, counter, committed, outbox := [], 0, [], [];
    }

    ghost predicate Valid()
      reads this
    {
      WellKept(effects, counter, committed, outbox)
    }

    method Stage(spec: Spec) returns (e: Effect)
      requires Valid()
      modifies this
      ensures Valid()
      ensures counter == old(counter) + 1
      ensures e == Effect(counter, spec, Staged, None) && effects == old(effects) + [e]
      ensures committed == old(committed) && outbox == old(outbox)
    {
      counter := counter + 1;
      e := Effect(counter, spec, Staged, None);
      effects := effects + [e];
    }

    method Validate(c: Checks)
      modifies this`effects
      ensures effects == ValidateAll(c, old(effects))
    {
      var n := |effects|;
      for i := 0 to n
        invariant |effects| == n
        invariant forall k :: 0 <= k < i ==> effects[k] == Judge(c, old(effects)[k])
        invariant forall k :: i <= k < n ==> effects[k] == old(effects)[k]
      {
        effects := effects[i := Judge(c, effects[i])];
      }
      ghost var staged := old(effects);
      ghost var judged := seq(n, k requires 0 <= k < n => Judge(c, staged[k]));
      assert effects == judged;
      var seen: set<string> := {};
      for i := 0 to n
        invariant |effects| == n
        invariant forall k :: 0 <= k < n ==>
                                effects[k] == CascadedIn(judged, seen, k)
        invariant forall k :: 0 <= k < i && Atomic(judged[k].spec) ==> judged[k].spec.group in seen
      {
        var group := effects[i].spec.group;
        if Atomic(effects[i].spec) && group !in seen {
          FailGroup(judged, group, seen);
          seen := seen + {group};
        }
      }
    }

    /** If some member of an atomic group has failed, fail the others. */
    method FailGroup(ghost judged: seq<Effect>, group: string, ghost seen: set<string>)
      requires |effects| == |judged| && group !in seen
      requires forall k :: 0 <= k < |judged| ==>
                             effects[k] == CascadedIn(judged, seen, k)
      modifies this`effects
      ensures |effects| == |judged|
      ensures forall k :: 0 <= k < |judged| ==>
                            effects[k] == CascadedIn(judged, seen + {group}, k)
    {
      if GroupFailed(effects, group) {
        assert GroupFailed(judged, group);
        for i := 0 to |effects|
          invariant |effects| == |judged|
          invariant forall k :: 0 <= k < |judged| ==>
                                  effects[k] == CascadedIn(judged, if k < i then seen + {group} else seen, k)
        {
          var e := effects[i];
          if Atomic(e.spec) && e.spec.group == group && e.status != Failed {
            effects := effects[i := e.(status := Failed, error := Some(GroupMemberFailed(group)))];
          }
        }
      } else {
        assert !GroupFailed(judged, group) by {
          forall i | 0 <= i < |judged| && Atomic(judged[i].spec) && judged[i].spec.group == group
            ensures judged[i].status != Failed
          {
            assert effects[i] == judged[i];
          }
        }
      }
    }

    method ResolveConflicts()
      modifies this`effects
      ensures effects == ResolveAll(old(effects))
    {
      var es := effects; // the effects as grouped by resource before any loser is marked
      var settled: set<string> := {};
      ghost var lost: set<int> := {};
      for i := 0 to |es|
        invariant |effects| == |es|
        invariant lost == set k | 0 <= k < |es| && IsLoser(es, k) && es[k].spec.resource in settled
        invariant forall k :: 0 <= k < |es| ==> effects[k] == Settle(es, lost, k)
        invariant forall k :: 0 <= k < i && es[k].status == Validated ==> es[k].spec.resource in settled
      {
        var resource := es[i].spec.resource;
        if es[i].status == Validated && resource !in settled {
          ResolveResource(es, resource, lost);
          settled := settled + {resource};
          lost := set k | 0 <= k < |es| && IsLoser(es, k) && es[k].spec.resource in settled;
        }
      }
      assert lost == Losers(es);
    }

    /** Fail the effects on one resource of every agent but the foremost, each with its
        atomic group. */
    method ResolveResource(es: seq<Effect>, resource: string, ghost lost: set<int>)
      requires |effects| == |es|
      requires forall k :: k in lost ==> IsLoser(es, k)
      requires forall k :: 0 <= k < |es| ==> effects[k] == Settle(es, lost, k)
      modifies this`effects
      ensures |effects| == |es|
      ensures var now := lost + set k | 0 <= k < |es| && IsLoser(es, k) && es[k].spec.resource == resource;
              forall k :: 0 <= k < |es| ==> effects[k] == Settle(es, now, k)
    {
      var winner := Winner(es, resource, |es|);
      ghost var now := lost;
      for i := 0 to |es|
        invariant |effects| == |es|
        invariant now == lost + set k | 0 <= k < i && IsLoser(es, k) && es[k].spec.resource == resource
        invariant forall k :: 0 <= k < |es| ==> effects[k] == Settle(es, now, k)
      {
        if es[i].status == Validated && es[i].spec.resource == resource && winner.Some?
           && winner.value != es[i].spec.agent {
          MarkLoser(es, i, winner.value, now);
          now := now + {i};
        }
      }
    }

    method MarkLoser(es: seq<Effect>, i: nat, winner: string, ghost lost: set<int>)
      requires |effects| == |es| && IsLoser(es, i) && Winner(es, es[i].spec.resource, |es|) == Some(winner)
      requires forall k :: k in lost ==> IsLoser(es, k)
      requires forall k :: 0 <= k < |es| ==> effects[k] == Settle(es, lost, k)
      modifies this`effects
      ensures |effects| == |es|
      ensures forall k :: 0 <= k < |es| ==> effects[k] == Settle(es, lost + {i}, k)
    {
      ghost var now := lost + {i};
      effects := effects[i := effects[i].(status := Failed, error := Some(LostConflict(winner)))];
      var group := es[i].spec.group;
      assert forall g :: GroupLost(es, now, g) <==> GroupLost(es, lost, g) || (Atomic(es[i].spec) && g == group);
      if Atomic(es[i].spec) {
        for m := 0 to |es|
          invariant |effects| == |es|
          invariant forall k :: 0 <= k < |es| ==>
                                  effects[k] == if k < m || k == i then Settle(es, now, k) else Settle(es, lost, k)
        {
          var e := effects[m];
          if e.spec.group == group && e.status != Failed {
            effects := effects[m := e.(status := Failed, error := Some(GroupMemberLost(group)))];
          }
        }
      }
    }

    method Commit() returns (done: seq<nat>)
      requires Valid()
      modifies this`effects, this`committed, this`outbox
      ensures Valid()
      ensures effects == CommitAll(old(effects))
      ensures done == Survivors(old(effects), |old(effects)|)
      ensures committed == old(committed) + done
      ensures outbox == old(outbox) + External(old(effects), done)
    {
      done := [];
      ghost var es := effects;
      for i := 0 to |effects|
        invariant |effects| == |es|
        invariant forall k :: 0 <= k < i ==> effects[k] == CommitOne(es[k])
        invariant forall k :: i <= k < |es| ==> effects[k] == es[k]
        invariant done == Survivors(es, i)
        invariant committed == old(committed) + done && outbox == old(outbox) + External(es, done)
      {
        if effects[i].status == Validated {
          ExternalAppend(es, done, i);
          CommitAt(i);
          done := done + [i];
        }
      }
      assert effects == CommitAll(es);
      CommitKeepsBuffer(es, counter, old(committed), old(outbox));
    }

    method CommitAt(i: nat)
      requires i < |effects|
      modifies this`effects, this`committed, this`outbox
      ensures effects == old(effects)[i := old(effects)[i].(status := Committed)]
      ensures committed == old(committed) + [i]
      ensures outbox == old(outbox) + if IsExternal(old(effects)[i].spec.kind) then [i] else []
    {
      effects := effects[i := effects[i].(status := Committed)];
      committed := committed + [i];
      if IsExternal(effects[i].spec.kind) {
        outbox := outbox + [i];
      }
    }

    method Rollback()
      requires Valid()
      modifies this`effects, this`committed, this`outbox
      ensures Valid() && committed == [] && outbox == []
      ensures |effects| == |old(effects)|
      ensures forall k :: 0 <= k < |effects| ==>
                            effects[k] == if k in old(committed) then Undone(old(effects)[k]) else old(effects)[k]
    {
      for m := 0 to |committed|
        invariant |effects| == |old(effects)| && committed == old(committed)
        invariant forall k :: 0 <= k < |effects| ==>
                                effects[k] == if k in committed[..m] then Undone(old(effects)[k]) else old(effects)[k]
      {
        var k := committed[m];
        assert k in old(committed);
        effects := effects[k := Undone(effects[k])];
      }
      assert committed[..|committed|] == committed;
      committed, outbox := [], [];
    }
  }

  /** One tick on a fresh buffer: an effect ends committed exactly when the closed form
      says so, and only committed external effects wait in the outbox. */
  method CommitTick(buffer: TransactionBuffer, c: Checks)
    requires buffer.Valid() && Fresh(buffer.effects) && buffer.committed == buffer.outbox == []
    modifies buffer
    ensures buffer.Valid() && |buffer.effects| == |old(buffer.effects)|
    ensures forall i :: 0 <= i < |buffer.effects| ==>
                          && buffer.effects[i].spec == old(buffer.effects)[i].spec
                          && buffer.effects[i].status ==
                             if Commits(c, Specs(old(buffer.effects)), old(buffer.effects)[i].spec)
                             then Committed else Failed
    ensures forall i :: i in buffer.committed <==> 0 <= i < |buffer.effects| && buffer.effects[i].status == Committed
    ensures forall i :: i in buffer.outbox
                        <==> i in buffer.committed
                             && buffer.effects[i].spec.kind
                                in {EmailSend, EmailDeliver, FileWrite, FilePatch, FileDelete}
    ensures FailuresExplained(c, old(buffer.effects), buffer.effects)
  {
    ghost var staged := buffer.effects;
    buffer.Validate(c);
    buffer.ResolveConflicts();
    PipelineKeepsIds(c, staged);
    var done := buffer.Commit();
    TickOutcome(c, staged);
    TickExplains(c, staged);
    CommitOutcome(ResolveAll(ValidateAll(c, staged)));
  }

  /** Whatever failed carries the true reason. */
  ghost predicate FailuresExplained(c: Checks, staged: seq<Effect>, done: seq<Effect>) {
    forall i :: 0 <= i < |done| && done[i].status == Failed
                ==> done[i].error.Some? && Explains(c, Specs(staged), done[i].spec, done[i].error.value)
  }

  lemma TickExplains(c: Checks, staged: seq<Effect>)
    requires Fresh(staged)
    ensures FailuresExplained(c, staged, Pipeline(c, staged))
  {
    var done := Pipeline(c, staged);
    forall i | 0 <= i < |done| && done[i].status == Failed
      ensures done[i].error.Some? && Explains(c, Specs(staged), done[i].spec, done[i].error.value)
    {
      PipelineCommitsClosedForm(c, staged, i);
      PipelineExplains(c, staged, i);
    }
  }

  lemma CommitOutcome(es: seq<Effect>)
    requires forall i :: 0 <= i < |es| ==> es[i].status != Committed
    ensures var done, r := Survivors(es, |es|), CommitAll(es);
            && (forall i :: i in done <==> 0 <= i < |r| && r[i].status == Committed)
            && (forall i :: i in External(es, done) <==> i in done && IsExternal(r[i].spec.kind))
  {
    var done, r := Survivors(es, |es|), CommitAll(es);
    SurvivorsAreValidated(es, |es|);
    ExternalIsFilter(es, done);
    assert forall i :: 0 <= i < |r| ==> r[i] == CommitOne(es[i]);
  }

  lemma TickOutcome(c: Checks, staged: seq<Effect>)
    requires Fresh(staged)
    ensures forall i :: 0 <= i < |staged| ==>
                          && Pipeline(c, staged)[i].spec == staged[i].spec
                          && Pipeline(c, staged)[i].status ==
                             if Commits(c, Specs(staged), staged[i].spec) then Committed else Failed
    ensures forall i :: 0 <= i < |staged| ==> ResolveAll(ValidateAll(c, staged))[i].status != Committed
  {
    forall i | 0 <= i < |staged|
      ensures Pipeline(c, staged)[i].spec == staged[i].spec
      ensures Pipeline(c, staged)[i].status == if Commits(c, Specs(staged), staged[i].spec) then Committed else Failed
      ensures ResolveAll(ValidateAll(c, staged))[i].status != Committed
    {
      ResolvedClosedForm(c, staged, i);
      PipelineCommitsClosedForm(c, staged, i);
    }
  }

  lemma PipelineKeepsIds(c: Checks, es: seq<Effect>)
    ensures var r := ResolveAll(ValidateAll(c, es));
            forall i :: 0 <= i < |es| ==> r[i].id == es[i].id && r[i].spec == es[i].spec
  {
  }
}
