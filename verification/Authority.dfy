/** Adjudication of decision claims: graded grants of authority over a domain, tiers of
    context specificity, vetoes, and the composition rules for several final holders. */
module Authority {
  import opened Common
  import opened Conditions
  import opened JsonValues

  // ----- grants and requests -----

  datatype Strength = Final | Veto | Consult | NoStrength
  datatype Composition = Priority | Joint | Threshold
  datatype Trigger = OnUnresolved | OnBreach | OnException
  datatype Mode = Arbitrate | Transfer | Advise
  datatype Escalation = Escalation(on: Trigger, mode: Mode, target: string)

  type Domain(==) = string

  datatype Grant = Grant(
    subject: string,
    domain: Domain,
    context: Option<string>,
    strength: Strength,
    composition: Option<Composition>,
    conditions: seq<Condition>,
    escalation: Option<Escalation>,
    priority: int,
    threshold: int)

  datatype Request = Request(
    subject: string,
    domain: Domain,
    context: Option<string>,
    facts: Facts,
    consenting: set<string>,
    exceptional: bool)

  function Specificity(granted: Option<string>, asked: Option<string>): nat {
    if granted.None? then 1
    else if asked.None? then 0
    else if granted == asked then 3
    else if |granted.value| > 0 && granted.value[|granted.value| - 1] == '*'
            && granted.value[..|granted.value| - 1] <= asked.value then 2
    else 0
  }

  predicate Effective(g: Grant, facts: Facts) {
    forall i :: 0 <= i < |g.conditions| ==> Holds(g.conditions[i], facts).True?
  }

  /** How a grant's context covers the one asked about: exactly (3), by a stem before a final
      asterisk (2), or because the grant is for every context (1). */
  ghost predicate Covers(granted: Option<string>, asked: Option<string>, k: int) {
    || (k == 3 && granted.Some? && granted == asked)
    || (k == 2 && granted.Some? && asked.Some? && granted != asked
        && exists stem: string :: granted.value == stem + "*" && stem <= asked.value)
    || (k == 1 && granted.None?)
  }

  lemma SpecificityIsCoverage(granted: Option<string>, asked: Option<string>, k: int)
    ensures Covers(granted, asked, k) <==> k > 0 && Specificity(granted, asked) == k
  {
    if granted.Some? && asked.Some? && granted != asked {
      if |granted.value| > 0 && granted.value[|granted.value| - 1] == '*' {
        var stem := granted.value[..|granted.value| - 1];
        assert granted.value == stem + "*";
      }
      if stem: string :| granted.value == stem + "*" && stem <= asked.value {
        assert granted.value[..|granted.value| - 1] == stem;
      }
    }
  }

  lemma EffectiveIffAllMet(g: Grant, facts: Facts)
    ensures Effective(g, facts) <==> forall c :: c in g.conditions ==> Meets(c, facts)
  {
    forall c ensures Holds(c, facts).True? <==> Meets(c, facts) {
      HoldsIffMet(c, facts);
    }
    assert forall c :: c in g.conditions <==> exists i :: 0 <= i < |g.conditions| && g.conditions[i] == c;
  }

  function Consent(req: Request): set<string> {
    req.consenting + {req.subject}
  }

  // ----- results -----

  datatype State = Allowed | Blocked | Unresolved | Waiting

  /** Who decided; the source renders the sets as sorted, comma-separated names. */
  datatype Winner = Holder(subject: string) | Jointly(subjects: set<string>) | ByThreshold(subjects: set<string>)

  datatype Ruling = Ruling(state: State, winner: Option<Winner>)

  datatype Decision = Decision(
    ruling: Ruling,
    matched: seq<Grant>,
    vetoes: seq<Grant>,
    finals: seq<Grant>,
    consults: seq<Grant>,
    escalation: Option<Escalation>)

  // ----- filtering -----

  function Filter<T(!new)>(s: seq<T>, keep: T -> bool): (r: seq<T>)
    ensures forall x :: x in r <==> x in s && keep(x)
  {
    if s == [] then []
    else if keep(s[0]) then [s[0]] + Filter(s[1..], keep)
    else Filter(s[1..], keep)
  }

  lemma {:induction false} FilterAppends<T(!new)>(s: seq<T>, t: seq<T>, keep: T -> bool)
    ensures Filter(s + t, keep) == Filter(s, keep) + Filter(t, keep)
  {
    if s == [] {
      assert s + t == t;
    } else {
      assert (s + t)[1..] == s[1..] + t;
      FilterAppends(s[1..], t, keep);
    }
  }

  lemma {:induction false} FilterTwice<T(!new)>(s: seq<T>, first: T -> bool, second: T -> bool, both: T -> bool)
    requires forall x :: both(x) <==> first(x) && second(x)
    ensures Filter(Filter(s, first), second) == Filter(s, both)
  {
    if s != [] {
      FilterTwice(s[1..], first, second, both);
    }
  }

  lemma {:induction false} FilterAgrees<T(!new)>(s: seq<T>, p: T -> bool, q: T -> bool)
    requires forall x :: x in s ==> p(x) == q(x)
    ensures Filter(s, p) == Filter(s, q)
  {
    if s != [] {
      FilterAgrees(s[1..], p, q);
    }
  }

  lemma {:induction false} FilterCounts<T(!new)>(s: seq<T>, keep: T -> bool, x: T)
    ensures multiset(Filter(s, keep))[x] == if keep(x) then multiset(s)[x] else 0
  {
    if s != [] {
      assert s == [s[0]] + s[1..];
      FilterCounts(s[1..], keep, x);
    }
  }

  lemma FilterOfPermutation<T(!new)>(s: seq<T>, t: seq<T>, keep: T -> bool)
    requires multiset(s) == multiset(t)
    ensures multiset(Filter(s, keep)) == multiset(Filter(t, keep))
  {
    forall x ensures multiset(Filter(s, keep))[x] == multiset(Filter(t, keep))[x] {
      FilterCounts(s, keep, x);
      FilterCounts(t, keep, x);
    }
  }

  // ----- the algorithm -----

  /** The grant takes part in the decision at tier `k`: it is on the domain, covers the context
      that closely, and each of its conditions is met. */
  ghost predicate Binds(req: Request, g: Grant, k: int) {
    g.domain == req.domain && Covers(g.context, req.context, k)
    && forall c :: c in g.conditions ==> Meets(c, req.facts)
  }

  ghost function Binding(req: Request, gs: seq<Grant>, k: int, strength: Strength): (r: seq<Grant>)
    ensures forall g :: g in r <==> g in gs && Binds(req, g, k) && g.strength == strength
  {
    Filter(gs, (g: Grant) => Binds(req, g, k) && g.strength == strength)
  }

  function Matching(req: Request, gs: seq<Grant>): seq<Grant> {
    Filter(gs, (g: Grant) => g.domain == req.domain)
  }

  function EscalationFor(gs: seq<Grant>, trigger: Trigger, req: Request): Option<Escalation> {
    FirstEscalation(gs, if req.exceptional then OnException else trigger)
  }

  function FirstEscalation(gs: seq<Grant>, trigger: Trigger): Option<Escalation> {
    if gs == [] then None
    else if gs[0].escalation.Some? && gs[0].escalation.value.on == trigger then gs[0].escalation
    else FirstEscalation(gs[1..], trigger)
  }

  function ByHolder(req: Request, holder: Grant): Ruling {
    if req.subject == holder.subject then Ruling(Allowed, Some(Holder(holder.subject)))
    else Ruling(Waiting, None)
  }

  function TopPriority(finals: seq<Grant>): (top: int)
    requires finals != []
    ensures exists f :: f in finals && f.priority == top
    ensures forall f :: f in finals ==> f.priority <= top
  {
    if |finals| == 1 then
      assert finals[0] in finals; finals[0].priority
    else
      var rest := TopPriority(finals[1..]);
      assert finals[0] in finals;
      if finals[0].priority > rest then finals[0].priority else rest
  }

  function Best(finals: seq<Grant>): (best: seq<Grant>)
    requires finals != []
    ensures best != []
  {
    Filter(finals, (f: Grant) => f.priority == TopPriority(finals))
  }

  function Subjects(finals: seq<Grant>): set<string> {
    set f | f in finals :: f.subject
  }

  /** The declared threshold, but at least one. */
  function Quota(f: Grant): (quota: int)
    ensures quota >= 1 && quota >= f.threshold && (quota == 1 || quota == f.threshold)
  {
    if f.threshold > 1 then f.threshold else 1
  }

  function Compositions(finals: seq<Grant>): set<Option<Composition>> {
    set f | f in finals :: f.composition
  }

  /** What the finals of one tier decide among themselves. */
  function Decide(req: Request, finals: seq<Grant>): Ruling
    requires finals != []
  {
    if |finals| == 1 then ByHolder(req, finals[0])
    else if None in Compositions(finals) || |Compositions(finals)| > 1 then Ruling(Unresolved, None)
    else
      match finals[0].composition.value
      case Priority =>
        if |Best(finals)| > 1 then Ruling(Unresolved, None) else ByHolder(req, Best(finals)[0])
      case Joint =>
        if Subjects(finals) - Consent(req) != {} then Ruling(Waiting, None)
        else Ruling(Allowed, Some(Jointly(Subjects(finals))))
      case Threshold =>
        var consented := Consent(req) * Subjects(finals);
        if |consented| < Quota(finals[0]) then Ruling(Waiting, None)
        else Ruling(Allowed, Some(ByThreshold(consented)))
  }

  /** Tiers `k`, `k - 1`, ..., 1 in turn, with the consultations heard so far. */
  ghost function Descend(req: Request, gs: seq<Grant>, k: nat, heard: seq<Grant>): Decision {
    var matched := Matching(req, gs);
    if k == 0 then
      Decision(Ruling(Unresolved, None), matched, [], [], heard, EscalationFor(matched, OnUnresolved, req))
    else
      var vetoes := Binding(req, gs, k, Veto);
      var finals := Binding(req, gs, k, Final);
      var consults := heard + Binding(req, gs, k, Consult);
      if vetoes != [] then
        Decision(Ruling(Blocked, None), matched, vetoes, [], heard, EscalationFor(vetoes, OnBreach, req))
      else if finals == [] then Descend(req, gs, k - 1, consults)
      else
        var ruling := Decide(req, finals);
        Decision(ruling, matched, [], finals, consults,
                 if ruling.state.Unresolved? then EscalationFor(matched, OnUnresolved, req) else None)
  }

  ghost function Resolved(req: Request, gs: seq<Grant>): Decision {
    Descend(req, gs, 3, [])
  }

  // ----- the imperative form -----

  function Bucket(tiers: map<nat, seq<Grant>>, k: nat): seq<Grant> {
    if k in tiers then tiers[k] else []
  }

  function InTier(req: Request, gs: seq<Grant>, k: nat): seq<Grant> {
    Filter(gs, (g: Grant) => Specificity(g.context, req.context) == k)
  }

  lemma InTierGrows(req: Request, gs: seq<Grant>, g: Grant, k: nat)
    ensures InTier(req, gs + [g], k)
            == if k == Specificity(g.context, req.context) then InTier(req, gs, k) + [g] else InTier(req, gs, k)
  {
    FilterAppends(gs, [g], (g: Grant) => Specificity(g.context, req.context) == k);
  }

  method MakeTiers(req: Request, gs: seq<Grant>) returns (tiers: map<nat, seq<Grant>>)
    ensures forall k :: k in tiers ==> 1 <= k <= 3
    ensures forall k: nat :: 1 <= k <= 3 ==> Bucket(tiers, k) == InTier(req, gs, k)
  {
    tiers := map[];
    for i := 0 to |gs|
      invariant forall k :: k in tiers ==> 1 <= k <= 3
      invariant forall k: nat :: 1 <= k <= 3 ==> Bucket(tiers, k) == InTier(req, gs[..i], k)
    {
      var spec := Specificity(gs[i].context, req.context);
      assert gs[..i + 1] == gs[..i] + [gs[i]];
      forall k: nat ensures InTier(req, gs[..i + 1], k)
             == if k == spec then InTier(req, gs[..i], k) + [gs[i]] else InTier(req, gs[..i], k) {
        InTierGrows(req, gs[..i], gs[i], k);
      }
      if spec > 0 {
        ghost var before := tiers;
        tiers := tiers[spec := Bucket(tiers, spec) + [gs[i]]];
        assert forall k: nat :: Bucket(tiers, k)
                                == if k == spec then Bucket(before, k) + [gs[i]] else Bucket(before, k);
      }
      assert forall k: nat :: 1 <= k <= 3 ==> Bucket(tiers, k) == InTier(req, gs[..i + 1], k);
    }
    assert gs[..|gs|] == gs;
  }

  lemma BindingByStages(req: Request, gs: seq<Grant>, k: nat, strength: Strength)
    requires k > 0
    ensures var effective := Filter(InTier(req, Matching(req, gs), k), (g: Grant) => Effective(g, req.facts));
            Filter(effective, (g: Grant) => g.strength == strength) == Binding(req, gs, k, strength)
  {
    var inDomain := (g: Grant) => g.domain == req.domain;
    var atTier := (g: Grant) => Specificity(g.context, req.context) == k;
    var live := (g: Grant) => Effective(g, req.facts);
    var strong := (g: Grant) => g.strength == strength;
    forall g ensures Binds(req, g, k) <==> g.domain == req.domain && atTier(g) && live(g) {
      SpecificityIsCoverage(g.context, req.context, k);
      EffectiveIffAllMet(g, req.facts);
    }
    var two := (g: Grant) => inDomain(g) && atTier(g);
    var three := (g: Grant) => Binds(req, g, k);
    FilterTwice(gs, inDomain, atTier, two);
    FilterTwice(gs, two, live, three);
    FilterTwice(gs, three, strong, (g: Grant) => Binds(req, g, k) && g.strength == strength);
  }

  /** The effective vetoes, finals and consultations of one tier. */
  method HearTier(req: Request, ghost gs: seq<Grant>, tier: seq<Grant>, ghost k: nat)
    returns (vetoes: seq<Grant>, finals: seq<Grant>, consults: seq<Grant>)
    requires k > 0 && tier == InTier(req, Matching(req, gs), k)
    ensures vetoes == Binding(req, gs, k, Veto)
    ensures finals == Binding(req, gs, k, Final)
    ensures consults == Binding(req, gs, k, Consult)
  {
    var effective := Filter(tier, (g: Grant) => Effective(g, req.facts));
    vetoes := Filter(effective, (g: Grant) => g.strength == Veto);
    finals := Filter(effective, (g: Grant) => g.strength == Final);
    consults := Filter(effective, (g: Grant) => g.strength == Consult);
    BindingByStages(req, gs, k, Veto);
    BindingByStages(req, gs, k, Final);
    BindingByStages(req, gs, k, Consult);
  }

  lemma EmptyTierFallsThrough(req: Request, gs: seq<Grant>, k: nat, heard: seq<Grant>)
    requires k > 0 && InTier(req, Matching(req, gs), k) == []
    ensures Descend(req, gs, k, heard) == Descend(req, gs, k - 1, heard)
  {
    BindingByStages(req, gs, k, Veto);
    BindingByStages(req, gs, k, Final);
    BindingByStages(req, gs, k, Consult);
    assert heard + [] == heard;
  }

  method Resolve(req: Request, gs: seq<Grant>) returns (d: Decision)
    ensures d == Resolved(req, gs)
  {
    var matched := Matching(req, gs);
    var tiers := MakeTiers(req, matched);
    var heard: seq<Grant> := [];
    var k: nat := 3;
    while k > 0
      invariant k <= 3
      invariant Descend(req, gs, k, heard) == Resolved(req, gs)
    {
      assert Bucket(tiers, k) == InTier(req, matched, k);
      if k in tiers {
        var vetoes, finals, consults := HearTier(req, gs, tiers[k], k);
        if vetoes != [] {
          return Decision(Ruling(Blocked, None), matched, vetoes, [], heard, EscalationFor(vetoes, OnBreach, req));
        }
        heard := heard + consults;
        if finals != [] {
          var ruling := Decide(req, finals);
          return Decision(ruling, matched, [], finals, heard,
                          if ruling.state.Unresolved? then EscalationFor(matched, OnUnresolved, req) else None);
        }
      } else {
        EmptyTierFallsThrough(req, gs, k, heard);
      }
      k := k - 1;
    }
    d := Decision(Ruling(Unresolved, None), matched, [], [], heard, EscalationFor(matched, OnUnresolved, req));
  }

  // ----- the rule it computes -----

  ghost predicate Composed(finals: multiset<Grant>, c: Composition) {
    forall f :: f in finals ==> f.composition == Some(c)
  }

  /** `f` alone decides: it is the only final, or the strict maximum of a priority order. */
  ghost predicate SoleDecider(finals: multiset<Grant>, f: Grant) {
    finals[f] == 1 &&
    (|finals| == 1 ||
     (Composed(finals, Priority) && forall g :: g in finals && g != f ==> g.priority < f.priority))
  }

  /** The declared rule: an order-free function of the bag of finals and the quota. */
  ghost function Rule(req: Request, vetoed: bool, finals: multiset<Grant>, quota: int): Ruling {
    var holders := set f | f in finals :: f.subject;
    var agreed := (req.consenting + {req.subject}) * holders;
    if vetoed then Ruling(Blocked, None)
    else if exists f :: SoleDecider(finals, f) then
      var f :| SoleDecider(finals, f);
      if f.subject == req.subject then Ruling(Allowed, Some(Holder(f.subject))) else Ruling(Waiting, None)
    else if |finals| > 0 && Composed(finals, Joint) then
      if holders <= req.consenting + {req.subject} then Ruling(Allowed, Some(Jointly(holders))) else Ruling(Waiting,
         None)
    else if |finals| > 0 && Composed(finals, Threshold) then
      if |agreed| >= quota then Ruling(Allowed, Some(ByThreshold(agreed))) else Ruling(Waiting, None)
    else Ruling(Unresolved, None)
  }

  /** Some effective veto or final speaks at tier `k`. */
  ghost predicate Speaks(req: Request, gs: seq<Grant>, k: int) {
    exists g :: g in gs && Binds(req, g, k) && (g.strength.Veto? || g.strength.Final?)
  }

  ghost predicate DecidingTier(req: Request, gs: seq<Grant>, k: int) {
    1 <= k <= 3 && Speaks(req, gs, k) && forall j :: k < j <= 3 ==> !Speaks(req, gs, j)
  }

  ghost function FirstQuota(finals: seq<Grant>): int {
    if finals == [] then 1 else Quota(finals[0])
  }

  ghost function TierRule(req: Request, gs: seq<Grant>, k: int): Ruling {
    Rule(req, Binding(req, gs, k, Veto) != [], multiset(Binding(req, gs, k, Final)),
        FirstQuota(Binding(req, gs, k, Final)))
  }

  lemma OneComposition(finals: seq<Grant>)
    requires |finals| > 0
    ensures (None in Compositions(finals) || |Compositions(finals)| > 1)
            <==> !(finals[0].composition.Some? && Composed(multiset(finals), finals[0].composition.value))
  {
    var first := finals[0].composition;
    assert first in Compositions(finals);
    if |Compositions(finals)| <= 1 {
      assert |Compositions(finals) - {first}| == 0;
      forall f | f in finals ensures f.composition == first {
        assert f.composition in Compositions(finals);
        assert f.composition !in Compositions(finals) - {first};
      }
    }
    if first.Some? && Composed(multiset(finals), first.value) {
      assert forall f :: f in finals ==> f in multiset(finals);
      assert Compositions(finals) == {first};
    }
  }

  lemma OnceMeansAlone<T>(s: seq<T>, x: T)
    requires forall y :: y in s ==> y == x
    requires multiset(s)[x] == 1
    ensures s == [x]
  {
    assert s != [];
    assert s == [s[0]] + s[1..] && s[0] in s;
    assert forall y :: y in s[1..] ==> y in multiset(s[1..]) && y in s;
  }

  /** The strict maximum of a priority order is the one grant of highest priority. */
  lemma SoleDeciderIsBest(finals: seq<Grant>, keep: Grant -> bool, top: int, f: Grant)
    requires |finals| > 1 && SoleDecider(multiset(finals), f)
    requires exists leader :: leader in finals && leader.priority == top
    requires forall g :: g in finals ==> g.priority <= top
    requires forall g :: keep(g) <==> g.priority == top
    ensures Filter(finals, keep) == [f]
  {
    var bag := multiset(finals);
    var leader :| leader in finals && leader.priority == top;
    assert f.priority == top by {
      assert leader in bag && f in bag;
    }
    var best := Filter(finals, keep);
    forall g | g in best ensures g == f {
      assert g in bag;
    }
    FilterCounts(finals, keep, f);
    OnceMeansAlone(best, f);
  }

  lemma LoneBestIsSoleDecider(finals: seq<Grant>, keep: Grant -> bool, top: int, f: Grant)
    requires Composed(multiset(finals), Priority)
    requires forall g :: g in finals ==> g.priority <= top
    requires forall g :: keep(g) <==> g.priority == top
    requires Filter(finals, keep) == [f]
    ensures SoleDecider(multiset(finals), f)
  {
    FilterCounts(finals, keep, f);
    assert f in Filter(finals, keep);
    forall g | g in multiset(finals) && g != f ensures g.priority < f.priority {
      assert g in finals && g !in Filter(finals, keep);
    }
  }

  lemma BestIsSoleDecider(finals: seq<Grant>)
    requires |finals| > 1 && Composed(multiset(finals), Priority)
    ensures |Best(finals)| == 1 ==> SoleDecider(multiset(finals), Best(finals)[0])
    ensures forall f :: SoleDecider(multiset(finals), f) ==> Best(finals) == [f]
  {
    var top := TopPriority(finals);
    var keep := (f: Grant) => f.priority == TopPriority(finals);
    if |Best(finals)| == 1 {
      LoneBestIsSoleDecider(finals, keep, top, Best(finals)[0]);
    }
    forall f | SoleDecider(multiset(finals), f) ensures Best(finals) == [f] {
      SoleDeciderIsBest(finals, keep, top, f);
    }
  }

  lemma PriorityFollowsRule(req: Request, finals: seq<Grant>)
    requires |finals| > 1 && Composed(multiset(finals), Priority) && finals[0].composition == Some(Priority)
    requires None !in Compositions(finals) && |Compositions(finals)| == 1
    ensures Decide(req, finals) == Rule(req, false, multiset(finals), Quota(finals[0]))
  {
    BestIsSoleDecider(finals);
    assert finals[0] in multiset(finals);
  }

  lemma ConsentFollowsRule(req: Request, finals: seq<Grant>, c: Composition)
    requires |finals| > 1 && Composed(multiset(finals), c) && finals[0].composition == Some(c) && !c.Priority?
    requires None !in Compositions(finals) && |Compositions(finals)| == 1
    ensures Decide(req, finals) == Rule(req, false, multiset(finals), Quota(finals[0]))
  {
    var bag := multiset(finals);
    assert finals[0] in bag;
    assert forall d | Composed(bag, d) :: d == c;
    assert !exists f :: SoleDecider(bag, f);
    assert Subjects(finals) == set f | f in bag :: f.subject;
    assert Subjects(finals) - Consent(req) == {} <==> Subjects(finals) <= Consent(req);
  }

  lemma DecideFollowsRule(req: Request, finals: seq<Grant>)
    requires finals != []
    ensures Decide(req, finals) == Rule(req, false, multiset(finals), Quota(finals[0]))
  {
    var bag := multiset(finals);
    var first := finals[0];
    assert first in bag;
    OneComposition(finals);
    if |finals| == 1 {
      assert finals == [first];
      assert SoleDecider(bag, first);
    } else if first.composition.None? || !Composed(bag, first.composition.value) {
      assert forall c | Composed(bag, c) :: first.composition == Some(c);
    } else {
      assert first.composition in Compositions(finals);
      if first.composition.value.Priority? {
        PriorityFollowsRule(req, finals);
      } else {
        ConsentFollowsRule(req, finals, first.composition.value);
      }
    }
  }

  // ----- main results -----

  /** The most specific tier with an effective veto or final decides, by the declared
      rule; without such a tier the claim is unresolved. */
  lemma ResolveFollowsRule(req: Request, gs: seq<Grant>)
    ensures forall k :: DecidingTier(req, gs, k) ==> Resolved(req, gs).ruling == TierRule(req, gs, k)
    ensures (forall k :: !DecidingTier(req, gs, k)) ==> Resolved(req, gs).ruling == Ruling(Unresolved, None)
  {
    if k :| DecidingTier(req, gs, k) {
      DescendToTier(req, gs, 3, [], k);
    } else {
      forall k ensures 1 <= k <= 3 ==> !Speaks(req, gs, k) {
        NoDecidingTier(req, gs, k);
      }
      DescendToTier(req, gs, 3, [], 0);
    }
  }

  lemma SilentTier(req: Request, gs: seq<Grant>, k: int)
    ensures Speaks(req, gs, k) <==> Binding(req, gs, k, Veto) != [] || Binding(req, gs, k, Final) != []
  {
    var vetoes, finals := Binding(req, gs, k, Veto), Binding(req, gs, k, Final);
    if vetoes != [] {
      assert vetoes[0] in vetoes;
    } else if finals != [] {
      assert finals[0] in finals;
    }
  }

  lemma SpeakingTierDecides(req: Request, gs: seq<Grant>, k: nat, heard: seq<Grant>)
    requires k > 0 && Speaks(req, gs, k)
    ensures Descend(req, gs, k, heard).ruling == TierRule(req, gs, k)
  {
    SilentTier(req, gs, k);
    if Binding(req, gs, k, Veto) == [] {
      DecideFollowsRule(req, Binding(req, gs, k, Final));
    }
  }

  lemma {:induction false} DescendToTier(req: Request, gs: seq<Grant>, k: nat, heard: seq<Grant>, j: nat)
    requires j <= k && (j > 0 ==> Speaks(req, gs, j)) && forall i :: j < i <= k ==> !Speaks(req, gs, i)
    ensures Descend(req, gs, k, heard).ruling == if j == 0 then Ruling(Unresolved, None) else TierRule(req, gs, j)
  {
    if j < k {
      SilentTier(req, gs, k);
      DescendToTier(req, gs, k - 1, heard + Binding(req, gs, k, Consult), j);
    } else if j > 0 {
      SpeakingTierDecides(req, gs, k, heard);
    }
  }

  // ----- what the decision reports -----

  ghost predicate DeclaresFor(g: Grant, on: Trigger) {
    g.escalation.Some? && g.escalation.value.on == on
  }

  /** The escalation of the first grant that has one for this trigger. */
  ghost predicate EscalatesBy(gs: seq<Grant>, on: Trigger, result: Option<Escalation>) {
    if result.None? then forall g :: g in gs ==> !DeclaresFor(g, on)
    else exists i :: 0 <= i < |gs| && DeclaresFor(gs[i], on) && gs[i].escalation == result
                     && forall j :: 0 <= j < i ==> !DeclaresFor(gs[j], on)
  }

  lemma {:induction false} FirstEscalationIsFirst(gs: seq<Grant>, on: Trigger)
    ensures EscalatesBy(gs, on, FirstEscalation(gs, on))
  {
    if gs != [] && !DeclaresFor(gs[0], on) {
      FirstEscalationIsFirst(gs[1..], on);
      var result := FirstEscalation(gs[1..], on);
      if result.Some? {
        var i :| 0 <= i < |gs[1..]| && DeclaresFor(gs[1..][i], on) && gs[1..][i].escalation == result
                 && forall j :: 0 <= j < i ==> !DeclaresFor(gs[1..][j], on);
        assert gs[i + 1] == gs[1..][i];
        assert forall j :: 0 < j < i + 1 ==> gs[j] == gs[1..][j - 1];
      }
    }
  }

  /** Which trigger escalates: a flagged exception overrides the one the ruling calls for. */
  ghost function Calls(req: Request, ruling: Ruling): Option<Trigger> {
    if !ruling.state.Blocked? && !ruling.state.Unresolved? then None
    else if req.exceptional then Some(OnException)
    else Some(if ruling.state.Blocked? then OnBreach else OnUnresolved)
  }

  /** A grant that takes part in the deciding tier with a veto or a final voice. */
  ghost predicate Essential(req: Request, gs: seq<Grant>, g: Grant) {
    exists k :: DecidingTier(req, gs, k) && Binds(req, g, k) && (g.strength.Veto? || g.strength.Final?)
  }

  /** The vetoes and finals named are those of the deciding tier; a veto silences the finals. */
  ghost predicate NamesVoices(req: Request, gs: seq<Grant>, d: Decision) {
    && (forall g :: g in d.vetoes <==> g in gs && g.strength.Veto? && Essential(req, gs, g))
    && (forall g :: g in d.finals
                    <==> g in gs && g.strength.Final? && Essential(req, gs, g) && !d.ruling.state.Blocked?)
  }

  /** Consultations of a tier are heard when no more specific tier decides and none of its own
      vetoes does. */
  ghost predicate Audible(req: Request, gs: seq<Grant>, k: int) {
    1 <= k <= 3 && !Vetoed(req, gs, k) && forall j :: k < j <= 3 ==> !Speaks(req, gs, j)
  }

  ghost predicate NamesConsults(req: Request, gs: seq<Grant>, d: Decision) {
    forall g :: g in d.consults
                <==> g in gs && g.strength.Consult? && exists k :: Audible(req, gs, k) && Binds(req, g, k)
  }

  /** What has been heard above tier `k`. */
  ghost predicate HeardAbove(req: Request, gs: seq<Grant>, k: int, heard: seq<Grant>) {
    forall g :: g in heard <==> g in gs && g.strength.Consult? && exists j :: k < j <= 3 && Binds(req, g, j)
  }

  ghost predicate EscalatesTruly(req: Request, d: Decision) {
    match Calls(req, d.ruling)
    case None => d.escalation.None?
    case Some(on) => EscalatesBy(if d.ruling.state.Blocked? then d.vetoes else d.matched, on, d.escalation)
  }

  ghost predicate Reports(req: Request, gs: seq<Grant>, d: Decision) {
    && NamesVoices(req, gs, d) && NamesConsults(req, gs, d) && EscalatesTruly(req, d)
    && d.matched == Filter(gs, (g: Grant) => g.domain == req.domain)
  }

  lemma EscalationForIsTrue(req: Request, gs: seq<Grant>, trigger: Trigger)
    ensures EscalatesBy(gs, if req.exceptional then OnException else trigger, EscalationFor(gs, trigger, req))
  {
    FirstEscalationIsFirst(gs, if req.exceptional then OnException else trigger);
  }

  lemma HeardGrows(req: Request, gs: seq<Grant>, k: nat, heard: seq<Grant>)
    requires 1 <= k <= 3 && HeardAbove(req, gs, k, heard)
    ensures HeardAbove(req, gs, k - 1, heard + Binding(req, gs, k, Consult))
  {
    var more := heard + Binding(req, gs, k, Consult);
    forall g ensures g in more <==> g in heard || (g in gs && g.strength.Consult? && Binds(req, g, k)) {
      assert g in more <==> g in heard || g in Binding(req, gs, k, Consult);
    }
  }

  /** With the tiers above `k` silent, the audible ones are those above `k`, and `k` itself
      unless it is vetoed. */
  lemma AudibleAbove(req: Request, gs: seq<Grant>, k: nat, d: Decision)
    requires k <= 3 && forall j :: k < j <= 3 ==> !Speaks(req, gs, j)
    requires k > 0 ==> Speaks(req, gs, k)
    requires HeardAbove(req, gs, if k > 0 && !Vetoed(req, gs, k) then k - 1 else k, d.consults)
    ensures NamesConsults(req, gs, d)
  {
    var floor := if k > 0 && !Vetoed(req, gs, k) then k - 1 else k;
    forall j ensures Audible(req, gs, j) <==> floor < j <= 3 {
      if k < j <= 3 {
        assert Vetoed(req, gs, j) ==> Speaks(req, gs, j);
      }
    }
  }

  lemma SilenceReports(req: Request, gs: seq<Grant>, heard: seq<Grant>)
    requires (forall j :: 0 < j <= 3 ==> !Speaks(req, gs, j)) && HeardAbove(req, gs, 0, heard)
    ensures Reports(req, gs, Descend(req, gs, 0, heard))
  {
    EscalationForIsTrue(req, Matching(req, gs), OnUnresolved);
    AudibleAbove(req, gs, 0, Descend(req, gs, 0, heard));
    assert forall g :: !Essential(req, gs, g);
  }

  lemma SilentTierFallsThrough(req: Request, gs: seq<Grant>, k: nat, heard: seq<Grant>)
    requires k > 0 && !Speaks(req, gs, k)
    ensures Descend(req, gs, k, heard) == Descend(req, gs, k - 1, heard + Binding(req, gs, k, Consult))
  {
    SilentTier(req, gs, k);
  }

  lemma {:induction false} DescendReports(req: Request, gs: seq<Grant>, k: nat, heard: seq<Grant>)
    requires k <= 3 && forall j :: k < j <= 3 ==> !Speaks(req, gs, j)
    requires HeardAbove(req, gs, k, heard)
    ensures Reports(req, gs, Descend(req, gs, k, heard))
  {
    if k == 0 {
      SilenceReports(req, gs, heard);
    } else {
      HeardGrows(req, gs, k, heard);
      if Speaks(req, gs, k) {
        SpeakingTierReports(req, gs, k, heard);
      } else {
        SilentTierFallsThrough(req, gs, k, heard);
        DescendReports(req, gs, k - 1, heard + Binding(req, gs, k, Consult));
      }
    }
  }

  lemma SpeakingTierReports(req: Request, gs: seq<Grant>, k: nat, heard: seq<Grant>)
    requires DecidingTier(req, gs, k) && HeardAbove(req, gs, k, heard)
    requires HeardAbove(req, gs, k - 1, heard + Binding(req, gs, k, Consult))
    ensures Reports(req, gs, Descend(req, gs, k, heard))
  {
    var vetoes, finals := Binding(req, gs, k, Veto), Binding(req, gs, k, Final);
    var d := Descend(req, gs, k, heard);
    SilentTier(req, gs, k);
    VetoIsHeard(req, gs, k);
    TierVoicesAreEssential(req, gs, k);
    if vetoes == [] {
      EscalationForIsTrue(req, Matching(req, gs), OnUnresolved);
      DecideNeverBlocks(req, finals);
    } else {
      EscalationForIsTrue(req, vetoes, OnBreach);
    }
    AudibleAbove(req, gs, k, d);
  }

  lemma TierVoicesAreEssential(req: Request, gs: seq<Grant>, k: nat)
    requires DecidingTier(req, gs, k)
    ensures forall g :: g in Binding(req, gs, k, Veto) <==> g in gs && g.strength.Veto? && Essential(req, gs, g)
    ensures forall g :: g in Binding(req, gs, k, Final) <==> g in gs && g.strength.Final? && Essential(req, gs, g)
  {
    assert forall j :: DecidingTier(req, gs, j) ==> j == k;
  }

  lemma DecideNeverBlocks(req: Request, finals: seq<Grant>)
    requires finals != []
    ensures Decide(req, finals).state != Blocked
  {
  }

  /** A decision names only grants that bind the claim, each in its own list, and escalates by
      the first grant that is declared for what happened. */
  lemma DecisionIsTrueReport(req: Request, gs: seq<Grant>)
    ensures Reports(req, gs, Resolved(req, gs))
  {
    DescendReports(req, gs, 3, []);
  }

  // ----- what does not matter -----

  lemma KeptTierDecides(req: Request, gs: seq<Grant>, keep: Grant -> bool, k: int)
    requires forall g :: g in gs && Essential(req, gs, g) ==> keep(g)
    requires DecidingTier(req, gs, k)
    ensures DecidingTier(req, Filter(gs, keep), k)
    ensures TierRule(req, Filter(gs, keep), k) == TierRule(req, gs, k)
  {
    var kept := Filter(gs, keep);
    var g :| g in gs && Binds(req, g, k) && (g.strength.Veto? || g.strength.Final?);
    assert Essential(req, gs, g) && g in kept;
    forall j | k < j <= 3 ensures !Speaks(req, kept, j) {
      assert !Speaks(req, gs, j);
    }
    KeptBinding(req, gs, keep, k, Veto);
    KeptBinding(req, gs, keep, k, Final);
  }

  /** Every other grant can be withdrawn, in any combination: less specific tiers,
      ineffective grants, other domains and consultations change nothing. */
  lemma InessentialGrantsAreIrrelevant(req: Request, gs: seq<Grant>, keep: Grant -> bool)
    requires forall g :: g in gs && Essential(req, gs, g) ==> keep(g)
    ensures Resolved(req, Filter(gs, keep)).ruling == Resolved(req, gs).ruling
  {
    var kept := Filter(gs, keep);
    ResolveFollowsRule(req, gs);
    ResolveFollowsRule(req, kept);
    if k :| DecidingTier(req, gs, k) {
      KeptTierDecides(req, gs, keep, k);
    } else {
      forall k ensures !DecidingTier(req, kept, k) {
        NoDecidingTier(req, gs, k);
      }
    }
  }

  lemma NoDecidingTier(req: Request, gs: seq<Grant>, k: int)
    requires forall j :: !DecidingTier(req, gs, j)
    ensures 1 <= k <= 3 ==> !Speaks(req, gs, k)
  {
    assert !DecidingTier(req, gs, 3) && !DecidingTier(req, gs, 2) && !DecidingTier(req, gs, 1);
  }

  lemma KeptBinding(req: Request, gs: seq<Grant>, keep: Grant -> bool, k: int, strength: Strength)
    requires forall g :: g in gs && Binds(req, g, k) && g.strength == strength ==> keep(g)
    ensures Binding(req, Filter(gs, keep), k, strength) == Binding(req, gs, k, strength)
  {
    var wanted := (g: Grant) => Binds(req, g, k) && g.strength == strength;
    var both := (g: Grant) => keep(g) && wanted(g);
    FilterTwice(gs, keep, wanted, both);
    FilterAgrees(gs, both, wanted);
  }

  // ----- vetoes -----

  ghost predicate Vetoed(req: Request, gs: seq<Grant>, k: int) {
    exists g :: g in gs && Binds(req, g, k) && g.strength.Veto?
  }

  ghost predicate HasFinal(req: Request, gs: seq<Grant>, k: int) {
    exists g :: g in gs && Binds(req, g, k) && g.strength.Final?
  }

  /** An effective veto blocks unless a strictly more specific final shields the claim. */
  ghost predicate UnshieldedVeto(req: Request, gs: seq<Grant>, k: int) {
    1 <= k <= 3 && Vetoed(req, gs, k) && forall j :: k < j <= 3 ==> !HasFinal(req, gs, j)
  }

  lemma TierRuleBlocks(req: Request, gs: seq<Grant>, k: int)
    ensures TierRule(req, gs, k).state == Blocked <==> Vetoed(req, gs, k)
  {
    VetoIsHeard(req, gs, k);
  }

  lemma VetoIsHeard(req: Request, gs: seq<Grant>, k: int)
    ensures Vetoed(req, gs, k) <==> Binding(req, gs, k, Veto) != []
  {
    var vetoes := Binding(req, gs, k, Veto);
    if vetoes != [] {
      assert vetoes[0] in vetoes;
    }
  }

  lemma SpeaksBySomeVoice(req: Request, gs: seq<Grant>, k: int)
    ensures Speaks(req, gs, k) <==> Vetoed(req, gs, k) || HasFinal(req, gs, k)
  {
  }

  lemma UnshieldedIffDecidingTierVetoed(req: Request, gs: seq<Grant>, t: int)
    requires DecidingTier(req, gs, t)
    ensures Vetoed(req, gs, t) <==> exists k :: UnshieldedVeto(req, gs, k)
  {
    forall k ensures Speaks(req, gs, k) <==> Vetoed(req, gs, k) || HasFinal(req, gs, k) {
      SpeaksBySomeVoice(req, gs, k);
    }
    if Vetoed(req, gs, t) {
      assert UnshieldedVeto(req, gs, t);
    }
  }

  lemma BlockedIffUnshieldedVeto(req: Request, gs: seq<Grant>)
    ensures Resolved(req, gs).ruling.state == Blocked <==> exists k :: UnshieldedVeto(req, gs, k)
  {
    ResolveFollowsRule(req, gs);
    if t :| DecidingTier(req, gs, t) {
      TierRuleBlocks(req, gs, t);
      UnshieldedIffDecidingTierVetoed(req, gs, t);
    } else {
      forall k ensures !UnshieldedVeto(req, gs, k) {
        NoDecidingTier(req, gs, k);
        SpeaksBySomeVoice(req, gs, k);
      }
    }
  }

  /** A veto that covers every context does not bind a context with its own final. */
  lemma EffectiveVetoNeedNotBlock(req: Request, veto: Grant, final: Grant)
    requires veto.strength.Veto? && Binds(req, veto, 1)
    requires final.strength.Final? && Binds(req, final, 3)
    ensures Vetoed(req, [veto, final], 1) && Resolved(req, [veto, final]).ruling.state != Blocked
  {
    var gs := [veto, final];
    assert veto in gs && final in gs && forall g :: g in gs ==> g == veto || g == final;
    assert HasFinal(req, gs, 3) && Vetoed(req, gs, 1);
    forall k ensures !UnshieldedVeto(req, gs, k) {
      assert Vetoed(req, gs, k) ==> k == 1;
    }
    BlockedIffUnshieldedVeto(req, gs);
  }

  lemma ShieldedVetoOccurs()
    ensures exists req: Request, veto: Grant, final: Grant ::
              veto.strength.Veto? && Binds(req, veto, 1) && final.strength.Final? && Binds(req, final, 3)
  {
    var veto := Grant("auditor", "cost", None, Veto, None, [], None, 0, 1);
    var final := Grant("owner", "cost", Some("p"), Final, None, [], None, 0, 1);
    var req := Request("owner", "cost", Some("p"), map[], {}, false);
    assert Binds(req, veto, 1) && Binds(req, final, 3);
  }

  /** `hs` is the same bag of grants in another order. */
  ghost predicate Permutes(gs: seq<Grant>, hs: seq<Grant>) {
    multiset(gs) == multiset(hs)
  }

  /** The finals of tier `k` decide by threshold, two of them declare different quotas,
      and the consent given so far meets the one but not the other. */
  ghost predicate QuotaDispute(req: Request, finals: seq<Grant>, low: Grant, high: Grant) {
    |finals| > 1 && Composed(multiset(finals), Threshold) && low in finals && high in finals
    && Quota(low) <= |Consent(req) * Subjects(finals)| < Quota(high)
  }

  ghost predicate Disputed(req: Request, gs: seq<Grant>, k: int) {
    Binding(req, gs, k, Veto) == []
    && exists low, high :: QuotaDispute(req, Binding(req, gs, k, Final), low, high)
  }

  lemma SameMembers(gs: seq<Grant>, hs: seq<Grant>)
    requires Permutes(gs, hs)
    ensures forall g :: g in gs <==> g in hs
  {
    assert forall g :: g in gs <==> g in multiset(gs);
    assert forall g :: g in hs <==> g in multiset(hs);
  }

  lemma PermutedTier(req: Request, gs: seq<Grant>, hs: seq<Grant>, k: int)
    requires Permutes(gs, hs)
    ensures DecidingTier(req, gs, k) <==> DecidingTier(req, hs, k)
    ensures Binding(req, gs, k, Veto) == [] <==> Binding(req, hs, k, Veto) == []
    ensures multiset(Binding(req, gs, k, Final)) == multiset(Binding(req, hs, k, Final))
  {
    SameMembers(gs, hs);
    assert forall j :: Speaks(req, gs, j) <==> Speaks(req, hs, j);
    FilterOfPermutation(gs, hs, (g: Grant) => Binds(req, g, k) && g.strength == Final);
    FilterOfPermutation(gs, hs, (g: Grant) => Binds(req, g, k) && g.strength == Veto);
  }

  /** Only the quota can tell two orders of the same finals apart. */
  lemma RuleIgnoresUndisputedQuota(req: Request, finals: seq<Grant>, f: Grant, g: Grant)
    requires f in finals && g in finals
    requires !QuotaDispute(req, finals, f, g) && !QuotaDispute(req, finals, g, f)
    ensures Rule(req, false, multiset(finals), Quota(f)) == Rule(req, false, multiset(finals), Quota(g))
  {
    var bag := multiset(finals);
    assert Subjects(finals) == set f | f in bag :: f.subject by {
      assert forall f :: f in finals <==> f in bag;
    }
    if |finals| == 1 {
      assert finals == [f] && f == g;
    }
  }

  lemma UndisputedOrderIsIrrelevant(req: Request, gs: seq<Grant>, hs: seq<Grant>)
    requires Permutes(gs, hs)
    requires forall k :: DecidingTier(req, gs, k) ==> !Disputed(req, gs, k)
    ensures Resolved(req, gs).ruling == Resolved(req, hs).ruling
  {
    ResolveFollowsRule(req, gs);
    ResolveFollowsRule(req, hs);
    forall k ensures DecidingTier(req, gs, k) <==> DecidingTier(req, hs, k) {
      PermutedTier(req, gs, hs, k);
    }
    if k :| DecidingTier(req, gs, k) {
      PermutedTier(req, gs, hs, k);
      var these, those := Binding(req, gs, k, Final), Binding(req, hs, k, Final);
      if Binding(req, gs, k, Veto) == [] {
        SilentTier(req, gs, k);
        SilentTier(req, hs, k);
        SameMembers(these, those);
        assert those[0] in those;
        RuleIgnoresUndisputedQuota(req, these, these[0], those[0]);
      }
    }
  }

  /** Any member can be moved to the front. */
  lemma BroughtForward(gs: seq<Grant>, g: Grant) returns (hs: seq<Grant>)
    requires g in gs
    ensures Permutes(gs, hs) && hs != [] && hs[0] == g
  {
    var i :| 0 <= i < |gs| && gs[i] == g;
    assert gs == gs[..i] + [g] + gs[i + 1..];
    hs := [g] + (gs[..i] + gs[i + 1..]);
  }

  /** With `f` in front, its quota is the one that counts. */
  lemma FrontQuotaCounts(req: Request, gs: seq<Grant>, k: int, f: Grant) returns (hs: seq<Grant>)
    requires DecidingTier(req, gs, k) && Binding(req, gs, k, Veto) == [] && f in Binding(req, gs, k, Final)
    ensures Permutes(gs, hs)
    ensures Resolved(req, hs).ruling == Rule(req, false, multiset(Binding(req, gs, k, Final)), Quota(f))
  {
    hs := BroughtForward(gs, f);
    PermutedTier(req, gs, hs, k);
    ResolveFollowsRule(req, hs);
    assert Binding(req, hs, k, Final)[0] == f;
  }

  lemma DisputedRulings(req: Request, finals: seq<Grant>, low: Grant, high: Grant)
    requires QuotaDispute(req, finals, low, high)
    ensures Rule(req, false, multiset(finals), Quota(low)).state == Allowed
    ensures Rule(req, false, multiset(finals), Quota(high)).state == Waiting
  {
    var bag := multiset(finals);
    assert Subjects(finals) == set f | f in bag :: f.subject by {
      assert forall f :: f in finals <==> f in bag;
    }
    assert low in bag && !Composed(bag, Joint) && !Composed(bag, Priority);
  }

  /** The order of the grants matters exactly when the deciding tier is disputed. */
  lemma OrderIsIrrelevantIff(req: Request, gs: seq<Grant>)
    ensures (forall hs :: Permutes(gs, hs) ==> Resolved(req, hs).ruling == Resolved(req, gs).ruling)
            <==> (forall k :: DecidingTier(req, gs, k) ==> !Disputed(req, gs, k))
  {
    if k :| DecidingTier(req, gs, k) && Disputed(req, gs, k) {
      var finals := Binding(req, gs, k, Final);
      var low, high :| QuotaDispute(req, finals, low, high);
      var lows := FrontQuotaCounts(req, gs, k, low);
      var highs := FrontQuotaCounts(req, gs, k, high);
      DisputedRulings(req, finals, low, high);
      assert Permutes(gs, lows) && Permutes(gs, highs);
    } else {
      forall hs | Permutes(gs, hs) ensures Resolved(req, hs).ruling == Resolved(req, gs).ruling {
        UndisputedOrderIsIrrelevant(req, gs, hs);
      }
    }
  }

  lemma {:induction false} KeepsNone<T(!new)>(s: seq<T>, keep: T -> bool)
    requires forall x :: x in s ==> !keep(x)
    ensures Filter(s, keep) == []
  {
    if s != [] {
      KeepsNone(s[1..], keep);
    }
  }

  lemma KeepsBoth<T(!new)>(a: T, b: T, keep: T -> bool)
    requires keep(a) && keep(b)
    ensures Filter([a, b], keep) == [a, b]
  {
    assert [a, b][1..] == [b] && [b][1..] == [] && Filter([], keep) == [];
    assert Filter([b], keep) == [b];
  }

  /** Two threshold finals in the widest tier, one holder asking, and only the other's
      quota still open. */
  ghost predicate TwoQuotas(req: Request, low: Grant, high: Grant) {
    && Binds(req, low, 1) && Binds(req, high, 1) && low.strength.Final? && high.strength.Final?
    && low.composition == high.composition == Some(Threshold)
    && Consent(req) == {low.subject} && low.subject != high.subject && Quota(low) == 1 && Quota(high) > 1
  }

  lemma PairSpeaksInTierOne(req: Request, low: Grant, high: Grant)
    requires TwoQuotas(req, low, high)
    ensures DecidingTier(req, [low, high], 1) && Binding(req, [low, high], 1, Veto) == []
    ensures Binding(req, [low, high], 1, Final) == [low, high]
  {
    var gs := [low, high];
    assert low in gs && forall g :: g in gs ==> g == low || g == high;
    assert Speaks(req, gs, 1);
    KeepsBoth(low, high, (g: Grant) => Binds(req, g, 1) && g.strength == Final);
    KeepsNone(gs, (g: Grant) => Binds(req, g, 1) && g.strength == Veto);
  }

  lemma PairDisputes(req: Request, low: Grant, high: Grant)
    requires TwoQuotas(req, low, high)
    ensures QuotaDispute(req, [low, high], low, high)
  {
    var finals := [low, high];
    assert low in finals && high in finals && forall g :: g in finals ==> g == low || g == high;
    assert Subjects(finals) == {low.subject, high.subject};
    assert Consent(req) * Subjects(finals) == {low.subject};
  }

  /** Listed one way such a claim is allowed, listed the other way it waits. */
  lemma OrderCanMatter(req: Request, low: Grant, high: Grant)
    requires TwoQuotas(req, low, high)
    ensures exists hs :: Permutes([low, high], hs) && Resolved(req, hs).ruling != Resolved(req, [low, high]).ruling
  {
    PairSpeaksInTierOne(req, low, high);
    PairDisputes(req, low, high);
    assert Disputed(req, [low, high], 1);
    OrderIsIrrelevantIff(req, [low, high]);
  }

  lemma TwoQuotasOccur()
    ensures exists req: Request, low: Grant, high: Grant :: TwoQuotas(req, low, high)
  {
    var low := Grant("a", "cost", None, Final, Some(Threshold), [], None, 0, 1);
    var high := Grant("b", "cost", None, Final, Some(Threshold), [], None, 0, 3);
    var req := Request("a", "cost", None, map[], {}, false);
    assert low.subject[0] != high.subject[0];
    assert TwoQuotas(req, low, high);
  }

  /** Finals that declare one quota cannot be disputed. */
  lemma SharedQuotaSettlesOrder(req: Request, gs: seq<Grant>, hs: seq<Grant>)
    requires Permutes(gs, hs)
    requires forall k, f, g :: DecidingTier(req, gs, k) && f in Binding(req, gs, k, Final)
                               && g in Binding(req, gs, k, Final)
                               ==> f.threshold == g.threshold
    ensures Resolved(req, gs).ruling == Resolved(req, hs).ruling
  {
    UndisputedOrderIsIrrelevant(req, gs, hs);
  }

  // ----- consent -----

  /** Further consent never revokes or redirects a ruling: it can only complete a joint
      or threshold decision that was waiting. */
  ghost predicate Advances(r: Ruling, s: Ruling) {
    || r == s
    || (r.state.Waiting? && s.state.Allowed? && s.winner.Some? && !s.winner.value.Holder?)
    || (r.state.Allowed? && s.state.Allowed? && r.winner.Some? && s.winner.Some?
        && r.winner.value.ByThreshold? && s.winner.value.ByThreshold?
        && r.winner.value.subjects <= s.winner.value.subjects)
  }

  lemma SubsetIsNoLarger<T>(a: set<T>, b: set<T>)
    requires a <= b
    ensures |a| <= |b|
  {
    assert b == a + (b - a);
  }

  lemma AgreementGrows(req: Request, more: set<string>, holders: set<string>)
    requires req.consenting <= more
    ensures var agreed, wider := (req.consenting + {req.subject}) * holders, (more + {req.subject}) * holders;
            agreed <= wider && |agreed| <= |wider|
  {
    SubsetIsNoLarger((req.consenting + {req.subject}) * holders, (more + {req.subject}) * holders);
  }

  lemma RuleAdvances(req: Request, more: set<string>, vetoed: bool, finals: multiset<Grant>, quota: int)
    requires req.consenting <= more
    ensures Advances(Rule(req, vetoed, finals, quota), Rule(req.(consenting := more), vetoed, finals, quota))
  {
    if vetoed {
    } else if f :| SoleDecider(finals, f) {
      forall g | SoleDecider(finals, g) ensures g == f {
        SoleDeciderIsUnique(finals, f, g);
      }
    } else {
      AgreementGrows(req, more, set f | f in finals :: f.subject);
    }
  }

  lemma ConsentOnlyAdvances(req: Request, more: set<string>, gs: seq<Grant>)
    requires req.consenting <= more
    ensures Advances(Resolved(req, gs).ruling, Resolved(req.(consenting := more), gs).ruling)
  {
    var next := req.(consenting := more);
    assert forall g, k :: Binds(next, g, k) <==> Binds(req, g, k);
    ResolveFollowsRule(req, gs);
    ResolveFollowsRule(next, gs);
    assert forall k :: Speaks(next, gs, k) <==> Speaks(req, gs, k);
    assert forall k :: DecidingTier(next, gs, k) <==> DecidingTier(req, gs, k);
    if k :| DecidingTier(req, gs, k) {
      SameBinding(req, next, gs, k, Veto);
      SameBinding(req, next, gs, k, Final);
      var finals := Binding(req, gs, k, Final);
      RuleAdvances(req, more, Binding(req, gs, k, Veto) != [], multiset(finals), FirstQuota(finals));
    }
  }

  lemma SameBinding(req: Request, next: Request, gs: seq<Grant>, k: int, strength: Strength)
    requires forall g :: Binds(next, g, k) <==> Binds(req, g, k)
    ensures Binding(next, gs, k, strength) == Binding(req, gs, k, strength)
  {
    FilterAgrees(gs, (g: Grant) => Binds(req, g, k) && g.strength == strength,
                 (g: Grant) => Binds(next, g, k) && g.strength == strength);
  }

  // ----- a decision of one holder -----

  lemma SoleDeciderIsUnique(finals: multiset<Grant>, f: Grant, g: Grant)
    requires SoleDecider(finals, f) && SoleDecider(finals, g)
    ensures f == g
  {
    if |finals| == 1 {
      assert finals == multiset{f} + (finals - multiset{f});
      assert |finals - multiset{f}| == 0;
    }
  }

  /** Where one final decides alone, its holder's own request is allowed and everybody
      else's waits, whoever consents: the holder's consent is not looked at. */
  lemma SoleHolderDecidesAlone(req: Request, gs: seq<Grant>, k: int, f: Grant)
    requires DecidingTier(req, gs, k) && Binding(req, gs, k, Veto) == []
    requires SoleDecider(multiset(Binding(req, gs, k, Final)), f)
    ensures Resolved(req, gs).ruling
            == if req.subject == f.subject then Ruling(Allowed, Some(Holder(f.subject))) else Ruling(Waiting, None)
  {
    ResolveFollowsRule(req, gs);
    var finals := multiset(Binding(req, gs, k, Final));
    forall g | SoleDecider(finals, g) ensures g == f {
      SoleDeciderIsUnique(finals, f, g);
    }
  }

  lemma LoneFinalDecides(req: Request, final: Grant)
    requires final.strength.Final? && Binds(req, final, 1)
    ensures Resolved(req, [final]).ruling
            == if req.subject == final.subject then Ruling(Allowed, Some(Holder(final.subject)))
               else Ruling(Waiting, None)
  {
    var gs := [final];
    assert final in gs && forall g :: g in gs ==> g == final;
    assert Speaks(req, gs, 1);
    assert gs[1..] == [];
    var wanted := (g: Grant) => Binds(req, g, 1) && g.strength == Final;
    assert Filter([], wanted) == [] && Filter(gs, wanted) == [final];
    KeepsNone(gs, (g: Grant) => Binds(req, g, 1) && g.strength == Veto);
    assert multiset([final])[final] == 1 && |multiset([final])| == 1;
    SoleHolderDecidesAlone(req, gs, 1, final);
  }

  /** The only holder has consented, and the claim still waits. */
  lemma HolderConsentIsIgnored(req: Request, final: Grant)
    requires final.strength.Final? && Binds(req, final, 1)
    requires req.subject != final.subject && final.subject in req.consenting
    ensures Resolved(req, [final]).ruling == Ruling(Waiting, None)
  {
    LoneFinalDecides(req, final);
  }

  lemma IgnoredConsentOccurs()
    ensures exists req: Request, final: Grant ::
              final.strength.Final? && Binds(req, final, 1) && req.subject != final.subject
                  && final.subject in req.consenting
  {
    var final := Grant("owner", "cost", None, Final, None, [], None, 0, 1);
    var req := Request("agent", "cost", None, map[], {"owner"}, false);
    assert req.subject[0] != final.subject[0];
    assert Binds(req, final, 1);
  }

  // ----- claims over several domains -----

  datatype Claim = Claim(
    subject: string,
    domains: seq<Domain>,
    context: Option<string>,
    facts: Facts,
    consenting: set<string>)

  function RequestFor(c: Claim, d: Domain): Request {
    Request(c.subject, d, c.context, c.facts, c.consenting, false)
  }

  method ResolveClaim(c: Claim, gs: seq<Grant>) returns (results: map<Domain, Decision>)
    ensures results.Keys == set d | d in c.domains
    ensures forall d :: d in results ==>
                          results[d] == Resolved(Request(c.subject, d, c.context, c.facts, c.consenting, false), gs)
  {
    results := map[];
    for i := 0 to |c.domains|
      invariant results.Keys == set d | d in c.domains[..i]
      invariant forall d :: d in results ==> results[d] == Resolved(RequestFor(c, d), gs)
    {
      var decision := Resolve(RequestFor(c, c.domains[i]), gs);
      assert c.domains[..i + 1] == c.domains[..i] + [c.domains[i]];
      results := results[c.domains[i] := decision];
    }
    assert c.domains[..|c.domains|] == c.domains;
  }

  function Overall(results: map<Domain, Decision>): State {
    var states := set d | d in results :: results[d].ruling.state;
    if Blocked in states then Blocked
    else if Unresolved in states then Unresolved
    else if Waiting in states then Waiting
    else Allowed
  }

  ghost predicate Resolves(c: Claim, gs: seq<Grant>, results: map<Domain, Decision>) {
    results.Keys == (set d | d in c.domains)
        && forall d :: d in results ==> results[d] == Resolved(RequestFor(c, d), gs)
  }

  lemma OverallMeaning(results: map<Domain, Decision>)
    ensures Overall(results) == Blocked <==> exists d :: d in results && results[d].ruling.state == Blocked
    ensures Overall(results) == Unresolved
            <==> (exists d :: d in results && results[d].ruling.state == Unresolved)
                 && forall d :: d in results ==> results[d].ruling.state != Blocked
    ensures Overall(results) == Allowed <==> forall d :: d in results ==> results[d].ruling.state == Allowed
  {
    var states := set d | d in results :: results[d].ruling.state;
    assert forall d :: d in results ==> results[d].ruling.state in states;
  }

  lemma OverallAdvances(r: map<Domain, Decision>, s: map<Domain, Decision>)
    requires r.Keys == s.Keys && forall d :: d in r ==> Advances(r[d].ruling, s[d].ruling)
    ensures Overall(s) == Overall(r) || (Overall(r) == Waiting && Overall(s) == Allowed)
  {
    OverallMeaning(r);
    OverallMeaning(s);
  }

  /** More consent moves a whole claim from WAITING to ALLOWED or leaves it where it was. */
  lemma ClaimsOnlyAdvance(
    c: Claim, more: set<string>, gs: seq<Grant>, r: map<Domain, Decision>, s: map<Domain, Decision>)
    requires c.consenting <= more
    requires Resolves(c, gs, r) && Resolves(c.(consenting := more), gs, s)
    ensures Overall(s) == Overall(r) || (Overall(r) == Waiting && Overall(s) == Allowed)
  {
    forall d | d in r ensures Advances(r[d].ruling, s[d].ruling) {
      ConsentOnlyAdvances(RequestFor(c, d), more, gs);
    }
    OverallAdvances(r, s);
  }

  // ----- limited grants -----

  /** A grant whose upper limit is exceeded decides nothing: it is named nowhere among the
      vetoes, finals and consultations, and withdrawing it changes no ruling. */
  lemma ExceededLimitNeverDecides(req: Request, gs: seq<Grant>, g: Grant, c: Condition)
    requires c in g.conditions && (c.op.Lt? || c.op.Lte?) && Limited(c, req.facts)
    requires Amount(req.facts[c.field]) > Amount(c.value)
    ensures var d := Resolved(req, gs); g !in d.vetoes && g !in d.finals && g !in d.consults
    ensures Resolved(req, Filter(gs, (h: Grant) => h != g)).ruling == Resolved(req, gs).ruling
  {
    LimitIsInequality(c, req.facts);
    HoldsIffMet(c, req.facts);
    assert forall k :: !Binds(req, g, k);
    var d := Resolved(req, gs);
    DecisionIsTrueReport(req, gs);
    assert !Essential(req, gs, g);
    InessentialGrantsAreIrrelevant(req, gs, (h: Grant) => h != g);
  }

  /** A sole holder with an upper limit decides exactly within the limit. */
  lemma LimitedHolderAllowsIff(req: Request, final: Grant, c: Condition)
    requires final.strength.Final? && final.domain == req.domain && final.context.None?
    requires final.subject == req.subject && final.conditions == [c] && c.op.Lte? && Limited(c, req.facts)
    ensures Resolved(req, [final]).ruling.state == Allowed <==> Amount(req.facts[c.field]) <= Amount(c.value)
  {
    var gs := [final];
    LimitIsInequality(c, req.facts);
    HoldsIffMet(c, req.facts);
    if Amount(req.facts[c.field]) <= Amount(c.value) {
      assert Binds(req, final, 1);
      LoneFinalDecides(req, final);
    } else {
      assert forall k :: !Binds(req, final, k);
      assert forall k :: !DecidingTier(req, gs, k);
      ResolveFollowsRule(req, gs);
    }
  }
}
