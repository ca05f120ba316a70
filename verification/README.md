# A verified model of a multi-agent tick kernel

The kernel advances in discrete ticks. Agents stage effects; a commit pipeline checks
them, settles their conflicts, and applies or rolls them back. Around it stand a small
predicate language, version chains and a ledger that can be undone, an organisation graph
and an agent tree, a strict patch engine, an inverted recall index, an adjudication
procedure for authority claims, and the protocols that decide which agents run, which mail
is sent and how often an outside platform is called.

This project states the behaviour of those cores in Dafny and proves what they promise.
Every operation exists twice: as a function or predicate that says what it means, and in
the form of the source, as a class with fields or a method with loops, proved to compute
exactly that. The theorems are about the meaning, over all inputs and all runs. The small
checks at the bottom, such as comparisons, equality, paths, conditions, rules, patterns and
sort orders, are in turn proved equal to statements that do not use them.

| files | models |
|---|---|
| `PredicateMeaning`, `PredicateAst`, `PredicateEval`, `PredicateValidate`, `PredicateDecision`, `PredicateCanon` | level-0 predicates: what they say, interpreter and audit trail, static validator, when a verdict is reached, canonical form and replay key |
| `PredicateGrammar`, `PredicateParser`, `PredicateRoundTrip` | the recursive-descent parser over tokens, its writer, and the language it accepts |
| `Transaction` | the commit pipeline of a tick |
| `Graphs`, `Positions`, `Org`, `AgentTree` | cycle search, governance checks, edits of the organisation, the agent tree |
| `Splicing`, `PatchApply`, `PosixPlacement`, `PatchParse` | a theory of edits, the patch applier and where it differs from POSIX, the unified-diff reader |
| `Recall`, `Conditions`, `Authority` | the trigger index and its queries; conditions of grants, adjudication |
| `RecordStore`, `MemoryStore`, `RecallSync` | records with a replayable ledger, version chains with undo, and the recall index beside them |
| `Scheduler`, `Outbox`, `Integration` | event lifecycle and capacity cut, at-most-once mail, rate limiting |
| `Common`, `Text`, `Json` | shared datatypes, Python's string order, JSON values with Python's equality |

## What is proved

- **Predicates.** A verdict of the interpreter is the truth of what the text of the tree
  says about the state, for every tree; a validated tree is decided in every state whose
  fields have the right types; and a gate built from upper limits, under any nesting of
  connectives and quantifiers, stays open when numbers of the state are lowered.
  Canonicalising preserves the verdict and the error of every validated tree in every
  state, yields a valid tree, and is idempotent, for every sort key that tells the
  members of each `in` set apart (every tree has one); equal replay keys therefore agree
  everywhere unless the digest itself collides. The parser accepts exactly the trees of
  the grammar: what is written reads back, and what is read can be rejected by the
  validator only for two contextual reasons. A validated predicate never fails
  structurally, and every verdict ends a non-empty trace.
- **Commit pipeline.** Validation, conflict resolution and commit together select a
  closed form that does not mention order: groups are all or nothing, each resource's
  committed effects belong to one agent, and staging order is irrelevant. Every
  contested resource has a foremost agent; nothing on it commits exactly when each of
  that agent's effects there shares its group id with an atomic loser, so without atomic
  groups there is always a survivor. A concrete contest has none. What commits has every
  supplied check in its favour, and every failure carries its one true reason: the first
  check that objects, a refused mate, the foremost rival, or a loser of the group.
- **Graphs.** The three-colour search finds a cycle exactly when there is one. Every
  chart reachable by installs, additions, removals and edits is acyclic and has no
  dangling edge, and edits keep two-way links, so superior chains end. Installing keeps
  the links two-way, and the chains finite, exactly under stated conditions on the
  newcomers. An accepted agent tree has one root that reaches all; its traversals
  terminate and agree.
- **Patches.** A patch is accepted exactly when its hunks fit; the reverse patch undoes
  it exactly when no insertion lies past the end; patch text survives the round trip
  through reading, reversing and writing, and headers are read exactly by their pattern,
  where a missing count is one. The applier agrees with POSIX on every file exactly when
  no hunk has an empty old range.
- **Recall.** After any run of writes the index is the exact inverse of the last word on
  each entry. A recall is a descending top-k of a brute-force scan of titles and memory
  points for distinct case-folded terms: everything relevant when it fits, and otherwise
  nothing is left out but for k others that score no less.
- **Authority.** The decision follows a declarative rule of the most specific speaking
  tier, where a grant counts when it covers the context and each condition is met,
  numbers being compared as numbers. A grant whose limit is exceeded decides nothing.
  Grants without a veto or final in that tier are irrelevant, order matters exactly in a
  quota dispute, and consent only ever completes a waiting decision.
- **Undo.** Rolling back any sequence of memory writes, rejected ones included, restores
  the store. An upsert is accepted exactly when it is well typed, unique and within
  bounds, and reports the first fault otherwise. Ledger replay equals the records in
  every reachable state, every record obeys the rules of the type that wrote it, and
  those of every type that can read it when no type is a prefix of another.
- **Run-level protocols.** Capacity, urgency and the fate of events; no event in two
  successful activations; no key delivered twice and every due mail settled in time; at
  most twice the quota in any window, a bound that is reached.

## Where the code differs from its documentation

The model follows the code.

- `src/legacy/authority.py:32` says an effective veto blocks regardless of finals. A
  veto in a less specific tier does not bind a tier that has a final:
  `Authority.BlockedIffUnshieldedVeto`, `Authority.EffectiveVetoNeedNotBlock`.
- `src/legacy/authority.py:419` reads the threshold of the first final only, so grant
  order can matter: `Authority.OrderIsIrrelevantIff`, `Authority.OrderCanMatter`. The
  consent of a single holder is asked for (`src/legacy/authority.py:303-305`) but never
  looked at: only the holder's own request is allowed
  (`Authority.SoleHolderDecidesAlone`, `Authority.HolderConsentIsIgnored`).
- `src/legacy/memory_recall.py:262-273` announces matching in both directions; only a
  term inside a trigger counts (`Recall.ScansAgreeIff`, `Recall.LongerTermIsMissed`,
  `Recall.RefundRequestIsMissed`).
- `src/legacy/memory_store.py:214-247` promises a rising version and keeps projected
  entries out of the store; a fold takes any version and any origin
  (`MemoryStore.WriteRaisesVersionIff`, `MemoryStore.FoldTakesAnyVersion`,
  `MemoryStore.FoldCanLowerVersion`, `MemoryStore.InjectedEntersOnlyByFold`).
- `src/legacy/record_store.py:322-385` does not check unique fields in a delta, and
  fills defaults that a replay does not know (`RecordStore.StoringKeepsUniqueIff`,
  `RecordStore.DeltaCanBreakUniqueness`, `RecordStore.DeltaIsCoherentIff`,
  `RecordStore.FirstDeltaBreaksReplay`). A version counter is not turned back by an
  inverse (`RecordStore.InvertUndoesWrite`).
- `src/legacy/scheduler.py:78-86` restricts on task, resource, thread and sender; an
  event that leaves the field empty passes too (`Scheduler.MatchesAsDocumentedIff`,
  `Scheduler.EmptyFieldsSlipThrough`). An event that a computation sees before it is
  visible expires at the end of that tick instead of waiting
  (`Scheduler.EarlyEventExpires`, `Scheduler.UntakenEventSurvivesIff`).
  `begin_activation` accepts a stale candidate, and a failed activation can be completed
  again with success, so that an event can end in two successful activations
  (`Scheduler.RunningCandidateIsExclusiveIff`,
  `Scheduler.SecondSuccessBreaksExclusivity`).
- `src/legacy/integration.py:108-112` calls its window sliding; it restarts
  (`Integration.BoundIsTight`, `Integration.SlidingPromiseIff`).
- `src/legacy/patch_ops.py:94-96` lets a context line overshoot the declared counts
  (`PatchParse.CountsAreExactIff`, `PatchParse.ContextCanOvershoot`), and a hunk with an
  empty old range inserts at `old_start - 1`, one line before the place POSIX.1-2008
  `diff` means (`PosixPlacement.AgreesWithPosixIff`,
  `PosixPlacement.EmptyRangeInsertsOneLineEarly`).
- `src/legacy/agent_tree.py:150-168` lets two parents list one child
  (`AgentTree.SubtreesMatchAncestryIff`); `src/legacy/devices/org.py:186-191` and
  `src/legacy/devices/org.py:244-248` admit one-way links, which a later edit can close
  to an endless superior chain (`Org.InstallKeepsTwoWayIff`, `Org.AddUnlinkedIff`,
  `Org.OneWayLinkCanLoop`), and `bootstrap` admits two positions that name each other as
  superior (`Org.MutualSuperiorsNeverEnd`).

## Model

| member | source | states |
|---|---|---|
| `Graphs.FindCycle` | src/legacy/models/position.py:272-300 | no cycle is reported exactly when the graph is acyclic; a reported list is a closed walk along real edges without other repetition |
| `Graphs.CycleFinder.Visit` | src/legacy/models/position.py:279-293 | one visit either returns a simple closed walk or blackens the node and everything it leads to, keeping the grey nodes the current path |
| `Graphs.CycleFinder.Search` | src/legacy/models/position.py:272-300 | the outer loop finds a closed walk or leaves an order in which every edge goes back |
| `Graphs.SettledIsAcyclic` | src/legacy/models/position.py:272-300 | a finishing order in which all successors come earlier excludes every closed walk |
| `Graphs.WalksAreBounded` | src/legacy/models/position.py:272-300 | walks in an acyclic graph never repeat a node, so traversals end |
| `Positions.DelegationGraph` | src/legacy/models/position.py:252-269 | the adjacency built in the loop has an edge exactly for each declared delegation |
| `Positions.HasDanglingEdge` | src/legacy/models/position.py:303-324 | reports exactly the presence of an edge to a position that does not exist |
| `Positions.DelegationEdge` | src/legacy/models/position.py:252-269 | an edge of the delegation graph is a subordinate or a collaborator of a position of that id, where that kind of edge delegates |
| `Positions.NoDanglingMeaning` | src/legacy/models/position.py:303-324 | nothing dangles exactly when every superior, subordinate and collaborator named is the id of some position |
| `Positions.ValidateGovernance` | src/legacy/models/position.py:327-352 | accepts exactly the position sets without dangling edge and without delegation cycle; a reported cycle is real |
| `Org.LinkEffect` | src/legacy/devices/org.py:561-582 | moving a position under a superior changes its own link, the old superior's list and the new one's, and nothing else |
| `Org.EditEffect` | src/legacy/devices/org.py:258-345 | every other edit adds or removes the one edge it names, and removing a position takes exactly the edges to it along |
| `Org.EditFailsIff` | src/legacy/devices/org.py:258-345 | an edit fails exactly for a position that is missing or put under itself |
| `Org.EditsKeepTwoWay` | src/legacy/devices/org.py:258-345 | removals and edge edits keep "s is listed under m iff m is the superior of s" |
| `Org.InstallKeepsTwoWayIff` | src/legacy/devices/org.py:166-191 | an accepted installation keeps two-way links exactly when the newcomers are two-way among themselves and none names an older position |
| `Org.AddKeepsTwoWayIff` | src/legacy/devices/org.py:239-256 | an accepted addition keeps two-way links exactly when the newcomer links to nobody else |
| `Org.AddUnlinkedIff` | src/legacy/models/position.py:78-93 | for a position its constructor admits, exactly when it comes without links |
| `Org.AddCanBreakTwoWay` | src/legacy/devices/org.py:239-256 | a concrete accepted addition with a one-way link |
| `Org.InstallKeepsChainsFiniteIff` | src/legacy/devices/org.py:166-191 | an accepted installation keeps superior chains finite exactly when the newcomers' own chains are |
| `Org.AddKeepsChainsFinite` | src/legacy/devices/org.py:239-256 | a single accepted position never closes a superior chain |
| `Org.MutualSuperiorsNeverEnd` | src/legacy/devices/org.py:166-191 | two newcomers that name each other as superior are installed, and the chain is endless |
| `Org.OneWayLinkCanLoop` | src/legacy/devices/org.py:308-320 | after a one-way addition an accepted edit makes the chain endless |
| `Org.SelfSuperiorNeverEnds` | src/legacy/models/position.py:78-93 | without the constructor's check the governance rules would accept a position above itself, endlessly |
| `Org.SuperiorChainsEnd` | src/legacy/devices/org.py:561-582 | in a sound two-way chart the chain of superiors stops within the number of positions |
| `Org.InstallIsSound` | src/legacy/devices/org.py:166-221 | an accepted installation keeps the chart keyed, acyclic and without dangling edges |
| `Org.EveryReachableChartIsSound` | src/legacy/devices/org.py:166-345 | every run of installs, additions, removals and edits, permitted or not, stays acyclic and without dangling edges |
| `Org.EditsKeepChainsFinite` | src/legacy/devices/org.py:308-345 | from a two-way start every run of edits keeps all superior chains finite |
| `Org.OrgStructure.Bootstrap` | src/legacy/devices/org.py:166-221 | installs all positions or none, and reports an error exactly in the stated cases |
| `Org.OrgStructure.AddPosition` | src/legacy/devices/org.py:239-256 | adds exactly the permitted, new and governed position, otherwise leaves the chart alone |
| `Org.OrgStructure.LinkSuperior` | src/legacy/devices/org.py:561-582 | edits the copies as the link function says |
| `Org.OrgStructure.MutatePositions` | src/legacy/devices/org.py:532-559 | copy, edit, check, swap: a rejected edit leaves the positions unchanged, an accepted one keeps soundness and two-way links |
| `AgentTree.AgentTree.Build` | src/legacy/agent_tree.py:95-222 | builds a tree exactly from the lists without duplicates that have one root, matching links and no cycles; a reported cycle is real |
| `AgentTree.OneRootMeaning` | src/legacy/agent_tree.py:138-148 | one root exactly when one agent has no parent and every other agent has one |
| `AgentTree.LinksMeaning` | src/legacy/agent_tree.py:150-168 | the link checks pass exactly when every parent named exists and lists its child, and every child listed exists |
| `AgentTree.GraphsMeaning` | src/legacy/agent_tree.py:170-222 | the two graphs searched for cycles are the parent links and the child links between agents |
| `AgentTree.AgentTree.Ancestors` | src/legacy/agent_tree.py:314-322 | terminates with the parent chain, whose last member is the root |
| `AgentTree.AgentTree.Depth` | src/legacy/agent_tree.py:298-306 | terminates with the number of ancestors |
| `AgentTree.AgentTree.IsAncestor` | src/legacy/agent_tree.py:287-296 | true exactly for the agent itself and the members of its parent chain |
| `AgentTree.AgentTree.SubtreeIds` | src/legacy/agent_tree.py:324-333 | terminates, even with a child listed twice, with exactly what child links reach |
| `AgentTree.ChainIsUnique` | src/legacy/agent_tree.py:314-322 | an agent has one ancestor chain |
| `AgentTree.ChainExists` | src/legacy/agent_tree.py:170-222 | acceptance gives every agent a chain to the top |
| `AgentTree.ChainEndsAtRoot` | src/legacy/agent_tree.py:138-148 | every chain ends at the one root |
| `AgentTree.RootReachesAll` | src/legacy/agent_tree.py:324-333 | the subtree of the root is the set of all agents |
| `AgentTree.AncestorHasInSubtree` | src/legacy/agent_tree.py:287-333 | an ancestor has its descendant in its subtree |
| `AgentTree.SubtreesMatchAncestryIff` | src/legacy/agent_tree.py:150-168 | subtrees contain only descendants exactly when every lister is among the ancestors of the child it lists |
| `AgentTree.ChildCanBeListedTwice` | src/legacy/agent_tree.py:150-168 | an accepted configuration where they do not |
| `PredicateEval.VerdictIsTruth` | src/legacy/predicate.py:534-658 | whenever a tree gets a verdict, the verdict is what its text says about the scope: comparison of numbers, strict equality, membership, element counts, missing field false, for all and for some |
| `PredicateEval.LookupReads` | src/legacy/predicate.py:485-494 | a lookup finds the value that the dot-separated names of the path lead to through nested dicts, and nothing exactly when they lead nowhere |
| `PredicateEval.ComparisonMeaning` | src/legacy/predicate.py:160-172 | a judged comparison is the inequality of the two numbers, or equality where a boolean never equals a number |
| `PredicateEval.CountMeaning` | src/legacy/predicate.py:599-614 | a judged count relates the number of list elements to the bound by the named operator |
| `PredicateEval.MembershipMeaning` | src/legacy/predicate.py:641-650 | a judged membership is an equal member, a substring or a key |
| `PredicateMeaning.LoweringKeepsLimits` | src/legacy/predicate.py:534-658 | lowering numbers of a state never makes a composition of upper limits false nor one of lower limits true |
| `JsonValues.PyEqIffSamePlain` | src/legacy/predicate.py:160-164 | equality is identity once every number and boolean is written as a real number |
| `Text.SplitJoins` | src/legacy/predicate.py:485-494 | splitting a path cuts at every dot, and joining the parts gives the path back |
| `Text.SplitOfJoin` | src/legacy/predicate.py:485-494 | there is one way to cut a path at its dots |
| `PredicateAst.FieldPathIsScanned` | src/legacy/predicate.py:97 | field paths are what the automaton of the pattern accepts, with or without a final newline |
| `PredicateGrammar.FieldIsReadIff` | src/legacy/predicate.py:260-269 | a field is read from exactly one word, a single dot or a path of the pattern |
| `PredicateEval.TraceEndsInVerdict` | src/legacy/predicate.py:522-658 | on every boolean outcome the trace is non-empty and its last step carries the verdict |
| `PredicateEval.Evaluation.EvalNode` | src/legacy/predicate.py:534-658 | the recursive evaluator returns the outcome whose verdicts are true of the scope, and appends exactly the trace |
| `PredicateEval.Evaluation.EvalAnd` | src/legacy/predicate.py:534-658 | the loop with short circuit is left-to-right conjunction, errors included |
| `PredicateEval.Evaluation.EvalOr` | src/legacy/predicate.py:534-658 | the loop with short circuit is left-to-right disjunction, errors included |
| `PredicateEval.Evaluation.EvalQuantifier` | src/legacy/predicate.py:534-658 | quantifiers over a missing field, a non-list and a list |
| `PredicateEval.EvaluateTraced` | src/legacy/predicate.py:516-658 | rejects a state that is not a dict; a verdict is what the tree says about the state; a False verdict always has a first failure |
| `PredicateValidate.FlawsMeaning` | src/legacy/predicate.py:722-798 | the list of errors is empty exactly for the trees of a declarative validity predicate |
| `PredicateValidate.Validation.Walk` | src/legacy/predicate.py:722-798 | the walk appends exactly the flaws of the tree, in order, or breaks off with a TypeError exactly at an unhashable comparator of `count` |
| `PredicateValidate.Validate` | src/legacy/predicate.py:706-798 | raises, reports flaws, or passes, each exactly when stated |
| `PredicateValidate.ValidIsWalked` | src/legacy/predicate.py:722-798 | a valid tree never makes the validator raise |
| `PredicateValidate.ValidNeverFailsStructurally` | src/legacy/predicate.py:522-798 | a valid tree evaluates to a boolean or to an error caused by the type of a field's value |
| `PredicateDecision.ValidLeafBreaksIff` | src/legacy/predicate.py:591-650 | a valid leaf fails exactly when its field is present with a value its operator cannot be applied to |
| `PredicateDecision.FittingIsDecided` | src/legacy/predicate.py:522-798 | a validated tree is decided, and decided truly, in every state whose present fields have the right types |
| `PredicateDecision.LoweringKeepsGateOpen` | src/legacy/predicate.py:534-658 | an open gate of upper limits stays open when numbers of the state are lowered |
| `PredicateCanon.SortSetCorrect` | src/legacy/predicate.py:436-459 | when the JSON texts tell the members apart, the canonical set is strictly ordered by them and has the same members |
| `PredicateCanon.KeySortedIsUnique` | src/legacy/predicate.py:436-459 | there is one such list |
| `PredicateCanon.CanonPreservesMeaning` | src/legacy/predicate.py:436-459 | every validated tree and its canonical form give the same boolean or the same error in every state |
| `PredicateCanon.SeparatingKeyExists` | src/legacy/predicate.py:436-459 | for every tree, and any finite family of them, there is a sort key that tells the members of each set apart |
| `PredicateCanon.CanonIsValid` | src/legacy/predicate.py:436-459 | canonicalising keeps validity |
| `PredicateCanon.CanonIsIdempotent` | src/legacy/predicate.py:436-459 | a canonical form is its own canonical form |
| `PredicateCanon.ChainMatchesCall` | src/legacy/predicate.py:315-332 | a left-nested chain and the n-ary call have one canonical form |
| `PredicateCanon.EqualReplayKeysAgree` | src/legacy/predicate.py:462-482 | predicates with equal replay keys agree in every state, unless the digest collides on the two canonical forms |
| `PredicateCanon.SetOrderIsIrrelevant` | src/legacy/predicate.py:462-482 | order and repetition in an `in` set do not show in the replay key |
| `PredicateRoundTrip.WrittenTreeReadsBack` | src/legacy/predicate.py:13-24 | every tree of the grammar, written in function form, is read back |
| `PredicateRoundTrip.ParserImage` | src/legacy/predicate.py:239-409 | the trees the parser can return are exactly those of the grammar |
| `PredicateRoundTrip.ChainInGrammar` | src/legacy/predicate.py:315-332 | whatever a chain parses to is in the grammar |
| `PredicateRoundTrip.InfixAndCallAgree` | src/legacy/predicate.py:315-409 | infix and call notation of one connective read to trees with one canonical form |
| `PredicateRoundTrip.ParsedTreeFlaws` | src/legacy/predicate.py:706-798 | a parsed tree can be rejected only for `.` outside a quantifier or an ordering comparison with a non-number |
| `PredicateParser.Parser.Chain` | src/legacy/predicate.py:315-332 | the loop over connectives consumes and returns what the grammar function says, left-nested |
| `PredicateParser.Parser.Term` | src/legacy/predicate.py:334-339 | `not` binds to the next term, parenthesised or not, and nests |
| `PredicateParser.Parser.Atom` | src/legacy/predicate.py:341-409 | groups, calls and comparisons, with the errors of the source |
| `PredicateParser.Parser.Members` | src/legacy/predicate.py:341-409 | the literal list of an `in` set |
| `PredicateParser.Parser.Quantifier` | src/legacy/predicate.py:341-409 | field, comma and body of a quantifier |
| `PredicateParser.ParseAll` | src/legacy/predicate.py:307-313 | terminates on every token list; a result is in the grammar and has only contextual flaws |
| `Transaction.RefusedByFirstObjection` | src/legacy/transaction.py:366-411 | an effect is refused exactly when a supplied check objects: task for task updates, version when one is expected, lock for the six write kinds, permission always; the reason is the first objection |
| `Transaction.CommittedIsCleared` | src/legacy/transaction.py:340-527 | what commits has every check in its favour, and so have its mates; without mates and rivals an effect commits exactly then |
| `Transaction.PipelineExplains` | src/legacy/transaction.py:340-527 | a failed effect carries the first objection, the failed group, the foremost rival or the lost group, in that order of precedence; a committed one no error |
| `Transaction.ExplanationIsUnique` | src/legacy/transaction.py:340-527 | a failure has one explanation and a success none |
| `Text.LessAtFirstDifference` | src/legacy/transaction.py:470-471 | agent ids are ordered at the first character that differs, a prefix first |
| `Transaction.WinnerIsForemost` | src/legacy/transaction.py:431-491 | the winner of a resource is the smallest agent id among its validated contenders |
| `Transaction.LoserHasForemostRival` | src/legacy/transaction.py:431-491 | an effect loses exactly when a smaller agent contends |
| `Transaction.ValidatedIffPasses` | src/legacy/transaction.py:340-429 | validation keeps exactly the effects to which, and to whose group mates, no supplied check objects |
| `Transaction.LoserIffLoses` | src/legacy/transaction.py:431-491 | losing in the list is losing in the order-free sense |
| `Transaction.ResolvedClosedForm` | src/legacy/transaction.py:431-504 | after resolution an effect is validated exactly in the closed form |
| `Transaction.PipelineCommitsClosedForm` | src/legacy/transaction.py:340-527 | the whole pipeline commits exactly the closed form and fails the rest |
| `Transaction.StagingOrderIsIrrelevant` | src/legacy/transaction.py:296-527 | the outcome of an effect does not depend on the order of staging |
| `Transaction.GroupsAreAllOrNothing` | src/legacy/transaction.py:340-527 | mates of an atomic group commit together or not at all |
| `Transaction.OneAgentPerResource` | src/legacy/transaction.py:431-527 | committed effects on one resource belong to one agent |
| `Transaction.ForemostExists` | src/legacy/transaction.py:470-472 | every resource with a contender has a foremost one |
| `Transaction.WinnersAreTheLeaders` | src/legacy/transaction.py:470-480 | the contenders that lose are exactly those of the other agents |
| `Transaction.NoSurvivorIff` | src/legacy/transaction.py:479-491 | nothing on a contested resource commits exactly when each effect of its foremost agent shares its group id with an atomic loser |
| `Transaction.UngroupedContestKeepsSurvivor` | src/legacy/transaction.py:431-504 | without atomic groups the foremost agent's effects are exactly the survivors, and there is one |
| `Transaction.ContestCanEndWithoutSurvivor` | src/legacy/transaction.py:479-491 | a concrete contest that nobody survives |
| `Transaction.TransactionBuffer.Stage` | src/legacy/transaction.py:296-327 | appends one staged effect with a new id |
| `Transaction.TransactionBuffer.Validate` | src/legacy/transaction.py:340-429 | the in-place loops compute the validation function, which keeps exactly what no check objects to |
| `Transaction.TransactionBuffer.ResolveConflicts` | src/legacy/transaction.py:431-504 | the in-place loops compute the resolution function |
| `Transaction.TransactionBuffer.Commit` | src/legacy/transaction.py:506-527 | commits exactly the validated effects and hands on the external ones |
| `Transaction.TransactionBuffer.Rollback` | src/legacy/transaction.py:529-543 | marks exactly the committed effects as rolled back and empties the committed list and the outbox |
| `Transaction.CommitTick` | src/legacy/transaction.py:340-527 | on a freshly staged buffer the committed effects are the closed form, every failure carries its reason, and the outbox holds exactly the committed mails and file effects |
| `Splicing.FitsFromMeansFits` | src/legacy/patch_ops.py:138-181 | fitting edit by edit is being in order, apart, and equal to the file at each place |
| `Splicing.SpliceLength` | src/legacy/patch_ops.py:138-181 | a splice changes the length by the net growth |
| `Splicing.LayoutSplices` | src/legacy/patch_ops.py:138-181 | a splice keeps every line outside the edits in order |
| `Splicing.ReverseFitsIff` | src/legacy/patch_ops.py:138-181 | reversed edits fit the result exactly when nothing was inserted past the end |
| `PatchApply.MatchHunk` | src/legacy/patch_ops.py:160-173 | the loop over a hunk finds the first line that differs from the file |
| `PatchApply.ApplyPatch` | src/legacy/patch_ops.py:126-181 | the loop over hunks computes the application function, errors included |
| `PatchApply.AcceptedIffFits` | src/legacy/patch_ops.py:138-181 | a patch is accepted exactly when its hunks are in order, apart, and match the file; the result is the splice |
| `PatchApply.OneHunkReplaces` | src/legacy/patch_ops.py:138-181 | a hunk is accepted exactly when its old side stands behind old_start - 1 lines, and the new side then stands there instead |
| `PatchApply.NewFileIff` | src/legacy/patch_ops.py:139-152 | a hunk that starts at line zero is accepted exactly when it declares no old line, only adds, and the file is blank; its lines then stand in front of the file |
| `PatchApply.SidesKeepOrder` | src/legacy/patch_ops.py:160-173 | context and removed lines make up the old side, context and added lines the new one, in the order of the hunk |
| `PatchApply.ResultLength` | src/legacy/patch_ops.py:138-181 | the result has the old length plus additions minus removals |
| `PatchApply.ReversePatchUndoes` | src/legacy/patch_ops.py:126-181 | the reverse patch is accepted exactly when nothing was inserted past the end, and then restores the file |
| `PatchApply.InsertionPastEndIsFinal` | src/legacy/patch_ops.py:153-155 | a concrete accepted insertion that cannot be reversed |
| `PosixPlacement.PlacesDiffer` | src/legacy/patch_ops.py:153-173 | whenever an edit inserts without cutting, some file the edits fit tells the two places apart |
| `PosixPlacement.AgreesWithPosixIff` | src/legacy/patch_ops.py:138-181 | the applier and POSIX agree on every file exactly when no hunk has an empty old range, hunks for new files included |
| `PosixPlacement.NewFileDisagrees` | src/legacy/patch_ops.py:139-151 | a patch with a new-file hunk that is accepted somewhere is treated differently by POSIX |
| `PosixPlacement.EmptyRangeInsertsOneLineEarly` | src/legacy/patch_ops.py:153 | a hunk and a file on which they differ |
| `PatchParse.HeaderReadsBack` | src/legacy/patch_ops.py:72-79 | a written hunk header reads back to its four numbers |
| `PatchParse.HeaderIsReadIff` | src/legacy/patch_ops.py:23-25 | exactly the lines of the header pattern are read, to the numbers they show; a missing count is one |
| `PatchParse.LineIsReadIff` | src/legacy/patch_ops.py:84-92 | a body line is a text behind a space, a plus or a minus, and nothing else is |
| `PatchParse.StartsHunkMeaning` | src/legacy/patch_ops.py:72 | a hunk starts at every line that begins with two at signs |
| `PatchParse.ReadBodyLoop` | src/legacy/patch_ops.py:81-110 | the loop over body lines computes the body function, errors included |
| `PatchParse.CompleteCounts` | src/legacy/patch_ops.py:81-110 | a body that was read has at least the declared counts and meets one of them exactly |
| `PatchParse.CountsAreExactIff` | src/legacy/patch_ops.py:81-110 | a body that was read has exactly the declared counts if and only if no context line comes when one count is met |
| `PatchParse.ContextCanOvershoot` | src/legacy/patch_ops.py:94-96 | a hunk that declares one old line and is read with two |
| `PatchParse.ExactCountsAreComplete` | src/legacy/patch_ops.py:81-110 | exact counts are always accepted |
| `PatchParse.PatchReadsBack` | src/legacy/patch_ops.py:55-123 | every readable hunk list, written out, reads back |
| `PatchParse.ReadPatchImage` | src/legacy/patch_ops.py:55-123 | the hunk lists the reader can return are exactly the readable ones |
| `PatchParse.ParseUnifiedPatch` | src/legacy/patch_ops.py:55-123 | the outer loop computes the reading function and returns readable hunks |
| `PatchParse.PatchTextCanBeUndone` | src/legacy/patch_ops.py:55-181 | the reverse of a patch that was read can be written, read and applied, and restores the file |
| `Recall.InverseIsUnique` | src/legacy/memory_recall.py:164-168 | a trigger map has one inverse index without empty buckets |
| `Recall.RecallIndex.OnPut` | src/legacy/memory_recall.py:174-192 | the incremental update keeps the index the exact inverse and replaces one entry's triggers |
| `Recall.RecallIndex.OnEvict` | src/legacy/memory_recall.py:194-201 | the same when an entry leaves |
| `Recall.RecallIndex.OnFold` | src/legacy/memory_recall.py:203-205 | the same for a fold |
| `Recall.RecallIndex.Perform` | src/legacy/memory_recall.py:174-205 | after any run of writes the index is the inverse of the last word on each entry |
| `Recall.RecallIndex.Lookup` | src/legacy/memory_recall.py:211-213 | exactly the entries with that trigger |
| `Recall.RecallIndex.SubstringSearch` | src/legacy/memory_recall.py:215-225 | exactly the entries with a trigger that contains the text |
| `Recall.CollectHits` | src/legacy/memory_recall.py:275-305 | the hit map is that of a plain scan of the triggers |
| `Recall.Query` | src/legacy/memory_recall.py:275-326 | one candidate for exactly each stored, admitted entry with a hit, with its terms and their number |
| `Recall.AddTerms` | src/legacy/memory_recall.py:421-426 | merging keeps one term of each spelling and all spellings |
| `Recall.MergedHits` | src/legacy/memory_recall.py:416-430 | counting merged hits is counting distinct case-folded terms |
| `Recall.RankedIsSorted` | src/legacy/memory_recall.py:447-449 | ranking sorts by falling score and loses nothing |
| `Recall.CutIsTop` | src/legacy/memory_recall.py:447-449 | cutting a full ranking to top_k keeps min(top_k, all) of it, for a negative top_k drops that many from the end, and omits nothing better than what it keeps |
| `Recall.TopReturnsAllThatFit` | src/legacy/memory_recall.py:447-449 | when at most top_k entries are relevant, all of them are returned |
| `Recall.LeftOutOfTop` | src/legacy/memory_recall.py:447-449 | an entry is left out only for top_k others that score no less; a negative top_k leaves out exactly that many |
| `Recall.RankedIsStable` | src/legacy/memory_recall.py:447-448 | equal scores keep their order |
| `Recall.RecallTop` | src/legacy/memory_recall.py:392-449 | recall is the descending top of a brute-force scan, min(top_k, number found) long, and consumes the one-off terms |
| `Recall.SameWritesAreInStep` | src/legacy/memory_recall.py:150-162 | index and store that saw the same writes agree on every trigger |
| `Recall.TriggerScanIsStoreScan` | src/legacy/memory_recall.py:243-254 | scanning the triggers is scanning the entries: relevant are those of a wanted type whose title or memory points contain a term, scored by the number of spellings they contain |
| `Recall.RecallAfterWrites` | src/legacy/memory_recall.py:392-449 | with an index and a store that saw the same writes, recall is that top of a scan of titles and memory points of the stored entries themselves |
| `Recall.ScansAgreeIff` | src/legacy/memory_recall.py:262-273 | what is found and what the announced two-way rule would find are the same entries with the same scores exactly when no term contains a trigger of an admitted entry without being contained in one |
| `Recall.LongerTermIsMissed` | src/legacy/memory_recall.py:215-225 | a term that continues a trigger is announced to match and does not |
| `Recall.RefundRequestIsMissed` | src/legacy/memory_recall.py:215-225 | trigger "refund", term "refund request" |
| `Conditions.HoldsIffMet` | src/legacy/authority.py:134-165 | a condition is true exactly when it is met, false exactly when its opposite is, and unknown otherwise; no absent fact meets one that does not ask for absence |
| `Conditions.ComparedMeaning` | src/legacy/authority.py:152-164 | the order is that of numbers by size, of texts by the first character and of lists by the first element that differ |
| `Conditions.LimitIsInequality` | src/legacy/authority.py:152-164 | on numbers each ordering condition is the inequality, and never unknown |
| `Conditions.UpperLimitIsMonotone` | src/legacy/authority.py:152-164 | an upper limit that passes at one amount passes at every smaller one, and under every higher limit |
| `Authority.SpecificityIsCoverage` | src/legacy/authority.py:262-272 | exact is the same context, wildcard a stem of it before a final asterisk, unscoped none |
| `Authority.EffectiveIffAllMet` | src/legacy/authority.py:275-277 | a grant is effective exactly when each of its conditions is met |
| `Authority.Resolve` | src/legacy/authority.py:293-468 | tiering, filtering and the descent through tiers compute the decision function over grants that cover the context and whose conditions are met |
| `Authority.MakeTiers` | src/legacy/authority.py:328-333 | each tier holds exactly the grants of its specificity, in order |
| `Authority.DecideFollowsRule` | src/legacy/authority.py:363-468 | what the finals of a tier decide is an order-free rule of their bag and the first quota |
| `Authority.ResolveFollowsRule` | src/legacy/authority.py:293-468 | the most specific tier with an effective veto or final decides by the rule; without one the claim is unresolved |
| `Authority.DecisionIsTrueReport` | src/legacy/authority.py:293-468 | the vetoes and finals named are exactly those of the deciding tier, the consultations exactly those of the tiers heard, and the escalation is that of the first grant declared for what happened |
| `Authority.InessentialGrantsAreIrrelevant` | src/legacy/authority.py:293-468 | any set of grants outside the deciding vetoes and finals can be withdrawn without effect |
| `Authority.BlockedIffUnshieldedVeto` | src/legacy/authority.py:341-357 | a claim is blocked exactly by an effective veto with no effective final in a more specific tier |
| `Authority.EffectiveVetoNeedNotBlock` | src/legacy/authority.py:341-357 | an effective veto in the widest tier does not block a claim with a final in the narrowest |
| `Authority.OrderIsIrrelevantIff` | src/legacy/authority.py:418-436 | all orders of the grants decide alike exactly when the consent so far does not lie between two declared quotas |
| `Authority.OrderCanMatter` | src/legacy/authority.py:418-436 | two finals with quotas on both sides of the consent given: one order allows, another waits |
| `Authority.SharedQuotaSettlesOrder` | src/legacy/authority.py:418-436 | order is irrelevant when the deciding finals share their threshold |
| `Authority.ConsentOnlyAdvances` | src/legacy/authority.py:335-468 | more consent moves WAITING to ALLOWED by a joint or threshold decision, or enlarges the set named by a threshold decision, and changes nothing else |
| `Authority.SoleHolderDecidesAlone` | src/legacy/authority.py:363-364 | where one final decides alone the ruling depends only on whether its holder asks, for every set of consents |
| `Authority.HolderConsentIsIgnored` | src/legacy/authority.py:437-468 | the only holder has consented, and the claim waits |
| `Authority.ResolveClaim` | src/legacy/authority.py:471-485 | one decision for each domain of the claim |
| `Authority.OverallMeaning` | src/legacy/authority.py:488-501 | the precedence of the aggregate, in both directions |
| `Authority.ClaimsOnlyAdvance` | src/legacy/authority.py:471-501 | more consent never takes a claim back |
| `Authority.ExceededLimitNeverDecides` | src/legacy/authority.py:275-361 | a grant whose upper limit is exceeded is named nowhere, and withdrawing it changes no ruling |
| `Authority.LimitedHolderAllowsIff` | src/legacy/authority.py:134-165 | the claim of a sole holder with an upper limit is allowed exactly within the limit |
| `Conditions.OppositesExclude` | src/legacy/authority.py:134-165 | a condition passes exactly when its opposite fails, and unknown stays unknown under negation |
| `RecordStore.UpsertAcceptedIff` | src/legacy/record_store.py:264-320 | an upsert is accepted exactly when its type is registered, the fields are present and of the declared types, no unique value is used by another key, and every ruled number, zero if absent, is >= 0 or > 0; it then holds the key and touches no other |
| `RecordStore.UpsertReportsFirstFault` | src/legacy/record_store.py:109-134 | otherwise the first fault is reported: fields before unique values before bounds, each in the order declared |
| `RecordStore.DeltaAcceptedIff` | src/legacy/record_store.py:322-385 | a delta is accepted exactly when the field holds a number and the shifted record keeps every bound; it shifts that number by exactly the delta and keeps all else |
| `RecordStore.DefaultsMeaning` | src/legacy/record_store.py:337-349 | a missing record starts with zero, false or the empty text in each declared field |
| `RecordStore.RuledNumbersStayInBounds` | src/legacy/record_store.py:63-84 | in every reachable state a number under a rule of the type that wrote its record is >= 0 under non_negative and > 0 under positive |
| `RecordStore.ReplayIsKeywise` | src/legacy/record_store.py:247-260 | replay crashes exactly when one key does and otherwise collects what each key becomes |
| `RecordStore.ReplaysIffAgrees` | src/legacy/record_store.py:247-260 | the records are the replay exactly when every key agrees |
| `RecordStore.UpsertIsCoherent` | src/legacy/record_store.py:264-320 | an upsert keeps replay and records together, accepted or not |
| `RecordStore.DeltaIsCoherentIff` | src/legacy/record_store.py:322-385 | a delta does so exactly when the record existed or the schema declares no other field |
| `RecordStore.FirstDeltaBreaksReplay` | src/legacy/record_store.py:337-349 | a first delta on a record of a two-field type is accepted, and the ledger no longer replays to the records |
| `RecordStore.InvertIsCoherent` | src/legacy/record_store.py:389-405 | inverting the latest write of a key keeps them together, whatever happened to other keys since |
| `RecordStore.InvertUndoesWrite` | src/legacy/record_store.py:389-405 | an inverse restores records and ledger, and says what becomes of the version number |
| `RecordStore.LedgerReplaysToRecords` | src/legacy/record_store.py:247-405 | in every reachable state the ledger replays to the records |
| `RecordStore.SharedKeyIffCollide` | src/legacy/record_store.py:241-242 | two types share a full key exactly when one is a colon-separated prefix of the other |
| `RecordStore.PerformIsLawful` | src/legacy/record_store.py:63-84 | writes and inverses keep every record within the rules of its type |
| `RecordStore.EveryRecordObeysItsWriter` | src/legacy/record_store.py:264-405 | in every reachable state each record is what the latest ledger entry of its key left, and its ruled numbers are within the bounds of the type that wrote it |
| `RecordStore.EveryRecordIsLawful` | src/legacy/record_store.py:264-405 | each record obeys the rules of every type that can read it, when no registered type is a prefix of another |
| `RecordStore.CollidingTypesCanBreakRules` | src/legacy/record_store.py:277-278 | a concrete upsert that stores a record another type forbids |
| `RecordStore.StoringKeepsUniqueIff` | src/legacy/record_store.py:280-294 | unique fields stay unique exactly when the check of an upsert passes |
| `RecordStore.DeltaCanBreakUniqueness` | src/legacy/record_store.py:322-385 | an accepted delta that duplicates a unique value |
| `RecordStore.RecordStore.Upsert` | src/legacy/record_store.py:264-320 | the checks in order, then record, ledger, counter and version as specified |
| `RecordStore.RecordStore.ApplyDelta` | src/legacy/record_store.py:322-385 | the delta on the stored record or on the defaults |
| `RecordStore.RecordStore.InvertMutation` | src/legacy/record_store.py:389-405 | drops the ledger entries and restores or removes the record |
| `RecordStore.RecordStore.ReplayLedger` | src/legacy/record_store.py:247-260 | the fold over the ledger computes the replay function |
| `RecordStore.RecordStore.CheckRules` | src/legacy/record_store.py:63-84 | the first rule whose number is out of bounds, if any |
| `RecordStore.RecordStore.CheckUnique` | src/legacy/record_store.py:280-294 | the first unique field whose value is taken, if any |
| `RecordStore.RecordStore.CheckFields` | src/legacy/record_store.py:109-134 | the first missing or mistyped field, if any |
| `MemoryStore.RebuiltIffSound` | src/legacy/memory_store.py:59-71 | a snapshot can be rebuilt by appending exactly when it is non-empty, of one id and consecutive |
| `MemoryStore.PerformKeepsSound` | src/legacy/memory_store.py:141-247 | put, evict and fold keep every chain sound |
| `MemoryStore.AcceptedIff` | src/legacy/memory_store.py:141-247 | a put is accepted exactly for an entry that is not projected and has the next version, or version one if new; a fold exactly onto a stored entry of that id; what is rejected changes nothing |
| `MemoryStore.UndoRestores` | src/legacy/memory_store.py:253-283 | the effect of one operation, accepted or rejected, undoes exactly that operation |
| `MemoryStore.RollbackRestores` | src/legacy/memory_store.py:141-283 | rolling back a run's effects in reverse restores the store and never fails |
| `MemoryStore.RunsRecordSoundChains` | src/legacy/memory_store.py:141-247 | every recorded snapshot is a sound chain |
| `MemoryStore.InjectedEntersOnlyByFold` | src/legacy/memory_store.py:141-247 | a projected entry enters the store exactly by an accepted fold with one |
| `MemoryStore.WriteRaisesVersionIff` | src/legacy/memory_store.py:141-247 | an accepted write raises the version unless it is a fold to a version not above the current one |
| `MemoryStore.FoldTakesAnyVersion` | src/legacy/memory_store.py:214-247 | a fold accepts every version an entry can be constructed with |
| `MemoryStore.FoldCanLowerVersion` | src/legacy/memory_store.py:214-247 | a fold can take an entry back to its first version |
| `MemoryStore.VersionChain.AppendVersion` | src/legacy/memory_store.py:59-71 | appends exactly the next version of the same id |
| `MemoryStore.AgentMemory.Put` | src/legacy/memory_store.py:141-184 | rejects projected entries before staging; otherwise stages, then writes or fails |
| `MemoryStore.AgentMemory.Write` | src/legacy/memory_store.py:306-314 | extends a chain in place without touching another |
| `MemoryStore.AgentMemory.Evict` | src/legacy/memory_store.py:186-212 | removes the chain and records it |
| `MemoryStore.AgentMemory.Fold` | src/legacy/memory_store.py:214-247 | replaces the chain and records it |
| `MemoryStore.AgentMemory.RollbackEffect` | src/legacy/memory_store.py:253-283 | removes the entry or rebuilds its chain |
| `MemoryStore.AgentMemory.PerformAndUnwind` | src/legacy/memory_store.py:141-283 | on the objects: whatever was attempted, unwinding leaves the store as it was |
| `RecallSync.WritesKeepInStep` | src/legacy/memory_recall.py:376-386 | an index that is told of every accepted write agrees with the store |
| `RecallSync.RollbackKeepsInStepIff` | src/legacy/memory_store.py:253-283 | after one rollback it still does exactly when the entry was there before and after with the same triggers, or at neither time |
| `RecallSync.UnwoundInStepIff` | src/legacy/memory_store.py:253-283 | after a whole run is unwound it does exactly when the run changed no entry's triggers on balance |
| `RecallSync.RolledBackPutStaysIndexed` | src/legacy/memory_store.py:253-283 | a first version that is rolled back stays in the index |
| `Scheduler.RankedInOrder` | src/legacy/scheduler.py:39-48 | sorting by urgency keeps the agents and puts each before all less urgent ones |
| `Scheduler.PrecedesIsUrgency` | src/legacy/scheduler.py:39-48 | the order is higher priority, then earlier deadline with none last, then agent id |
| `Scheduler.MatchesAsDocumentedIff` | src/legacy/scheduler.py:72-108 | a condition matches as documented, for every event and tick, exactly when it names no kind of event or each restriction is empty or contains the empty name |
| `Scheduler.EmptyFieldsSlipThrough` | src/legacy/scheduler.py:94-107 | the event without task, resource, thread and sender that passes any other condition |
| `Scheduler.WakingEventsMeaning` | src/legacy/scheduler.py:72-108 | an agent's events are exactly the eligible ones addressed to it that its condition matches, while it is active |
| `Scheduler.CandidatesMeaning` | src/legacy/scheduler.py:189-237 | the candidates are exactly the agents with such events, each with all of them, in strict order |
| `Scheduler.SelectionIsUrgentPrefix` | src/legacy/scheduler.py:239-250 | at most capacity are selected, as many as fit, and every selected agent is more urgent than every cut one |
| `Scheduler.CutSparesOthers` | src/legacy/scheduler.py:243-247 | putting cut events back touches neither running nor selected events |
| `Scheduler.ComputeKeepsInv` | src/legacy/scheduler.py:173-250 | a computation keeps waiting events eligible, running ones claimed and successful ones consumed |
| `Scheduler.BeginKeepsInv` | src/legacy/scheduler.py:297-325 | so does beginning any candidate whose events are eligible or claimed |
| `Scheduler.ReadyIsRunnable` | src/legacy/scheduler.py:173-250 | what the ready list still offers is such a candidate |
| `Scheduler.CompleteKeepsInv` | src/legacy/scheduler.py:327-361 | so does every failure, and every success that is a first completion or comes after consumption |
| `Scheduler.SuccessIsHarmlessIff` | src/legacy/scheduler.py:327-361 | that guard on successes is exact |
| `Scheduler.EndTickKeepsInv` | src/legacy/scheduler.py:363-368 | so does the end of a tick |
| `Scheduler.EveryRunIsExclusive` | src/legacy/scheduler.py:173-368 | over every run an event is in at most one successful activation |
| `Scheduler.RunningCandidateIsExclusiveIff` | src/legacy/scheduler.py:297-361 | running an arbitrary candidate to success keeps this exactly when none of its events is consumed |
| `Scheduler.PerformKeepsRecorded` | src/legacy/scheduler.py:327-361 | every consumed event stays on record as a success, unless a success is later declared a failure |
| `Scheduler.SecondSuccessBreaksExclusivity` | src/legacy/scheduler.py:327-361 | a run with a success after a failure in which one event ends in two successful activations |
| `Scheduler.StageCanBeSet` | src/legacy/scheduler.py:173-250 | agents, events and conditions for that run exist |
| `Scheduler.OneActivationPerTick` | src/legacy/scheduler.py:306-310 | an agent that began cannot begin again before the tick ends |
| `Scheduler.CutEventsSurviveTheTick` | src/legacy/scheduler.py:239-250 | the events of a cut candidate are queued after the tick, whatever happens in it |
| `Scheduler.UnmatchedEventExpires` | src/legacy/scheduler.py:189-192 | an event seen too early expires with the tick |
| `Scheduler.UntakenEventSurvivesIff` | src/legacy/scheduler.py:189-250 | of the queued events no activation takes, exactly those of cut candidates outlive the tick |
| `Scheduler.EarlyEventExpires` | src/legacy/scheduler.py:363-368 | an event computed before it is visible expires |
| `Scheduler.AgentScheduler.ComputeReadySet` | src/legacy/scheduler.py:173-250 | marking, grouping, sorting and cutting as specified |
| `Scheduler.AgentScheduler.Group` | src/legacy/scheduler.py:194-223 | the grouping loop collects each agent's waking events |
| `Scheduler.AgentScheduler.PutBack` | src/legacy/scheduler.py:243-247 | requeues exactly the open events of the cut candidates |
| `Scheduler.AgentScheduler.Move` | src/legacy/scheduler.py:252-295 | the loop behind claim, defer, consume and requeue |
| `Scheduler.AgentScheduler.EnqueueEvent` | src/legacy/scheduler.py:162-171 | appends the event, visible from the next tick unless said otherwise |
| `Scheduler.AgentScheduler.BeginActivation` | src/legacy/scheduler.py:297-325 | refuses an active agent, otherwise claims and records |
| `Scheduler.AgentScheduler.CompleteActivation` | src/legacy/scheduler.py:327-361 | consumes on success, returns the events on failure |
| `Scheduler.AgentScheduler.FinishTick` | src/legacy/scheduler.py:363-368 | expires what is eligible and clears the activations |
| `Outbox.AtMostOnceDelivery` | src/legacy/outbox.py:79-186 | over every interleaving no key is delivered twice, the callback runs at most `max_retries + 1` times for an entry, and the key set is that of the live entries |
| `Outbox.EveryEntrySettles` | src/legacy/outbox.py:124-166 | an entry due at tick t and dispatched every tick is delivered or dead by `t + max_retries`, unless rolled back |
| `Outbox.StageKeepsInv` | src/legacy/outbox.py:79-115 | staging keeps keys unique and accounted for |
| `Outbox.DispatchKeepsInv` | src/legacy/outbox.py:124-166 | a dispatch delivers only new keys and charges every call |
| `Outbox.RollbackKeepsInv` | src/legacy/outbox.py:168-186 | only an undelivered entry goes, and its key with it |
| `Outbox.DispatchCharges` | src/legacy/outbox.py:150-164 | every call is a counted failure or a delivery |
| `Outbox.Outbox.Stage` | src/legacy/outbox.py:79-115 | returns the entry that has the key, or a new staged one |
| `Outbox.Outbox.CommitEntry` | src/legacy/outbox.py:117-122 | commits a staged entry and no other |
| `Outbox.Outbox.DispatchAll` | src/legacy/outbox.py:124-166 | hands each due entry to the callback once and reports both lists |
| `Outbox.Outbox.Drop` | src/legacy/outbox.py:168-186 | removes an entry of the given status with its key |
| `Integration.TouchKeepsInv` | src/legacy/integration.py:213-220 | windows stay a window length apart and dispatches stay inside theirs |
| `Integration.RecordKeepsInv` | src/legacy/integration.py:230-244 | after admission no window exceeds the quota |
| `Integration.QuotaInAnyInterval` | src/legacy/integration.py:196-244 | an interval no longer than the window holds at most twice the quota |
| `Integration.EveryIntervalIsBounded` | src/legacy/integration.py:196-244 | for every provider, run and non-decreasing clock |
| `Integration.BoundIsTight` | src/legacy/integration.py:108-112 | twice the quota is reached in intervals however short |
| `Integration.SlidingPromiseIff` | src/legacy/integration.py:196-244 | in every run, the quota holds in every interval of window length exactly when each dispatch comes more than that after the one a quota earlier |
| `Integration.SlidesIffWellSpread` | src/legacy/integration.py:196-244 | the same for every log in order of time |
| `Integration.IntegrationRegistry.Admit` | src/legacy/integration.py:196-228 | denies an unowned tool, renews the window, and admits exactly while there is room |
| `Integration.IntegrationRegistry.RecordDispatched` | src/legacy/integration.py:230-244 | charges the owner's window and no other |
| `Integration.IntegrationRegistry.AdmitAndRecord` | src/legacy/integration.py:196-244 | the object's windows move exactly as the model's lanes |

## Left out

- Lexing: the regular expressions of `_tokenize`, number conversion and string escapes; tokens carry their values.
- Floating point: numbers are mathematical, so NaN, infinities, signed zero and rounding do not occur.
- JSON text and the hash of a replay key: parameters; where they must not collide, the lemma asks for it.
- Canonical forms of trees that validation rejects, such as an `in` set that is not a list; the operator and field lists and message texts of `validate`; the escalation hints of the parser.
- L1 Python predicates and everything that runs them.
- Transaction: the records of resolved conflicts, the returned list of failures, and callbacks that change state; permission, lock, constraint and budget checks are functions of the effect.
- Patch: splitting text into lines and joining it, and whether the text is blank, which is a parameter; digits other than ASCII; an empty patch is reported like one without hunks.
- Organisation: flags of the edge semantics beyond downward and sideways delegation, who may edit (a boolean), memory texts, registry and journal, `replace`.
- Agent tree: loading and saving.
- Recall: lower-casing is a parameter that never empties a text; the order in which candidates reach the ranking; pinning and recall effects.
- Authority: reason texts, the rendering of joint and threshold winners as strings, `check_delegation_monotonic`; condition values that are sets or tuples.
- RecordStore.EveryRecordIsLawful: the condition on type names is sufficient; whether colliding types break a rule depends on the rules themselves, and `RecordStore.EveryRecordObeysItsWriter` needs no condition.
- PosixPlacement.AgreesWithPosixIff: patches that apply to some file and have no hunk without lines; an empty old range is one whose body keeps and removes nothing.
- RecordStore: registration during a run, ticks and agents in ledger entries, deltas given as integers, aliasing of nested values.
- RecordStore.LedgerReplaysToRecords: inverses go back key by key, latest first, with the record found before the write, as the simulation captures it.
- MemoryStore: dumping and reloading entries is the identity; staging into the transaction buffer is a list of undo records.
- Scheduler.EveryRunIsExclusive: event ids are unique, begun candidates have eligible or claimed events, and a success is a first completion or comes after consumption; what happens otherwise is stated by further lemmas. External requeueing between beginning and completing is not part of a run.
- Scheduler: time zones of deadlines, and a deadline equal to the largest date.
- Outbox: mail contents beyond a payload, error texts, callbacks that change the outbox; entry ids are never reused.
- Integration.EveryIntervalIsBounded: admission and record of a call follow each other directly, and limits do not change during a run.
- Control plane, runtime, language-model gateway, persistence, credentials, assets, tools and their manifests, audit log, task tree, user interface and project scripts.
