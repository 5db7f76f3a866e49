# Verified model of the ASAS decision core

ASAS reviews surveillance alerts on booked trades. It links trades into episodes, measures how
far an episode deviates from its peers, lets an agent investigate it under a fixed protocol,
and decides whether a human must look at it alone, in bulk, or at once. Agents and models are
not trusted: what they may change is decided by the deterministic code around them. This project
models that code in Dafny and proves what it guarantees.

Where the original updates objects step by step, the model has classes and methods with loops
(`Casework`, `Assessment`, `Decisions`, `EpisodeLinker`, `DurableStore`, `GovernanceService`,
`AuditTrail`, `Graph`, `JointRarity`, `Residue`, `Windows`, `Throttles`). Each of their methods is proved against a
function of its inputs and the old state or against the property itself, and the lemmas are
about those functions.

| module (file) | part of the system |
|---|---|
| `Evidence`, `Hypotheses`, `Verdicts` | typed views, tool requests, the hypothesis catalog and its evaluators, and when each hypothesis is supported or ruled out |
| `Adjudication`, `Rulings` | the verifier that turns evaluations into a conclusion or an abstention, and what its ruling means signal by signal |
| `Investigator`, `Replies`, `Protocol`, `Soundness` | the investigation state machine under an arbitrary policy, when it refuses an action, its invariant, safety over every run |
| `Abstention`, `Abandonment` | when an accepted abstention is justified by the evidence, and a run in which it is not |
| `PlaybookProgress` (`Playbook.dfy`), `PlaybookExactness` (`PlaybookExact.dfy`) | the deterministic playbook: progress, termination, exactness |
| `Casework`, `Assessment` | the handlers as methods of an object, the exhaustive assessment as loops |
| `Decisions` | the decision gate and the cohort former |
| `Linking`, `EpisodeAssembly`, `LinkRounds`, `EpisodeLinker`, `Residue`, `Candidates` | guarded merges, the two linking stages, one round of each loop, union-find with path halving, the unresolved pairs and what makes one |
| `EpisodeLinks`, `EpisodeRefusals`, `Twins` | which links are tried, read off the events; that every refusal is justified by the finished episodes; the smallest books |
| `Runtime`, `DurableStore`, `DurableInvestigation` | the durable agent loop on values, the loop over tables that may die at any write, and the investigation run by it |
| `Recovery`, `Stalls` | when the model acts and when the playbook, and the hand-over of a stuck run |
| `Governance`, `Rollbacks`, `Trials`, `GovernanceService`, `AuditChain`, `AuditTrail` | candidate logs, bundles, activations and rollbacks, which calls stop or release a candidate, the hash chain and its anchors, and the objects that keep them |
| `Rules`, `Discovery`, `Synthesis`, `JointRarity` | the rule language, compiling and simplifying rules, what one simplifying pass guarantees, item combinations |
| `Statistics`, `Scales`, `Windows` | rounding, robust statistics, tail screening, residual outlyingness; what the scale means and that units do not matter; reference windows and recurrence counts |
| `Graph`, `Limits`, `Throttles` | the bounded neighbourhood, the token bucket, the circuit breaker |
| `Trades`, `Seqs` | shared names for trades, events and links; sequences, filters, sorting |

`dafny verify dfyconfig.toml` checks the whole project.

## Findings about the code

- The doc comment of `_abstain` promises that a model abstains only where every applicable
  hypothesis was evaluated and the evidence supports no conclusion. Two families of runs break it:
  before the episode evidence is fetched nothing is checked (`Abstention.UnguardedAbstention`), and
  an INSUFFICIENT recorded before its evidence arrived counts for good
  (`Abandonment.AbandonedAnomaly`: a run that holds a verified deviation and may still abandon it;
  `Abandonment.ExampleIsAbandoned` is one on an ordinary episode of two new trades).
  `Abstention.EveryAbstention` is the exact condition over all runs: the episode evidence is held,
  and evaluating again just the records that are out of date leads to no conclusion.
- The growth limit of rule synthesis is applied to each dropped condition, not to the result. It
  bounds the result on every bench exactly when the limit is at most 1 or at most two distinct
  conditions are given: `Synthesis.OneStepSufficesIff`, with a bench that exceeds it for every
  other limit and size, in any rule language, in `Synthesis.StairsBreak`. In general it compounds:
  `Discovery.VolumeCompounds`.
- Rule synthesis is described as finding the smallest rule that keeps precision. One pass does so on
  every bench exactly when the limit is below 1 or at most two distinct conditions are given:
  `Synthesis.SmallestAlwaysIff`; `Synthesis.DecoyBreaks` is the bench with the overlooked rule.
  `Synthesis.MinedPatternBreaks` shows both on a pattern of three of the engine's own flags.
- A band without cuts compiles to no condition, so its rule fires where the signal is absent:
  `Discovery.EmptyCutsWiden`, exact for all patterns in `Discovery.ConjunctionMeaning`.
- After a rollback every approval is refused until the newest bundle is active again, because
  its bundle id is taken: `Governance.ApprovalSucceedsIff`, `Governance.NoReleaseBelowTheNewest`.
  `Rollbacks.SecondIsBlocked` is a sequence of calls that gets there with everything else in order;
  `Rollbacks.WaitingIsDecided` says which refusal it is, and when.
- The hash chain does not cover sequence numbers. An anchor still fixes the numbers before it
  exactly when none is skipped up to the anchored row, or it is the first row:
  `AuditChain.AnchorFixesNumbersIff`; `AuditChain.RenumberingPasses` gives the other numbering in
  all remaining cases.
- `build_episodes` raises exactly when a trade that no accepted rebook link names has several
  events and all of them are cancellations: `Residue.BuildRaisesIff`. Such a trade does it whatever
  else is given, if it names no original and no trade names it: `Residue.UnrelatedCancelsRaise`; two
  versions of one cancellation are enough: `Residue.TwoCancelsRaise`.

## Model

| member | source | states |
|---|---|---|
| Hypotheses.MoreEvidenceKeepsEvaluation | src/asas/engine/hypotheses.py:556-580 | Once a hypothesis holds every request it requires, its evaluation is the same on every larger bag of evidence. |
| Hypotheses.CleanLinksKeepVerdict | src/asas/engine/hypotheses.py:127-135 | Adding links that pass the link checks never changes a verdict that is already SUPPORTED or CONTRADICTED, for any hypothesis; the rebook and reprice evaluators read those links. |
| Hypotheses.CleanLinksKeepRebook | src/asas/engine/hypotheses.py:259-290 | A definite verdict of the rebook evaluator survives every link that passed the checks. |
| Hypotheses.CleanLinksKeepReprice | src/asas/engine/hypotheses.py:398-414 | A definite verdict of the reprice evaluator survives every link that passed the checks. |
| Hypotheses.OtherEvaluatorsIgnoreLinks | src/asas/engine/hypotheses.py:159-460 | The evaluators and requirements of the other hypotheses do not depend on the verified links. |
| Hypotheses.VerdictsAreStable | src/asas/engine/hypotheses.py:566-580 | A verdict reached on partial evidence is the verdict on all evidence and all later checked links. |
| Verdicts.AppliesMeaning | src/asas/engine/hypotheses.py:464-557 | To which episodes each hypothesis of the catalog applies, in terms of its flags and numbers. |
| Verdicts.RequirementsMeaning | src/asas/engine/hypotheses.py:464-563 | A request is required by a hypothesis exactly when it is one of those listed: versions or histories of its trades, the event sequence, recurrence, peers, profile or prior outcomes of the episode, a comparison for each rebook pair. |
| Verdicts.StagesMeaning | src/asas/engine/hypotheses.py:566-580 | A hypothesis that does not apply is ruled out; one that lacks a field or a request is left open and says exactly what it lacks. |
| Verdicts.RoundTripMeaning | src/asas/engine/hypotheses.py:365-388 | With its evidence held: supported exactly when in some trade an amendment near the period end moves the price by the minimum or more, a price is restored across it, and the first restore comes in a later version than the first move; otherwise ruled out. |
| Verdicts.RoutineMeaning | src/asas/engine/hypotheses.py:182-204 | With its evidence held: supported exactly when the trade has a single version, a new one, booked within the latency limit, and the episode no more outliers than allowed; otherwise ruled out. |
| Verdicts.PriceCorrectionMeaning | src/asas/engine/hypotheses.py:211-240 | With its evidence held: supported exactly when there is an amendment and each is a prompt, bounded change of the price alone; ruled out when a priced one is not; else open, missing exactly the unpriced ones. |
| Verdicts.OffMarketMeaning | src/asas/engine/hypotheses.py:321-358 | With its evidence held: supported exactly when an amendment is large and the peers show the value unusual; open when one is large and the peers say nothing; else ruled out. |
| Verdicts.RebookMeaning | src/asas/engine/hypotheses.py:259-293 | With its evidence held: ruled out exactly when some rebook of a cancelled trade does not repeat it; else open exactly when a cancelled trade has no rebook, and says which; else supported. |
| Verdicts.RepriceMeaning | src/asas/engine/hypotheses.py:398-417 | With its evidence held: supported exactly when a rebook moved the price beyond the tolerance; ruled out when there are rebooks and none did; open without any. |
| Verdicts.DeviationMeaning | src/asas/engine/hypotheses.py:428-444 | With its evidence held: supported exactly when the profile verified a deviation, with exactly the verified signals; ruled out exactly when a profile verified none; open without one. |
| Verdicts.ContextMeaning | src/asas/engine/hypotheses.py:451-461 | With its evidence held: ruled out exactly when curated history was escalated, else supported exactly from the configured number of cleared outcomes on, else open. |
| Verdicts.LateMeaning | src/asas/engine/hypotheses.py:301-309 | With its evidence held: always left open, missing exactly the configured records. |
| Adjudication.AdjudicationMeaning | src/asas/engine/hypotheses.py:626-682 | The conclusion is characterised by which evaluations occur: a supported typed anomaly first, then unexplained deviation, then a supported benign explanation with nothing blocking. |
| Adjudication.AbstentionMeaning | src/asas/engine/hypotheses.py:626-682 | Without a conclusion the missing list is exactly what the blocking evaluations miss, and the reason says whether anything blocks. |
| Adjudication.AdjudicationIsOrderFree | src/asas/engine/hypotheses.py:599-682 | Permuting the evaluations changes no part of the outcome. |
| Adjudication.ConclusionsAreSound | src/asas/engine/hypotheses.py:599-682 | A fuller re-evaluation that keeps every definite verdict reaches a conclusion of the same class, and the same benign conclusion. |
| Rulings.SplitMeaning | src/asas/engine/hypotheses.py:599-623 | Signal by signal: a deviation is explained exactly when a supported benign hypothesis covers it, pending when only one that lacks evidence does, and unexplained when neither does. |
| Rulings.SplitPartitions | src/asas/engine/hypotheses.py:599-623 | The three parts are disjoint and together are the verified deviations. |
| Rulings.RulingMeaning | src/asas/engine/hypotheses.py:626-682 | The conclusion in terms of the results alone: the first supported typed anomaly of the catalog; else a deviation nobody explains or might yet explain; else, with nothing that matters lacking evidence, the first supported benign hypothesis; else none. |
| Rulings.CoveredDeviationsAreBenign | src/asas/engine/hypotheses.py:646-682 | Without a typed anomaly and with nothing that matters lacking evidence, supported explanations that cover every deviation make the conclusion benign. |
| Rulings.CatalogOrder | src/asas/engine/hypotheses.py:472-553 | The four anomalies come first, the context hypothesis last, and no type is of two classes. |
| Protocol.StartInv | src/asas/agents/investigator.py:238-239 | The start state satisfies the protocol invariant. |
| Protocol.ProposeKeepsInv | src/asas/agents/investigator.py:454-477 | Proposing keeps the invariant: known types once each, consecutive ids. |
| Protocol.AppendKeepsInv | src/asas/agents/investigator.py:479-500 | Recording a new tool result keeps evidence numbered, distinct and equal to the frozen views, and every recorded verdict right. |
| Protocol.EvaluateKeepsInv | src/asas/agents/investigator.py:502-522 | An evaluation keeps every recorded verdict equal to the one full evidence gives. |
| Protocol.LinkVerifies | src/asas/agents/investigator.py:524-562 | After a proposal its pair is verified exactly when the comparison passes every check, and every other pair keeps its status. |
| Protocol.LinkOutcome | src/asas/agents/investigator.py:524-562 | A link proposal records its pair once, adds at most that pair to the verified links, and only if it passed every check; proposing a pair again changes no link. |
| Protocol.LinkKeepsInv | src/asas/agents/investigator.py:524-562 | A link proposal keeps every recorded verdict right under the new links. |
| Protocol.ConcludeKeepsInv | src/asas/agents/investigator.py:564-594 | An accepted conclusion is the verifier's, with no applicable hypothesis unevaluated. |
| Protocol.ApplyKeepsInv | src/asas/agents/investigator.py:395-425 | Whatever action an untrusted policy takes, one step keeps the whole invariant. |
| Replies.GatheringMeaning | src/asas/agents/investigator.py:454-562 | What proposals, calls, evaluations and links are refused for, told from the state: a type outside the catalog, a failed call, a hypothesis nobody proposed or an episode not held, a comparison not held; only calls cost a tool call. |
| Replies.ConclusionMeaning | src/asas/agents/investigator.py:564-594 | A conclusion is accepted exactly when the episode is held, every applicable hypothesis was evaluated, the verifier concludes the first hypothesis of that id, and the summary is acceptable and cites evidence that is no mere lead. |
| Replies.AbstentionMeaning | src/asas/agents/investigator.py:432-452 | An abstention is refused exactly when the episode is held and an applicable hypothesis is unevaluated or the verifier has a conclusion; accepted, it lists what the policy and every record miss. |
| Replies.LinkStepMeaning | src/asas/agents/investigator.py:297-333 | The playbook looks for rebooks exactly while some record waits for one: it asks for the unresolved pairs, has the first candidate not yet proposed compared, and then proposes it. |
| Soundness.EveryConclusionIsSound | src/asas/agents/investigator.py:395-594 | Over every run of any policy with any failing calls, an accepted conclusion has the class of the exhaustive assessment under the final verified links, and a benign one is exactly its conclusion. |
| Soundness.BenignLeavesNothingOpen | src/asas/engine/hypotheses.py:599-682 | A benign conclusion leaves no deviation unexplained or pending and nothing blocking, and its deviation split is that of full evidence. |
| Abstention.RunsAreTraced | src/asas/agents/investigator.py:502-522 | Over every run of any policy each recorded evaluation was made on evidence and links the run held at some time. |
| Abstention.UpToDate | src/asas/engine/hypotheses.py:566-580 | A record that is not out of date carries the verdict that evaluating it again on the evidence now held would give. |
| Abstention.RevisingIsEnough | src/asas/agents/investigator.py:432-445 | With nothing pending, evaluating again only the records out of date gives the conclusion of evaluating every applicable hypothesis afresh. |
| Abstention.EveryAbstention | src/asas/agents/investigator.py:432-452 | Over every run, an accepted abstention is justified (every applicable hypothesis evaluated, and fresh evaluation of all of them on the evidence held concludes nothing) if and only if the episode evidence is held and evaluating again the records out of date concludes nothing. |
| Abstention.UpToDateAbstentions | src/asas/agents/investigator.py:432-452 | With the episode evidence held and no record out of date, an abstention is accepted if and only if it is justified. |
| Abstention.UnguardedAbstention | src/asas/agents/investigator.py:432-452 | Abstaining on the first turn is accepted though an applicable hypothesis was never evaluated. |
| Abandonment.AbandonedAnomaly | src/asas/agents/investigator.py:432-452 | For every episode without amendments, cancellations, late booking or a lone event, whose deviation profile verifies anything: after a run that holds the episode and the profile an abstention is accepted although the evidence held, and all the evidence there is, concludes a verified deviation. |
| Abandonment.ExampleIsAbandoned | src/asas/engine/signals.py:123-134 | The same on an episode of two new trades with the signals the engine gives it and a verified book recurrence. |
| PlaybookProgress.PlaybookProgresses | src/asas/agents/investigator.py:249-333 | With tools that answer, every playbook step changes the progress signature and strictly lowers the measure (types, pairs, requests, stale evaluations, open). |
| PlaybookProgress.Finish | src/asas/agents/investigator.py:249-333 | The playbook run from any reachable state ends: a total function whose result is done. |
| PlaybookProgress.SettledLeavesNothingPending | src/asas/agents/investigator.py:269-295 | When the playbook finds nothing to do, every applicable hypothesis has been evaluated. |
| PlaybookProgress.ClosingIsAccepted | src/asas/agents/investigator.py:432-594 | The playbook's closing action is never rejected and says what the verifier says. |
| PlaybookExactness.PlaybookStepIsExact | src/asas/agents/investigator.py:249-295 | Each playbook step keeps every recorded evaluation exact, and the closing one reports the exhaustive assessment. |
| PlaybookExactness.PlaybookEqualsAssessment | src/asas/engine/hypotheses.py:685-711 | A playbook-only run ends with exactly the exhaustive assessment under its final links, which is `assess` itself when no new link was verified. |
| Casework.Investigation.ProposeTypes | src/asas/agents/investigator.py:454-477 | The loop over the proposals computes the specified new state and observation. |
| Casework.Investigation.Call | src/asas/agents/investigator.py:479-500 | Executes, deduplicates and records a tool call as specified. |
| Casework.Investigation.EvaluateHypothesis | src/asas/agents/investigator.py:502-522 | Judges the first hypothesis of that id and nothing else, by scans over hypotheses and evidence; afterwards a definite verdict on its record is the one all the evidence gives. |
| Casework.Investigation.Link | src/asas/agents/investigator.py:524-562 | Puts the pair on record once; it counts as a new verified link only if it passed every check, no link is lost, and the invariant is kept. |
| Casework.Investigation.TryConclude | src/asas/agents/investigator.py:564-594 | What it accepts has clean prose, cites existing evidence only, and carries the class, or the very benign conclusion, of the exhaustive assessment under the verified links; a refusal changes nothing. |
| Casework.Investigation.TryAbstain | src/asas/agents/investigator.py:432-452 | What it accepts lists everything any record is missing and, with the episode evidence held and no record out of date, is justified by the evidence; a refusal changes nothing. |
| Casework.Investigation.Step | src/asas/agents/investigator.py:395-425 | One whole step, with stall counting, is the transition function of the protocol and keeps its invariant. |
| Stalls.RecoveringIff | src/asas/agents/investigator.py:395-425 | Over every durable run: the playbook has taken over exactly when, some time before, as many steps in a row as the limit says were refused or changed nothing. |
| Stalls.StuckRunsAreHandedOver | src/asas/agents/runtime.py:264-281 | From then on no model call is made, every action is the one the playbook would take, and its row says which playbook policy it ran under. |
| Assessment.EvaluateRebook | src/asas/engine/hypotheses.py:259-290 | The nested loops over cancelled trades and their links compute the rebook evaluator. |
| Assessment.SplitDeviations | src/asas/engine/hypotheses.py:599-623 | The single pass computes explained, unexplained and pending deviations. |
| Assessment.Assess | src/asas/engine/hypotheses.py:695-711 | Succeeds exactly when every needed view exists, and then returns the full assessment, although evidence is pooled as it goes. |
| Decisions.DecideCase | src/asas/engine/decisions.py:70-149 | The reasons are exactly those that hold; bulk is proposed exactly when nothing objects and the case is not sampled; escalation only for a verified anomaly. |
| Decisions.FinalizeMeaning | src/asas/agents/investigator.py:606-658 | What a decision gets to read, in terms of the finished state: verified links, adverse history, the reason without a conclusion, and each deviation as the records leave it. |
| Decisions.PolicyMeaning | src/asas/engine/decisions.py:64-67 | A scope allows its hypothesis on its own desk, or on every desk when it names none, and scopes add up. |
| Decisions.UnobjectedMeaning | src/asas/engine/decisions.py:87-128 | No reason holds exactly when the conclusion is benign, allowed by policy, free of verified links, adverse history and every run-level block. |
| Decisions.FinishedRunsAreConcludable | src/asas/agents/investigator.py:606-658 | What a finished run reports is always something the gate can read. |
| Decisions.BulkAgreesWithAssessment | src/asas/engine/decisions.py:116-128 | End to end: a case nothing objects to carries the conclusion of the exhaustive assessment of the unchanged snapshot, with no deviation unexplained or pending and no INSUFFICIENT non-context hypothesis. |
| Decisions.CutChunks | src/asas/engine/decisions.py:162-189 | Sorted members are cut without loss into full chunks of legal size; fewer than the minimum are left over when the maximum is at least the minimum. |
| Decisions.FormCohorts | src/asas/engine/decisions.py:152-189 | No case is lost, duplicated or changed except by joining a cohort or being sent back; at most minimum minus one are sent back per group. |
| Decisions.BulkCasesHaveOneCohort | src/asas/engine/decisions.py:152-189 | Every bulk proposal that leaves is in exactly one cohort, of legal size, sharing its conclusion and desk. |
| Decisions.BulkIsJustified | src/asas/engine/decisions.py:70-189 | The whole way: a case decided from a finished investigation that leaves cohort forming as a bulk proposal has a benign conclusion that policy allows to its desk, that of the exhaustive assessment, with nothing unexplained or pending and no unconfirmed link, and lies in exactly one legal cohort of its kind. |
| Linking.AttemptKeepsGood | src/asas/engine/linking.py:131-152 | A guarded merge keeps representatives smallest, sets equal to components, spans and instruments equal to their aggregates, and every merged span bounded. |
| Linking.FoldKeepsGood | src/asas/engine/linking.py:131-228 | Any sequence of steps over known trades keeps that invariant. |
| Linking.WeakFoldKeepsCores | src/asas/engine/linking.py:139-142 | Links that are not strong never change the instruments of a trade's set. |
| EpisodeAssembly.AssemblyIsGood | src/asas/engine/linking.py:121-228 | The finished two-stage assembly satisfies the whole invariant. |
| EpisodeAssembly.EpisodesAreComponents | src/asas/engine/linking.py:230-282 | Two trades share an episode if and only if accepted links connect them. |
| EpisodeAssembly.EpisodesPartition | src/asas/engine/linking.py:230-282 | Every trade and every alert is in exactly one episode. |
| EpisodeAssembly.EpisodeIsClosed | src/asas/engine/linking.py:238-275 | An episode lists its trades in order, filed under the smallest, and its accepted links join its own trades. |
| EpisodeAssembly.EpisodeCarriesRefusals | src/asas/engine/linking.py:246-278 | An episode lists every refused link that has an end in it and carries exactly the flags of its trades. |
| EpisodeAssembly.SpanIsBounded | src/asas/engine/linking.py:131-152 | In an episode of two or more trades latest end minus earliest start is at most the limit. |
| EpisodeAssembly.CoresShareInstruments | src/asas/engine/linking.py:139-152 | All strong-lineage cores in one episode have identical instrument sets. |
| EpisodeAssembly.NoLinkIsLost | src/asas/engine/linking.py:131-228 | Every link any stage proposes is accepted or rejected, exactly once. |
| EpisodeLinks.FactsMeaning | src/asas/engine/linking.py:108-126 | A trade spans its events, or its alerts when it has no event, and has the instrument of its first event. |
| EpisodeLinks.LineageMeaning | src/asas/engine/linking.py:156-182 | A lineage link is tried exactly for a trade that names another known trade as its original by a meaningful id; the other originals are marked, by kind. |
| EpisodeLinks.KeyMeaning | src/asas/engine/linking.py:187-228 | Exactly the members of a group of one meaningful key value, up to the fanout, are tried with its smallest member or found too far from it; larger groups and meaningless values are marked. |
| EpisodeLinks.StepsMeaning | src/asas/engine/linking.py:156-228 | Everything the assembly does, read off the events and the confirmed links: lineage, confirmed links between known trades, and the two keys. |
| EpisodeRefusals.RefusalsAreJustified | src/asas/engine/linking.py:131-154 | In the finished assembly a link refused for its span joins two episodes that together exceed it, one refused for instruments joins two whose lineages differ in them, and one refused for its gap is a key link between trades that begin too far apart. |
| EpisodeRefusals.AcceptedIff | src/asas/engine/linking.py:131-228 | A proposed link is accepted exactly when its trades share an episode and, for a key link, begin within the gap; it is refused for its gap exactly when it is a key link between trades further apart. |
| EpisodeRefusals.FlagsMeaning | src/asas/engine/linking.py:145-228 | A trade is flagged exactly for what its events mark and for the refusal of a link that ends in it. |
| EpisodeRefusals.PairsJoin | src/asas/engine/linking.py:131-228 | Two trades for which a link is tried and nothing else is proposed share an episode if they stay within the span and trade the same instrument. |
| Twins.TwinsMeet | src/asas/engine/linking.py:187-228 | Two new trades of one instrument that share a key and nothing else lie in one episode exactly when they begin within the gap and within the span. |
| Residue.OrderDoesNotMatter | src/asas/engine/linking.py:104-118 | Permuting events, alerts and confirmed links changes no episode, link, rejection, flag or unresolved pair, nor whether the assembly raises. |
| Residue.FindResidue | src/asas/engine/linking.py:294-353 | The loops over cancelled trades and new trades compute the specified pairs, or raise as specified. |
| Residue.ResidueMeaning | src/asas/engine/linking.py:294-353 | The unresolved pairs are exactly the economically identical new trades of another episode booked within the window after an unlinked cancellation, the nearest ones up to the limit for each. |
| Candidates.PlausibleMeaning | src/asas/engine/linking.py:304-334 | What makes a pair plausible, event by event: no accepted rebook link names the cancelled trade; the other lies in another episode, was booked as new without an original, within the window of the first cancellation, on the instrument, book, side and quantity of the last live event. |
| Residue.ResidueRaisesIff | src/asas/engine/linking.py:317-319 | The search raises if and only if an unlinked trade has several events, all of them cancellations. |
| Residue.BuildRaisesIff | src/asas/engine/linking.py:284-285 | The whole assembly raises if and only if some trade has several events, all of them cancellations, and no rebook link the assembly accepted names it. |
| Residue.UnrelatedCancelsRaise | src/asas/engine/linking.py:317-319 | A trade of several cancellations that names no original and is named by none makes the assembly raise, whatever else it is given. |
| Residue.TwoCancelsRaise | src/asas/engine/linking.py:317-319 | Two versions of one cancellation, and nothing else, are such an input. |
| EpisodeLinker.UnionFind.Find | src/asas/engine/linking.py:49-53 | Path halving terminates at the smallest id of the set and moves no representative. |
| EpisodeLinker.UnionFind.Union | src/asas/engine/linking.py:55-59 | Exactly the two sets become one, led by the smaller root. |
| EpisodeLinker.Linker.Attempt | src/asas/engine/linking.py:131-152 | The closure over the mutable maps is the specified guarded merge. |
| EpisodeLinker.Linker.StrongStage | src/asas/engine/linking.py:154-179 | The loop over sorted trades is the fold of the strong steps. |
| EpisodeLinker.Linker.BuildIndex | src/asas/engine/linking.py:187-207 | The index maps each usable value to exactly its holders, with the trade an alternate id names. |
| EpisodeLinker.Linker.KeyStage | src/asas/engine/linking.py:187-228 | Hubs are skipped and marked, other holders attach to the smallest id, as specified. |
| EpisodeLinker.LinkAll | src/asas/engine/linking.py:121-228 | All stages over one fresh state compute the assembly the lemmas are about. |
| Runtime.ChooseAction | src/asas/agents/runtime.py:264-313 | The two-attempt loop with repair and fallbacks computes the specified action, policy and counters. |
| Recovery.PolicyMeaning | src/asas/agents/runtime.py:264-313 | When each policy acts: the model exactly when it is enabled, has a call left, the run is not stuck and its counting reply is an action, which is then the action taken; in all other cases the playbook. |
| Recovery.ChargeMeaning | src/asas/agents/runtime.py:264-313 | What a step is charged: one model call for each request, a repair for a second one, a fallback whenever an enabled model does not act, a fault whenever it was asked in vain. |
| Recovery.StopMeaning | src/asas/agents/runtime.py:315-324 | A run stops exactly when it is done or a limit is reached, and is closed with the reason unless it was done. |
| Recovery.RecoveryIsForGood | src/asas/agents/runtime.py:264-281 | From the first checkpoint from which a run stays stuck every action is the playbook's, under a playbook policy, and the model calls stay what they were. |
| Runtime.ResumeCompletesTheTrace | src/asas/agents/runtime.py:332-364 | Resuming from any row writes exactly the rest of the log and ends with the same result. |
| Runtime.RunsStayWithinBudget | src/asas/agents/runtime.py:315-322 | No persisted step, tool-call or model-call counter exceeds its budget; repairs, faults and fallbacks stay in proportion. |
| Runtime.PlaybookRunsIgnoreTheModel | src/asas/agents/runtime.py:272-273 | Without a model the replies decide nothing. |
| Runtime.FinishedRunsAgree | src/asas/agents/runtime.py:211-260 | Any two finished stores of the same run hold the same log, tool calls and result. |
| Runtime.CutLogsArePrefixes | src/asas/agents/runtime.py:366-420 | The log of a run that died is contiguous, a beginning of the uninterrupted log, and within budget row by row; its tool calls are among the uninterrupted ones. |
| DurableStore.TakeStep | src/asas/agents/runtime.py:226-242 | One step that may die at either write leaves the store at the same or the next checkpoint. |
| DurableStore.Run | src/asas/agents/runtime.py:211-260 | From any store an earlier run left, a run that may die at any write keeps the log a beginning of the uninterrupted one, never changes a row, replays a finished run, and finishes when enough writes succeed. |
| DurableStore.RunUntilFinished | src/asas/agents/runtime.py:166-260 | After any number of deaths at any writes, the run that finishes returns and stores the uninterrupted result. |
| DurableInvestigation.CheckpointsKeepTheInvariant | src/asas/agents/runtime.py:222-243 | Every checkpoint of every run, with any model, satisfies the protocol invariant. |
| DurableInvestigation.StoredConclusionsAreSound | src/asas/agents/runtime.py:211-260 | Whatever the model replies, whichever calls fail, whatever budget runs out and however often the process dies, a stored conclusion is the one full evidence supports under the links of the run's last checkpoint. |
| DurableInvestigation.ModelFreeRunsAreExact | src/asas/agents/investigator.py:249-295 | A model-free run that no budget cuts short stores exactly the exhaustive assessment, wherever it was interrupted. |
| Governance.OneWayToRelease | src/asas/evolution/governance.py:28-46 | A log on the way to release went through exactly the required states in order. |
| Governance.RunsAreLawful | src/asas/evolution/governance.py:110-271 | Every sequence of calls by anyone keeps every candidate log a path in ALLOWED from DRAFT, bundles numbered and chained, activations known, and the audit trail equal to the logs. |
| Governance.ReleasesAreGoverned | src/asas/evolution/governance.py:168-271 | A released candidate took the six steps, was approved by someone other than its submitter, and is the source of a bundle that adds its payload to the bundle below. |
| Trials.FailedEvidenceStops | src/asas/services/platform.py:775-815 | Over every sequence of calls, a candidate for which a failed attack or a failed shadow run was ever accepted is at no time up for approval or released. |
| Trials.ReleasesAreEarned | src/asas/services/platform.py:734-815 | For every released candidate the calls hold, in this order, an accepted replay, a passed attack, a passed shadow run, a submission and an approval by persons with the role, not the same under four eyes. |
| Governance.ApprovalSucceedsIff | src/asas/evolution/governance.py:226-271 | An approval goes through if and only if the approver may approve, the candidate awaits it with a payload and the active bundle is the newest; otherwise nothing changes. |
| Governance.NoReleaseBelowTheNewest | src/asas/evolution/governance.py:120-128 | While an older bundle is active every approval is refused and changes nothing. |
| Rollbacks.WaitingIsDecided | src/asas/evolution/governance.py:250-262 | For a candidate that meets every other condition the approval goes through if the active bundle is the newest, and is refused because its bundle id is taken if not. |
| Rollbacks.RollbackBlocks | src/asas/evolution/governance.py:120-128 | A rollback below the newest bundle turns an approval that would succeed into that refusal, and activating the newest bundle turns it back. |
| Rollbacks.SecondIsBlocked | src/asas/evolution/governance.py:120-128 | A concrete sequence of calls, one candidate released, a second one awaiting approval, then a rollback, after which the second meets every other condition and is refused. |
| Governance.RunsOnlyAppend | src/asas/store/db.py:225-240 | Over any run bundles, candidates and reports never change, and logs, activations and audit only grow. |
| Governance.RefusalsChangeNothing | src/asas/evolution/governance.py:168-212 | A refused call changes nothing but, for a recorded step, the stored report. |
| Governance.OthersAreRefused | src/asas/evolution/governance.py:49-53 | Agents, services and principals without the role submit, reject, approve and roll back nothing. |
| Governance.ReleaseAddsOnlyItsPayload | src/asas/evolution/governance.py:241-252 | A bundle differs from the one below by exactly its candidate's rule or scope. |
| Governance.ParentChainsReachTheSeed | src/asas/evolution/governance.py:253-262 | Every parent chain descends by one version to the first bundle. |
| GovernanceService.Service.ApproveCandidate | src/asas/evolution/governance.py:226-271 | The checks and writes of an approval, in their order, are the specified transition, keep the law, and go through exactly when the approver may approve, the candidate awaits it with a payload and the newest bundle is active. |
| GovernanceService.Service.RecordStep | src/asas/evolution/governance.py:201-212 | No stored report is ever replaced and no other log changes; a candidate moved by a passed check has passed every check before it, in order, and the law is kept. |
| GovernanceService.Service.RollbackTo | src/asas/evolution/governance.py:120-128 | Succeeds exactly for a human approver and a stored bundle, which is then the active one, with no bundle changed; below the newest bundle no approval by anyone goes through afterwards. |
| GovernanceService.Service.SubmitCandidate | src/asas/evolution/governance.py:214-219 | What is submitted came through every check in order, and the submitter cannot approve it under four eyes. |
| GovernanceService.Service.RejectCandidate | src/asas/evolution/governance.py:221-224 | A rejected candidate can never move again. |
| AuditTrail.AuditLog.Audit | src/asas/store/db.py:292-314 | Every log built by appending verifies. |
| AuditChain.VerifyChain | src/asas/store/db.py:316-337 | The loop with a running digest accepts exactly the verifying tables. |
| AuditChain.SharedDigestFixesThePast | src/asas/store/db.py:316-337 | A digest found in two verifying logs sits at the same position of both with identical contents up to it. |
| AuditChain.UnnoticedEditsKeepContents | src/asas/store/db.py:316-337 | An edit the chain accepts changed no content, unless it is of the last row and shows in its digest. |
| AuditChain.VerifyWithAnchors | src/asas/store/anchor.py:255-274 | Reports exactly the anchors with a problem, and which: another key or algorithm, a bad signature, a missing or a changed entry. |
| AuditChain.AnchorMeaning | src/asas/store/anchor.py:255-274 | What is wrong with an anchor, in terms of rows and key: nothing exactly when it is of this key, its signature checks and a row has its number and digest. |
| AuditChain.CleanAnchorFixesThePast | src/asas/store/anchor.py:255-274 | A clean anchor fixes everything up to the entry it was taken on: nothing edited, inserted or removed. |
| AuditChain.HonestGrowthIsClean | src/asas/store/anchor.py:220-232 | A log that only grew since it was anchored shows no problem. |
| AuditChain.AnchorFixesNumbersIff | src/asas/store/db.py:298-307 | Among tables that verify, number their rows from one and keep the anchored row, all earlier rows are fixed with their numbers if and only if no number is skipped up to that row or it is the first. |
| AuditChain.RenumberingPasses | src/asas/store/db.py:298-307 | With a number skipped before it, another numbering of the earlier rows passes under the same anchor. |
| AuditTrail.AnchorSink.Write | src/asas/store/anchor.py:196-209 | One anchor per position, never overwritten; a different digest is a fork. |
| Rules.EvaluateRule | src/asas/engine/rules.py:87-98 | Fires exactly when every condition holds, and then reports all of them. |
| Rules.ValidMeaning | src/asas/engine/rules.py:21-54 | A rule is rejected exactly when it has no condition, too many or a faulty one, or an unknown severity; what is faulty is listed by kind of signal. |
| Rules.ComparisonsSplit | src/asas/engine/rules.py:56-71 | Each numeric comparison and its opposite split all cases; the weak ones meet in equality; membership never holds. |
| Rules.WordsMeaning | src/asas/engine/rules.py:72-79 | A flag equals the word for its value, a label its own word and the lists it stands in; equality and its opposite split all cases. |
| Rules.AbsentSignalsFireNothing | src/asas/engine/rules.py:56-79 | On an absent or unknown signal no condition holds, whatever its operator. |
| Rules.RaisingASignal | src/asas/engine/rules.py:62-71 | Raising a signal keeps the conditions that ask for more and opens none that ask for less. |
| Discovery.ItemMeaning | src/asas/engine/discovery.py:47-62 | One compiled item holds exactly where the item does, except a band without cuts where the signal is absent. |
| Discovery.BandIsInterval | src/asas/engine/items.py:20-26 | A value has a band exactly when it lies between the band's two neighbouring cuts. |
| Discovery.ConjunctionMeaning | src/asas/engine/discovery.py:197-199 | The exact set of episodes a compiled pattern fires on, for rising cuts, empty ones included. |
| Discovery.CompiledRuleMeansPattern | src/asas/engine/discovery.py:47-62 | With rising non-empty cuts the compiled rule fires on exactly the episodes whose items contain the pattern. |
| Discovery.EmptyCutsWiden | src/asas/engine/discovery.py:55-62 | Without cuts the rule always fires while the item needs the signal. |
| Discovery.SynthesizeRule | src/asas/engine/discovery.py:191-230 | The loop over tracked best values computes the specified greedy pass. |
| Discovery.SimplifyingKeeps | src/asas/engine/discovery.py:213-230 | The pass keeps a part of the conditions, at least one, never loses labelled precision, and never exceeds the overlap limit once anything was dropped. |
| Discovery.VolumeCompounds | src/asas/engine/discovery.py:211-229 | The number of fires is at most the growth factor to the power of the conditions dropped. |
| Synthesis.OneStepSufficesIff | src/asas/engine/discovery.py:211-229 | On every bench with that growth limit every simplified rule of so many distinct conditions stays within one growth step, if and only if the limit is at most 1 or there are at most two conditions. |
| Synthesis.StairsBreak | src/asas/engine/discovery.py:211-229 | In any rule language, for every limit above 1 and every three or more flags, a bench on which the simplified rule of those flags exceeds the limit. |
| Synthesis.SmallestAlwaysIff | src/asas/engine/discovery.py:1-9 | On every bench with that growth limit no rule that passes the code's own test against the exact one has fewer conditions than the synthesized rule, if and only if the limit is below 1 or there are at most two conditions. |
| Synthesis.DecoyBreaks | src/asas/engine/discovery.py:213-230 | In any rule language, for every limit of at least 1 and every three or more flags, a bench on which one pass overlooks a smaller rule. |
| Synthesis.MinedPatternBreaks | src/asas/engine/discovery.py:191-230 | Both happen to the rule compiled from a pattern of three of the engine's own flags, whatever else the episodes show. |
| Discovery.SimplifiedRuleIsValid | src/asas/engine/rules.py:21-53 | A valid full rule stays valid. |
| Discovery.SynthesisIsSound | src/asas/engine/discovery.py:176-230 | The synthesized rule fires on every episode that shows the pattern, is no less precise, and is left exact when the labels do not say how precise it is. |
| JointRarity.CombosAreSubsets | src/asas/engine/deviation.py:209-218 | The combinations of sorted items are exactly their subsets of the size. |
| JointRarity.BuildIndex | src/asas/engine/deviation.py:209-218 | Every count of the index is the number of reference episodes that contain the combination. |
| JointRarity.SupportIsAntiMonotone | src/asas/engine/deviation.py:209-218 | Support never grows with more items. |
| JointRarity.LeaveOneOut | src/asas/engine/deviation.py:221-232 | Leaving one's own occurrence out counts exactly the other episodes. |
| JointRarity.JointRarityOf | src/asas/engine/deviation.py:221-249 | Returns the first least combination by support, then by strongest weakest item, and the verdict of the two limits. |
| JointRarity.RarerIsStrict | src/asas/engine/deviation.py:235-236 | The comparison is a strict order: fewer occurrences first, then more common items; equal figures never displace an earlier combination. |
| JointRarity.RarestMeaning | src/asas/engine/deviation.py:227-238 | For an episode inside or outside the reference, the returned combination is eligible, is seen in the fewest other episodes, and among those its least seen item is seen most. |
| JointRarity.WeakestMeaning | src/asas/engine/deviation.py:234-238 | The reported weakest support is the number of other episodes that show the least seen item. |
| JointRarity.NoVerdictMeaning | src/asas/engine/deviation.py:227-238 | There is nothing to report exactly when no combination is eligible. |
| Graph.Neighborhood | src/asas/engine/graph.py:185-222 | Keeps at most the given number of nodes; untruncated, exactly the nodes within the depth; truncated, a whole ball and part of the next layer; the edges are exactly those with both ends kept and one expanded. |
| Graph.NoNearerNodeOmitted | src/asas/engine/graph.py:199-211 | When truncated, no node left out is nearer than one kept. |
| Graph.CutIsWithinDepth | src/asas/engine/graph.py:199-211 | Whatever a truncated search keeps lies within the depth. |
| Statistics.RoundReflects | src/asas/engine/signals.py:279-286 | Half-even rounding commutes with reflection about a whole number when that number is even. |
| Statistics.MirrorCentre | src/asas/engine/signals.py:257-272 | Turning every sign turns the median and keeps the scale, through the mean-deviation fallback. |
| Statistics.MirrorPercentile | src/asas/engine/signals.py:279-286 | The mid-rank percentile of the turned value is 100 minus the percentile. |
| Statistics.CountsAreInsertionPoints | src/asas/engine/signals.py:282-283 | In a sorted population the counts below and equal are the two bisection points. |
| Statistics.TailsAreSymmetric | src/asas/engine/deviation.py:70-110 | A value on the upper tail gets the verdict its negation gets on the lower tail of the turned population, through every rounding step and the constant population. |
| Scales.UnitsDoNotMatter | src/asas/engine/deviation.py:84-110 | In another unit and from another origin the centre is the same centre, and a value keeps its percentile, its distance in scales and its verdict on every tail, through every rounding step. |
| Scales.ScaleMeaning | src/asas/engine/signals.py:265-272 | The scale comes from the median deviation unless more than half of the population sits on the median, and then from the mean one. |
| Scales.ScaleVanishesIff | src/asas/engine/signals.py:265-272 | The scale is never negative, and zero exactly when the whole population is one value. |
| Scales.FurtherOutIsNoLessDeviant | src/asas/engine/deviation.py:70-110 | Raising a value never takes the upper verdict away, and lowering it never the lower one. |
| Scales.VerdictMeaning | src/asas/engine/deviation.py:70-81 | The verdict read off the reported figures, for either joining rule; both tails together are either tail. |
| Scales.BandMeaning | src/asas/engine/deviation.py:255-260 | With rising limits a band is reached exactly from its limit on. |
| Scales.ScoresMeaning | src/asas/engine/deviation.py:267-306 | The components over the verified deviations that are kept: their strengths added up, how many beyond the first, how many deviate from their own history, and the joint rarity, each weighted and rounded. |
| Statistics.StrengthIsAShare | src/asas/engine/deviation.py:134-139 | A strength lies between zero and one, is zero without confirmation, is that of the weakest confirming comparison and of none weaker, and one more confirmation never raises it. |
| Statistics.ResidualMeaning | src/asas/engine/deviation.py:267-306 | The residual is monotone in every component, zero on nothing, the raw outlyingness on everything verified, and its band never ranks above the raw one, for any band limits. |
| Windows.ReferencesOf | src/asas/engine/signals.py:415-433 | Bisection over the sorted ends gives for every period, and for its shifted window, exactly what a filter over all episodes gives. |
| Windows.ReferencesArePointInTime | src/asas/engine/signals.py:415-433 | A reference window holds only episodes that ended before the period, in end order, and adding any number of later episodes changes nothing in it. |
| Candidates.WindowMeaning | src/asas/engine/signals.py:415-433 | The window before a period, shifted or not, holds exactly the episodes that end in it, as often as they occur. |
| Windows.Recurrences | src/asas/engine/signals.py:395-413 | The grouped index and its two bisections count exactly the earlier episodes of the same signature and book, or instrument, within the window. |
| Windows.RecurrenceIsHistory | src/asas/engine/signals.py:395-413 | Whatever ends at or after the episode starts, the episode itself included, never changes its recurrence. |
| Candidates.RecurrenceMeaning | src/asas/engine/signals.py:395-413 | A recurrence counts exactly the episodes of the same signature, on the same book or in the same instrument, that ended before the start and no longer ago than the window. |
| Throttles.RateLimiter.Allow | src/asas/core/ratelimit.py:22-32 | Answers one caller as specified and leaves the others' buckets alone. |
| Limits.IntervalsAreBounded | src/asas/core/ratelimit.py:22-32 | In any interval, whatever came before, a caller is allowed at most the capacity plus the rate times its length. |
| Limits.SpacedCallersAreServed | src/asas/core/ratelimit.py:22-32 | A caller who waits one token between calls is never denied. |
| Limits.RetryAfterWaitSucceeds | src/asas/core/ratelimit.py:31-32 | A lone retry after the returned wait is allowed. |
| Limits.PerMinute | src/asas/core/ratelimit.py:14-32 | The setting is calls per minute: a new caller gets exactly that many at once, the next one a minute divided by that number later, and all of them again after a minute. |
| Limits.AskKeepsBucket | src/asas/core/ratelimit.py:25-31 | Tokens stay between zero and the capacity. |
| Throttles.CircuitBreaker.Allow | src/asas/agents/gateway.py:145-153 | Admits, half-opens or denies as specified; a closed breaker is below its threshold. |
| Throttles.CircuitBreaker.Record | src/asas/agents/gateway.py:155-163 | Counts failures and opens at the threshold. |
| Limits.AdmitMeaning | src/asas/agents/gateway.py:145-163 | A call is denied exactly while the breaker is open and the reset time is not over; half-open, one failure opens it again and one success closes it. |
| Throttles.Complete | src/asas/agents/gateway.py:186-204 | Stops at the first success, never exceeds its attempts, leaves the breaker sound, opens it at the time of the attempt that reached the threshold, and in an outage makes exactly the calls the bound counts. |
| Limits.OutageCallsAreBounded | src/asas/agents/gateway.py:137-204 | While the endpoint is down a closed breaker lets through at most its threshold and one probe per reset time, however often it is asked. |

## Left out

- Ids are naturals in their string order, `Decimal` values are exact reals with explicit half-even rounding, and a request key is its tool and arguments; ids that contain the separators of a composed key are not modelled.
- Hashes and stable ids are injective by construction; real digests and signature algorithms are not part of this model.
- Tool views keep the fields the evaluators read; narratives, rationales and cited facts are left out, except that cited evidence must exist.
- Hypothesis evaluators read typed fields where the original parses text; the contradicted types and the adverse-history flag of an adjudication are separate functions, not fields of the outcome.
- A malformed model action is one of the runtime's invalid replies; the action schemas are not modelled.
- DurableStore.RunUntilFinished: the wall-clock budget is left out, and a reply depends on the state, the model calls made and whether it is a repair.
- Runtime.CutLogsArePrefixes: a tool call is recorded by its step and request; durations and the cached flag are left out.
- Exceptions raised inside a program, other than failed tool calls, are left out.
- `fit_observation` and prompt building: the model is an arbitrary source of replies.
- EpisodeAssembly.EpisodesPartition: episode start and end, desks, books, products, lifecycle flags and the final sort by start are left out; episodes are filed under their smallest trade.
- Residue.ResidueMeaning: a pair carries its trades, its episodes and the time between them; its id and the other features are left out.
- Degenerate-value patterns are a set of values, and trimming is a function of the value.
- Decisions.FormCohorts: cohorts carry their key and members; stable cohort ids and the order of groups are left out, and a maximum below one, which the original's range step rejects, is excluded.
- Decisions.DecideCase: a degraded input is named by the part before its colon, reasons are values rather than text, and classification is its two band ranks.
- Governance.RunsAreLawful: each public method is one atomic step; the two separate reads of `_event` are not interleaved with other calls, and `record_step` is given the five states the platform passes.
- Reports are filed under one id; payload JSON and timestamps other than a bundle's are left out.
- AuditChain.CleanAnchorFixesThePast: an anchor's signature is checked by a given predicate; forging is outside the model. Numbers are as the database hands them out, rising from one.
- Rules.EvaluateRule: operands are parsed values, and exactly one of value and parameter is given by construction.
- Mining of patterns, their ranking and the bulk-scope branch are left out: counting facts of the kind proved for the item index.
- Statistics.TailsAreSymmetric: the per-level loop, reference shifting and data-quality exclusions of a signal deviation are left out.
- Signal computation and the contents of a baseline are left out; bisection is written out as a loop.
- JointRarity.JointRarityOf: an item the index does not know has support zero; the original raises there, which a minimum item support of at least one excludes.
- Graph.Neighborhood: nodes are ids, and parallel edges with the same ends and kind are one edge; building the graph is left out.
- Limits.OutageCallsAreBounded: the clock read of each attempt is given; backoff sleeps are left out.
- The endpoint chain, the response cache, replay metrics, counterexample attacks, the HTTP service, console, storage drivers and ingestion are left out.
