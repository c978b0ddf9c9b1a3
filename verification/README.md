# Danus: a verified model of the durable core

Danus runs paid reasoning workers against a content-addressed graph of mathematical facts. Five
parts of it must stay right across crashes, retries and concurrency, and they are what this project
models and proves:

- **The fact graph** (`danus/core/factgraph.py`). Adding a fact is a write-ahead protocol over three
  marker files, the fact file and the glossary, in two directories that are synced separately.
  `AddJournal` models the disk: every entry has a visible value and a set of values it may still
  have after a power loss; a write or unlink widens the set, a successful directory sync narrows it
  to the visible value, and a sync may fail. `AddProtocol` is the store over that disk, driven by an
  arbitrary schedule of sync failures and kills. `Dag`, `FactGraph` and `FactStore` model the graph
  itself: traversals, the glossary as a union of definitions, adding, and cascade revocation that
  may be killed before any visible step and resumed. `Definitions` is the selection of referenced
  terms. `Text`, `FactFile` and `FactRoundTrip` are the file format and the proof that what is
  written re-hashes to its own name.
- **The coordinator** (`danus/coordination/store.py`, roster from `policy.py`). `Coordination` is the
  database as a value, with its invariant and what one transaction may change; `CoordinationSteps`
  proves each row change; `CoordinationStore` is the object whose methods are the transactions.
- **Hot join** (`danus/hotjoin.py`). `TurnTracking` is the client's view of turns, `Deliveries` the
  message ledger, and `HotJoin` the two together with any number of brokers, interleaved step by
  step; `HotJoinRuns` and `HotJoinOutcomes` are about whole executions of it. `PaidIntents` and
  `PaidLedger` are the ledger of paid turns and their receipts.
- **Telemetry** (`danus/reasoning_telemetry.py`): `Intervals` and `Telemetry`.
- **Report order** (`danus/human_summary/assemble.py`): `ReportOrder`.

Conventions. A class stands for an object whose fields the program updates; `Valid()` is what every
method keeps. Names of workers, slots, threads, turns, messages and facts are a type of which only
equality (and, to break ties, order) matters. A check the program makes and that cannot fail is an
`assert` in the method that makes it. Digests are injective: what is hashed stands for its hash.
Database transactions are atomic, and mutual exclusion by the graph lock is taken for granted.

`dafny verify dfyconfig.toml` checks everything.

## Findings

- A coordinator slot that is marked ambiguous before its prompt is pinned is rejected by the binding
  audit from then on. It can never be completed, and the generation never changes again
  (`Coordination.WedgedForever`); no other slot is ever rejected by that audit
  (`CoordinationSteps.BindingRejectsWedged`). `CoordinationStore.WedgeFreshProject` brings any fresh
  project to this standstill; what a caller can check beforehand is whether the slot's prompt is
  pinned, which decides it (`MarkThenComplete`).
- A message whose delivery is already recorded as unknown can still be sent: a reconciliation or a
  lapsed lease settles the row while another broker sits between its claim and its RPC, and that
  broker does not read the row again (`HotJoinRuns.DispatchedWhileUnknown` is such an execution).
  Exactly a broker that holds the message on a turn when it becomes unknown can do this, and at most
  once; after a lost answer nobody holds it and nothing is sent again (`HotJoinRuns.UnknownIsFinal`,
  `HotJoinRuns.LostAnswerIsFinal`).
- A client can issue more than one RPC for a message during its life. It cannot if every broker of a
  new client on a thread is launched only when all brokers of other clients on that thread have
  stopped, and no replaced client is launched again (`HotJoinRuns.AtMostOncePerLifetime`). Whenever
  two clients do serve one thread on different turns, they can take turns with a rejected message
  (`HotJoinRuns.OverlapSendsTwice`; `HotJoinRuns.InterleavedLifetimes` is such an execution from the
  empty state). Whatever the interleaving, at most one RPC ever issued for a message was not
  definitely rejected.

## Model

| member | source | states |
|---|---|---|
| AddJournal.StageMeaning | danus/core/factgraph.py:1014-1105 | whatever mixture of old and new entries a crash leaves, recovery reads it as exactly the contents before the add or exactly those after it |
| AddJournal.StageMust | danus/core/factgraph.py:1051-1105 | in a stage that keeps the old (new) contents, every possible survivor of a power loss recovers to the old (new) contents |
| AddJournal.DecidedStage | danus/core/factgraph.py:1072-1153 | once the marker entries are durable, the transaction's fate is decided by them and cannot change |
| AddJournal.PowerLossKeepsStage | danus/core/factgraph.py:682-765 | after any power loss the disk is again in a stage of the same transaction |
| AddJournal.PowerLossNarrows | danus/core/factgraph.py:682-765 | a power loss never adds an outcome that was not already possible |
| AddJournal.TowardKeepsStage | danus/core/factgraph.py:732-765 | moving one entry towards a value its stage allows keeps the stage, at every intermediate point of the write |
| AddJournal.EverySurvivorIsPicked | danus/core/factgraph.py:682-706 | the picks of the power-loss model are exactly the surviving file systems: none is left out |
| AddProtocol.RestoredMeansIdle | danus/core/factgraph.py:1014-1049 | restoring the prepared snapshot leaves only the old contents possible |
| AddProtocol.NewDataIsDurable | danus/core/factgraph.py:1563-1689 | when the commit marker may be written, fact and glossary are already durable at their new values |
| AddProtocol.GraphStore.Fsync | danus/core/factgraph.py:682-688 | success makes every entry of the directory durable; failure changes nothing visible; it fails or is killed exactly if the schedule says so |
| AddProtocol.GraphStore.FsyncWithRetry | danus/core/factgraph.py:690-706 | the same after one retry: it fails exactly if both attempts do |
| AddProtocol.GraphStore.AtomicWrite | danus/core/factgraph.py:732-753 | the entry is visible at its old or new value only, and durable at the new one if it returns; it returns exactly if both barriers go through |
| AddProtocol.GraphStore.UnlinkDurable | danus/core/factgraph.py:755-765 | the entry's removal is durable if it returns |
| AddProtocol.GraphStore.RestoreSnapshot | danus/core/factgraph.py:1014-1049 | fact and glossary are durably back at the snapshot |
| AddProtocol.GraphStore.RecoverAborted | danus/core/factgraph.py:1072-1105 | an abort marker takes precedence over a commit marker and ends in the old contents |
| AddProtocol.GraphStore.CleanupCommitted | danus/core/factgraph.py:1155-1192 | a committed add keeps the new contents whatever fails while its markers are removed; killed exactly if a kill strikes |
| AddProtocol.GraphStore.RollbackPending | danus/core/factgraph.py:1051-1070 | a prepared add without commit ends in the old contents; a committed one is kept once its bytes, and the fact and glossary read from them, are found exact; its consistency errors are unreachable, and it succeeds whenever no call fails |
| AddProtocol.GraphStore.CommittedReads | danus/core/factgraph.py:1107-1153 | whenever a durable commit marker is visible, the fact on disk validates under its id and the glossary parses |
| AddProtocol.GraphStore.Begin | danus/core/factgraph.py:857-872 | a mutation starts only on a disk with no pending transaction, whose contents are the only possible ones; it starts whenever no call fails, and on an unmarked disk exactly if its barriers go through |
| AddProtocol.GraphStore.LockForMutation | danus/core/factgraph.py:850-872 | settles every marker behind two barriers, on the project and on the graph directory: succeeds exactly if each goes through in at most two attempts, and changes nothing visible |
| AddProtocol.GraphStore.Prepare | danus/core/factgraph.py:1573-1626 | returns only with the new contents durable behind a durable snapshot; any failure forces the old contents and is never reported unknown |
| AddProtocol.GraphStore.WriteData | danus/core/factgraph.py:1623-1634 | a failed data write is rolled back, so the old contents are forced |
| AddProtocol.GraphStore.RollbackAfterFailure | danus/core/factgraph.py:1627-1634 | forces the old contents and answers with the write error or a recovery requirement |
| AddProtocol.GraphStore.RecordRollback | danus/core/factgraph.py:1644-1674 | a definitive rollback is reported only once its intent is durable; until then the outcome is reported unknown |
| AddProtocol.GraphStore.UndoData | danus/core/factgraph.py:1072-1105 | under a durable rollback marker the old contents stay forced at every step, and its consistency errors are unreachable |
| AddProtocol.GraphStore.DropPrepared | danus/core/factgraph.py:1051-1070 | the snapshot is dropped only when the old contents are durable, leaving a clean disk |
| AddProtocol.GraphStore.Commit | danus/core/factgraph.py:1635-1681 | returns exactly if the commit marker becomes durable and no kill strikes; then only the new contents are possible, and no error is ever answered: an error is only answered while the old contents can still come back |
| AddProtocol.StillUndecided | danus/core/factgraph.py:1644-1674 | while the commit marker may still be missing, the old contents can still come back, so an unknown outcome is honest |
| AddProtocol.GraphStore.Add | danus/core/factgraph.py:1563-1689 | returns the id whenever no call fails and the glossary in use reads, from any disk; on a disk without markers exactly if the schedule lets the lock, the directory and the three or four journalled writes through and no kill strikes; only old or new contents are ever possible, only the new ones once it has returned, and an error is only answered while the old ones can still come back; an unreadable glossary is refused before anything is written |
| AddProtocol.GraphStore.AddToClean | danus/core/factgraph.py:1563-1689 | the same once nothing is pending, with the exact calls that must go through |
| AddProtocol.GraphStore.Publish | danus/core/factgraph.py:1563-1689 | from a clean disk: returns exactly if every journalled write goes through and no kill strikes; only the clean contents or the published ones are possible, and which one follows from the answer |
| AddProtocol.GraphStore.Snapshot | danus/core/factgraph.py:767-796 | fails closed exactly on a pending add or revocation: whenever no call fails it succeeds on every other disk; a successful read returns contents that every later power loss and recovery gives back, and changes nothing visible |
| AddProtocol.GraphStore.PowerLoss | danus/core/factgraph.py:682-765 | each loose entry independently keeps any one of its possible values, and no forced outcome is lost |
| AddProtocol.GraphStore.Endure | danus/core/factgraph.py:857-887 | any history of power losses, killed or failing recoveries and reads only narrows what the disk can become |
| AddProtocol.GraphStore.CrashAtomicAdd | danus/core/factgraph.py:1563-1689 | for every schedule and every later history, the next successful recovery leaves exactly the pre-add or the post-add contents: the post-add ones if add returned, the pre-add ones if it raised anything but an unknown outcome; with no failing call both add and recovery succeed |
| AddProtocol.GraphStore.ReadsAreStable | danus/core/factgraph.py:767-887 | what a successful read returned is what every later read returns, whatever crashes and recoveries happen in between |
| Dag.RankedIsAcyclic | danus/core/factgraph.py:1515-1524 | a graph whose facts only cite older facts has no cycle |
| Dag.RankOf | danus/core/factgraph.py:1515-1524 | conversely, every finite graph without a cycle is ranked, so the two say the same |
| Dag.Descendants | danus/core/factgraph.py:2719-2750 | exactly the facts other than the root that reach it through predecessors, each once, on any graph |
| Dag.ReverseEdges | danus/core/factgraph.py:2724-2735 | the reverse adjacency of the listed facts: a fact is filed under exactly the predecessors it names |
| Dag.ContextWalk | danus/core/factgraph.py:2190-2242 | visits exactly the ids within the depth bound of a requested root, each once and in nondecreasing shortest distance, in the one breadth-first order `WalkOrder`; files each under active, revoked or missing, and ends on cyclic edges too |
| Dag.WalkFrom | danus/core/factgraph.py:2414-2484 | the same for the unbounded walk of the verification context, from distinct roots |
| Dag.Visited | danus/core/factgraph.py:2199-2242 | one turn of the queue keeps the walk breadth-first and either discovers nothing or shrinks what is left to discover |
| Dag.Classify | danus/core/factgraph.py:2206-2225 | each visited id is reported exactly once, in walk order, as a record, as revoked or as missing |
| Dag.ReportedMembers | danus/core/factgraph.py:2206-2225 | a report holds exactly the visited ids of its kind |
| Dag.ReportedOnce | danus/core/factgraph.py:2206-2225 | no id is reported twice |
| Dag.RequestedRoots | danus/core/factgraph.py:2190-2195 | the requested ids without blanks and repetitions |
| Dag.NearHasChain | danus/core/factgraph.py:2190-2242 | an id the walk is near to is the end of a real chain of at most that length |
| Dag.ClosureIsReachability | danus/core/factgraph.py:2414-2484 | being at some distance from the roots is the same as being reachable from one of them |
| Dag.WalkIsComplete | danus/core/factgraph.py:2190-2242 | a finished walk has missed no id within the bound |
| FactGraph.UnionIsUnique | danus/core/factgraph.py:1889-1919 | the glossary is determined by the active facts, so a rebuild gives back the stored one |
| FactGraph.NoConflict | danus/core/factgraph.py:1889-1919 | no two active facts define a term differently |
| FactGraph.CascadeKeepsInv | danus/core/factgraph.py:2883-2916 | after a cascade the graph is still predecessor-closed, acyclic, disjoint from the revoked ids, with its glossary the exact union |
| FactGraph.CascadeKeepsLog | danus/core/factgraph.py:2854-2881 | every revoked id is logged exactly once |
| FactGraph.AddKeepsInv | danus/core/factgraph.py:1515-1562 | an admitted fact keeps the graph invariant |
| FactGraph.RepeatedRevokeAnswers | danus/core/factgraph.py:2918-2941 | the log answers a repeated revoke of a root with the list of the original one |
| FactGraph.LaterCascadeKeepsAnswer | danus/core/factgraph.py:2918-2941 | later cascades do not change that answer |
| FactGraph.CascadeIsLater | danus/core/factgraph.py:2918-2941 | a cascade undoes no revocation and changes the answer of no finished revoke |
| FactGraph.ContextIsComplete | danus/core/factgraph.py:2414-2484 | every id within a context's reach of active roots is itself active |
| FactStore.RebuildGlossary | danus/core/factgraph.py:1889-1919 | the union of the remaining facts' definitions, or two facts that disagree |
| FactStore.CurrentContext | danus/core/factgraph.py:2348-2484 | one card, with its stored contents, for exactly the active facts reachable from the roots, and exactly the reachable revoked and missing ids, each once, all in breadth-first order: one context for each graph and roots |
| FactStore.ContextIsExact | danus/core/factgraph.py:2348-2484 | the context in walk order is the context: what it lists is what is reached |
| FactStore.LogWith | danus/core/factgraph.py:2854-2881 | appends the cascade's entries once, whether or not an earlier attempt already did |
| FactStore.Store.MoveFile | danus/core/factgraph.py:2896-2912 | moves a file at most once over all attempts; finding it in both stores or in none is unreachable |
| FactStore.Store.RunCascade | danus/core/factgraph.py:2883-2916 | whatever step earlier attempts reached, an attempt that gets through ends in the finished cascade; the rebuild conflict error is unreachable |
| FactStore.Store.Resume | danus/core/factgraph.py:2883-2916 | never changes what the store stands for; killed exactly if a kill strikes, and otherwise the journalled cascade is done and its journal gone |
| FactStore.Store.Journal | danus/core/factgraph.py:2952-2976 | the journal names exactly the root and its transitive dependents, root first |
| FactStore.Store.Revoke | danus/core/factgraph.py:2943-2976 | removes exactly the root and its dependents; a killed call did nothing or will be finished by any resume; a repeat returns the same list; refused exactly for a fact neither active nor revoked, and killed exactly if a kill strikes |
| FactStore.Store.RevokeDespiteKills | danus/core/factgraph.py:2883-2976 | killed and retried any number of times, the graph ends as an uninterrupted revoke leaves it, or was never touched; it has ended as soon as one retry is not killed |
| FactStore.Store.Check | danus/core/factgraph.py:1505-1548 | passes exactly the facts whose predecessors are distinct and active, whose id is not revoked, and whose content or definitions agree with what is stored; a refusal names the first thing wrong |
| FactStore.BlameIsUnique | danus/core/factgraph.py:1505-1548 | every refusal is blamed on one reason: two that fit one fact are the same, and none fits an admissible one |
| FactStore.Store.AddUnlocked | danus/core/factgraph.py:1469-1562 | adds exactly the admissible facts; a duplicate changes nothing; a refused or killed add changes nothing |
| FactStore.Store.Add | danus/core/factgraph.py:1436-1467 | the same on what a pending cascade will leave, which is finished first |
| FactStore.Store.AddIfContextUnchanged | danus/core/factgraph.py:1691-1788 | refused for a changed context exactly if the id is not the candidate's or the expected context is not the current one; otherwise added exactly if admissible, refused with the reason if not, killed exactly if a kill strikes; refused or killed, the graph is unchanged |
| FactStore.Store.Apply | danus/core/factgraph.py:1436-2976 | one call of any kind, killed anywhere, undoes no revocation and changes no finished revoke's answer |
| FactStore.Store.Run | danus/core/factgraph.py:1436-2976 | over any run of adds, context-checked adds, revocations and resumptions killed anywhere, the graph invariant holds, a revoked id is never active again and a finished revoke keeps its answer |
| Definitions.SelectReferenced | danus/core/factgraph.py:487-506 | the least set of available terms closed under occurrence in an input text or in a selected definition, independent of queue order |
| Text.NormalizeIsWords | danus/core/schema.py:414-418 | normalising depends on the words alone, joined by single spaces |
| Text.WordsOfLines | danus/core/factgraph.py:509-558 | splitting into lines loses no word and joins none |
| Text.StripHasLine | danus/core/factgraph.py:1491-1503 | stripping a text introduces no new line, so a heading check on the original covers what is written |
| FactFile.ParseFrontmatter | danus/core/factgraph.py:598-664 | reads the fields of the lines before the closing fence, external references included |
| FactFile.LastOccurrenceWins | danus/core/factgraph.py:598-664 | of each field the last occurrence before the closing fence counts, whatever order the fields come in, and nothing after the fence does |
| FactFile.HeadingIgnoresCase | danus/core/factgraph.py:509-558 | a line is a section heading exactly if it spells it, in letters of either case, between whitespace |
| FactFile.StatementOf | danus/core/factgraph.py:509-523 | the stripped, blank-free lines between the first statement heading and the next proof heading |
| FactFile.ProofOf | danus/core/factgraph.py:526-558 | everything after the first proof heading, cut at the last intuition heading if the frontmatter announces one, at the first if it says nothing, nowhere if it denies one |
| FactRoundTrip.PrintedLines | danus/core/factgraph.py:561-595 | the printed text splits back into exactly the lines put in, whatever line breaks the statement and proof hold |
| FactRoundTrip.FrontRoundTrip | danus/core/factgraph.py:598-664 | id, problem, predecessors, glossary, identity and external references read back unchanged, whatever the body holds |
| FactRoundTrip.StatementRoundTrip | danus/core/factgraph.py:509-523 | the extracted statement normalises to the original |
| FactRoundTrip.ProofRoundTrip | danus/core/factgraph.py:526-558 | the extracted proof normalises to the original, even when it contains fences or proof and intuition headings |
| FactRoundTrip.RoundTrip | danus/core/factgraph.py:509-664 | all of the above for every fact that passes the add checks |
| FactRoundTrip.ValidateIntegrity | danus/core/factgraph.py:808-848 | accepts a file exactly when it is not in the revoked store too, its frontmatter names it and its recomputed content id is its name |
| FactRoundTrip.WriteThenValidate | danus/core/factgraph.py:1482-1562 | a written fact validates under its own content id and under no other name |
| FactRoundTrip.SameTextSameContent | danus/core/schema.py:420-446 | two facts with the same text have the same id and the same hashed content |
| Policy.LaneIdentifiesWorker | danus/coordination/policy.py:194-204 | each paid lane belongs to exactly one worker and everyone else observes |
| Policy.SortByEffort | danus/coordination/policy.py:177-184 | a permutation of the workers by descending effort, ties in roster order |
| Policy.SelectLaneRoster | danus/coordination/policy.py:159-204 | one paid lane per configured worker: each held by a worker with more effort, or as much and listed earlier, than everyone left out; root first, critic second, explorers numbered in order; refused exactly for a malformed or too small roster or one that disagrees with the roles |
| Coordination.OneOpenSlotPerLane | danus/coordination/store.py:529-531 | open slots are in the current generation, at most one per lane; in the owner phase only the live review's critic slot can be open |
| Coordination.OpenSlotsBounded | danus/coordination/store.py:2366-2380 | the number of open slots never exceeds the paid cap |
| Coordination.RoomForWorker | danus/coordination/store.py:2366-2380 | the cap never refuses a lane that has no open slot |
| Coordination.OwnerGateProvenance | danus/coordination/store.py:2845-2926 | the phase is owner_action_required iff a recommendation is open iff the active review is confirmed, and that review binds root evidence from the root's slot to a confirmation from the critic's distinct review slot of the same generation |
| Coordination.DeclaredUniqueness | danus/coordination/store.py:560-594 | the schema's uniqueness constraints on reviews and recommendations hold in every state, so none can reject a write |
| Coordination.RunKeeps | danus/coordination/store.py:1274-4333 | between any two states of a run, frozen tasks, pinned prompts, terminal slots, evidence, resolutions and closed candidates are unchanged and the generation has not fallen |
| Coordination.WedgedForever | danus/coordination/store.py:1060-1073 | a slot marked ambiguous before its prompt was pinned stays open for ever and holds the generation |
| CoordinationSteps.BindingRejectsWedged | danus/coordination/store.py:1012-1094 | the binding audit can reject no other slot |
| CoordinationSteps.ChecksPass | danus/coordination/store.py:2701-2770 | none of the fail-closed checks of a generation advance can fail |
| CoordinationSteps.AdvancedKeeps | danus/coordination/store.py:2670-2770 | advancing restores quiescence from any state inside a transaction and is itself a legal step |
| CoordinationSteps.ReadyMeansServed | danus/coordination/store.py:2670-2700 | a project moves on exactly when the owner is not asked, no candidate is live or unknown and every paid worker, in a review the critic alone, has a terminal slot of the round |
| CoordinationSteps.AdvanceBegins | danus/coordination/store.py:2701-2770 | an advance begins the pending review or else the next generation, with a whole timeout from now, and ends an unconfirmed review |
| CoordinationSteps.NoneOpen | danus/coordination/store.py:2683-2700 | a finished round leaves no slot open, so no generation moves past one |
| CoordinationSteps.CarriedIs | danus/coordination/store.py:1446-1501 | the next generation gets every lane's task byte for byte, unfrozen, and no older task changes |
| CoordinationSteps.ReviewIsRunning | danus/coordination/store.py:2727-2744 | when the critic's round ends its review is the active one and unconfirmed |
| CoordinationSteps.ReviewIsPending | danus/coordination/store.py:2461-2473 | before the critic's slot exists its review is pending, so the admission CAS cannot be lost |
| CoordinationStore.Gather | danus/coordination/store.py:3732-3742 | the distinct evidence of a batch for one slot, or two entries that clash under one id |
| CoordinationStore.CoordinationStore.CopyForward | danus/coordination/store.py:1446-1501 | carries a complete frozen task set forward; its checks cannot fail |
| CoordinationStore.CoordinationStore.AdvanceIfReady | danus/coordination/store.py:2670-2770 | advances a ready project, to the review if one is pending and else to the next generation, and leaves any other alone |
| CoordinationStore.CoordinationStore.Expire | danus/coordination/store.py:2201-2235 | closes an unspent slot at the deadline and advances what is then ready |
| CoordinationStore.CoordinationStore.StageTask | danus/coordination/store.py:1274-1410 | stages the text, unfrozen, for this generation, or the next in the owner phase, exactly when it is within its byte limit, no candidate freezes the project and no frozen task differs |
| CoordinationStore.CoordinationStore.Admit | danus/coordination/store.py:2286-2502 | resumes the worker's open slot, unless the binding audit rejects it, or closes it unspent at the deadline; without one hands out a fresh slot exactly when the worker is eligible, in time, unserved and has a task, and says otherwise what was missing; the slot carries the frozen task and, for a review, its exact designation |
| CoordinationStore.CoordinationStore.AdmitNew | danus/coordination/store.py:2324-2500 | the same for a worker without an open slot; the paid cap and the review CAS never refuse it |
| CoordinationStore.CoordinationStore.PinPrompt | danus/coordination/store.py:2504-2567 | the first prompt that names slot, generation and task is pinned; every later call is answered with it |
| CoordinationStore.CoordinationStore.Activate | danus/coordination/store.py:2569-2627 | exactly a pinned slot becomes active before the deadline; a pinned prepared one at or after it is always closed unspent; anything else changes nothing |
| CoordinationStore.CoordinationStore.MarkAmbiguous | danus/coordination/store.py:2629-2668 | accepted for exactly the open slots the binding audit accepts |
| CoordinationStore.CoordinationStore.Complete | danus/coordination/store.py:2772-2843 | closes a slot and advances what is then ready; an exact replay changes nothing |
| CoordinationStore.CoordinationStore.MarkThenComplete | danus/coordination/store.py:2629-2843 | an open slot that is marked ambiguous can be completed exactly if its prompt was pinned before |
| CoordinationStore.WedgeFreshProject | danus/coordination/store.py:1060-1073 | in any fresh project, staging, admitting and marking the root's slot ambiguous leaves it wedged, and completing it fails |
| CoordinationStore.CoordinationStore.CanonicalSlot | danus/coordination/store.py:1503-1531 | accepts exactly the worker's own dispatched slot, which is always of the current generation and lane |
| CoordinationStore.CoordinationStore.EnterRootEvidence | danus/coordination/store.py:1787-1894 | records evidence and designates the slot's one review; refused exactly for a clash, a live or different review, or a past generation |
| CoordinationStore.CoordinationStore.RecordRootEvidence | danus/coordination/store.py:3091-3147 | succeeds exactly for the root's dispatched slot of this generation with evidence that clashes with nothing |
| CoordinationStore.CoordinationStore.EnterConfirmation | danus/coordination/store.py:3553-3656 | succeeds exactly for a confirmation of the entry the slot was opened for, while its review runs or as an exact replay; the evidence, the confirmed review, the recommendation and the owner gate come together, and a replay changes nothing |
| CoordinationStore.CoordinationStore.ConfirmRootEvidence | danus/coordination/store.py:3149-3264 | succeeds exactly for the critic's dispatched review slot and the entry it was opened for, with the same effect |
| CoordinationStore.CoordinationStore.ReadBack | danus/coordination/store.py:3709-3742 | reads a batch exactly for a dispatched slot of the worker and without clashing entries |
| CoordinationStore.CoordinationStore.Reconcile | danus/coordination/store.py:3709-3853 | succeeds exactly when the batch reads back and each piece of evidence in it can be entered; enters at most one piece, from the slot that wrote it, as the direct call would have; explorers contribute none |
| CoordinationStore.CoordinationStore.ResolveRecommendation | danus/coordination/store.py:3266-3466 | succeeds exactly for an exact replay or when nothing is open, no candidate is live and the next task set is complete, which it freezes as staged |
| CoordinationStore.CoordinationStore.RegisterCandidate | danus/coordination/store.py:3928-4038 | freezes the project on one candidate, exactly of a dispatched slot while no other is live; a replay changes nothing |
| CoordinationStore.CoordinationStore.TerminalizeCandidate | danus/coordination/store.py:4040-4125 | succeeds exactly for the candidate's own slot and worker with an outcome that does not contradict a recorded one; an unknown outcome leaves the candidate unknown and the project frozen where it is, every other one closes it and advances the project; replays change nothing |
| CoordinationStore.CoordinationStore.RecordExactReuse | danus/coordination/store.py:4127-4234 | succeeds exactly for the worker's dispatched slot or a receipt closed as correct before; records one closed receipt and never an overlay |
| CoordinationStore.CoordinationStore.ResolveUnknown | danus/coordination/store.py:4236-4333 | the owner's release succeeds exactly with acknowledgement and a terminal source slot; a replay changes nothing |
| CoordinationStore.CoordinationStore.Run | danus/coordination/store.py:1274-4333 | over any calls at any times every state satisfies the invariant and every transaction the step rules: generations by one and never past an open slot, the owner phase left only by one resolution, an overlay freezing admission, staging, advance and resolution |
| TurnTracking.NotifiedKeeps | danus/hotjoin.py:543-585 | whatever the server sends, an active turn is its thread's binding and not terminal, and bindings never change |
| TurnTracking.OneTurnPerThread | danus/hotjoin.py:698-730 | over one client's life a thread is seen active on one turn only, never on one already terminal |
| TurnTracking.AppServerClient.Track | danus/hotjoin.py:698-730 | refuses exactly a second binding, a terminal reactivation and an identity over the cap |
| TurnTracking.AppServerClient.Start | danus/hotjoin.py:547-564 | a started or adopted turn becomes active exactly if it conflicts with nothing tracked |
| TurnTracking.AppServerClient.Complete | danus/hotjoin.py:565-585 | a completed turn is terminal for good and no longer active |
| TurnTracking.AppServerClient.Mention | danus/hotjoin.py:586-696 | other notifications only track an identity, under the cap |
| Deliveries.DeliveryLedger.Enqueue | danus/hotjoin.py:2182-2258 | a new key's message waits; a repeated key is answered with its message exactly for the same target, kind, fallback, binding and body, and refused otherwise |
| Deliveries.DeliveryLedger.FindOldest | danus/hotjoin.py:2498-2506 | the oldest claimable message, or none exists |
| Deliveries.DeliveryLedger.Take | danus/hotjoin.py:2455-2541 | expired claims become unknown and are not claimable; the oldest waiting message of the thread is claimed, never a queued one on the turn that refused it |
| Deliveries.DeliveryLedger.Record | danus/hotjoin.py:2543-2623 | changes the row exactly if state, owner, thread and turn fences hold |
| Deliveries.DeliveryLedger.CompleteTurn | danus/hotjoin.py:3865-3888 | exactly the messages accepted by the turn get a terminal receipt |
| HotJoin.StepKeeps | danus/hotjoin.py:4241-4395 | every step of every broker, client, owner and reconciliation keeps the system sound and undoes nothing settled |
| HotJoin.DispatchKeeps | danus/hotjoin.py:4245-4314 | a dispatch, a broken binding or a missing turn keeps the system sound |
| HotJoin.ReplyKeeps | danus/hotjoin.py:4315-4395 | accepted, rejected and lost answers keep the system sound and undo nothing settled |
| HotJoin.TakeKeeps | danus/hotjoin.py:2455-2541 | a claim keeps the system sound and is exclusive: a message nobody holds gets one holder |
| HotJoinOutcomes.TakeOutcome | danus/hotjoin.py:2455-2541 | in any execution a claim takes the oldest message that waits for this target and thread and was not refused on the very turn that is active, or none exists; the row is routed to the broker on the turn it saw and the claim logged; expired claims become unknown and nothing else changes |
| HotJoinOutcomes.LookOutcome | danus/hotjoin.py:4243-4244 | a broker sees exactly the turn its own client has active on its thread |
| HotJoinOutcomes.DispatchOutcome | danus/hotjoin.py:4241-4314 | in any execution an RPC is issued for exactly the claimed turn, unless there is none or the message is bound to another thread or turn; then queue-fallback text without a turn waits again and everything else fails |
| HotJoinOutcomes.ReplyOutcome | danus/hotjoin.py:4315-4395 | in any execution accepted text becomes steer_accepted and an accepted interrupt interrupt_accepted on the turn it was sent on; a rejection queues exactly queue-fallback text and fails the rest; a lost answer leaves delivery_unknown; a row closed behind the broker stays as it is and the broker stops |
| HotJoinOutcomes.AcceptedIsReceipted | danus/hotjoin.py:3865-3888 | in any execution an accepted message keeps its row until its turn ends and is then completed: it has its terminal receipt exactly if that turn has ended since |
| HotJoinOutcomes.ReceiptStays | danus/hotjoin.py:2543-2623 | a terminal receipt is never changed again |
| HotJoin.ShutOk | danus/hotjoin.py:4153-4223 | closing deliveries behind a broker's back, by expiry or reconciliation, is always safe |
| HotJoin.Sound | danus/hotjoin.py:4225-4395 | every state reachable in any interleaving is sound |
| HotJoin.AtMostOneUnrejected | danus/hotjoin.py:4241-4395 | of all RPCs ever issued for a message by any broker, at most the last was not definitely rejected |
| HotJoin.WaitingIsSafe | danus/hotjoin.py:2455-2541 | a message that can be claimed has no RPC outstanding or of unknown effect |
| HotJoin.NeverTwiceInARow | danus/hotjoin.py:2486-2497 | successive dispatch claims of a message are on different turns and by different clients |
| HotJoinRuns.AtMostOncePerLifetime | danus/hotjoin.py:698-730 | if every launch keeps the client lifetimes on a thread apart, each client claims a message for dispatch, and sends it, at most once |
| HotJoinRuns.OneClientServes | danus/hotjoin.py:698-730 | under the same condition, brokers alive on one thread belong to one client |
| HotJoinRuns.OverlapSendsTwice | danus/hotjoin.py:2486-2497 | from any reachable state in which two brokers see different turns on one thread, the next message can be sent by the first, the second and the first again |
| HotJoinRuns.InterleavedLifetimes | danus/hotjoin.py:2486-2497 | a concrete execution in which two clients alive on one thread take turns, so that one client sends a message twice, each time definitely rejected |
| HotJoinRuns.RejectedRound | danus/hotjoin.py:4277-4384 | a rejected round puts a queue-fallback message back to wait, marked with the turn that refused it, from any state where the broker is free to claim it |
| HotJoin.OneClientOneTry | danus/hotjoin.py:4241-4395 | with one client a message is dispatched at most once at all |
| HotJoinRuns.UnknownIsFinal | danus/hotjoin.py:4216-4340 | in any execution a message whose delivery became unknown is never claimed again; an RPC is issued for it only by a broker that held it on a turn then, at most once, and its sent flags stay the same iff none is |
| HotJoinRuns.LostAnswerIsFinal | danus/hotjoin.py:4315-4395 | after a lost answer no RPC is ever issued for the message again |
| HotJoinRuns.DispatchedWhileUnknown | danus/hotjoin.py:4216-4340 | a concrete execution in which an RPC is issued for a message already recorded as unknown |
| HotJoin.EncouragementIsExact | danus/hotjoin.py:4287-4313 | an exact-turn encouragement is sent only to its bound thread and turn and is never queued |
| PaidIntents.ReceiptsDecide | danus/hotjoin.py:2912-3173 | a slot's intent is completed iff it has exactly one terminal receipt agreeing with one final audit and one retirement, failed iff exactly one operator receipt, never both |
| PaidIntents.OneUnfinished | danus/hotjoin.py:2769-2780 | at most one unfinished intent per target and one intent per slot |
| PaidIntents.LaterTransitive | danus/hotjoin.py:2862-2873 | terminal states, receipts and the ban on an abandoned thread hold for every later state |
| PaidIntents.ChangeKeeps | danus/hotjoin.py:3251-3488 | a transaction about one intent leaves every other intent's receipts intact |
| PaidLedger.PaidLedger.RoundIntent | danus/hotjoin.py:2782-2901 | the slot's intent, else the target's unfinished one, answers if the request is identical and refuses it otherwise; where neither exists the thread is banned, the id taken or a fresh prepared intent created, and nothing else changes |
| PaidLedger.PaidLedger.OnlyMatch | danus/hotjoin.py:2769-2780 | no second intent is the slot's, and no second unfinished one the target's |
| PaidLedger.PaidLedger.RecordRoundIntent | danus/hotjoin.py:3774-3847 | moves the intent, keeping a known turn, exactly if its state is an expected one, a slot's intent would not become terminal and no terminal state is left |
| PaidLedger.PaidLedger.AttemptAudit | danus/hotjoin.py:3183-3249 | stores a readable audit once per payload; a dispatched intent becomes unknown, a prepared one bound to a slot stays the safe retry point |
| PaidLedger.PaidLedger.FinalizeRound | danus/hotjoin.py:3251-3488 | final audit, completion, removal of the target's thread with its retirement event, receipt with return code and disposition citing that event, and the terminal receipts of the turn's messages together or nothing at all, exactly when report, turn, attestation and thread mapping agree; a completed turn is confirmed exactly as its receipt has it |
| PaidLedger.PaidLedger.Replay | danus/hotjoin.py:3449-3488 | a repeated report succeeds exactly if it agrees with the one receipt and the thread is still retired; the stored audit always attests that receipt |
| PaidLedger.PaidLedger.FindReceipt | danus/hotjoin.py:3450-3485 | a completed slot's receipt exists and agrees with its intent, audit and retirement |
| PaidLedger.PaidLedger.Abandon | danus/hotjoin.py:3515-3640 | exactly the acknowledged abandonment of a dispatched intent fails it with one event and, for a slot, one receipt citing it, and bans its thread; nothing else changes |
| PaidLedger.PaidLedger.Cancel | danus/hotjoin.py:3642-3750 | only a prepared intent is cancelled, with one event and, for a slot, one receipt citing it; nothing else changes |
| PaidLedger.PaidLedger.RemoveThread | danus/hotjoin.py:2698-2756 | refused exactly while the target has an unfinished paid turn or another thread |
| PaidLedger.PaidLedger.Run | danus/hotjoin.py:2643-3847 | over any calls the ledger invariant holds, every receipt stays attested by its audit, and nothing terminal, receipted or banned changes |
| Intervals.IntervalUnionMs | danus/reasoning_telemetry.py:215-227 | the number of integer milliseconds covered by at least one well-formed interval, for any list |
| Intervals.Sweep | danus/reasoning_telemetry.py:215-227 | the same for a sorted list, in one pass |
| Telemetry.SumSplits | danus/reasoning_telemetry.py:424-426 | the total over resume triggers does not depend on the order of summation |
| Telemetry.AcceptBalances | danus/reasoning_telemetry.py:121-157 | an accepted notification keeps the recorded growth equal to the growth of the totals, field by field, and never meets foreign fields |
| Telemetry.TurnTelemetry.ObserveUsage | danus/hotjoin.py:606-628 | files accepted growth under its one trigger and keeps the books balanced; a rejected notification changes no book |
| Telemetry.TokensAreConserved | danus/reasoning_telemetry.py:371-426 | over any stream of notifications and item ends, rejected ones included, growth summed over all triggers is last accepted total minus first accepted total plus the first accepted sample, field by field |
| Telemetry.NothingIsLost | danus/reasoning_telemetry.py:121-157 | over any stream whose totals grow by exactly the samples they report, the recorded growth is exactly the sum of the reported samples |
| Telemetry.TurnTelemetry.GrowthTotal | danus/reasoning_telemetry.py:424-426 | the total over all resume triggers in whatever order they are met, absent exactly if nothing was recorded |
| Telemetry.UnionOver | danus/reasoning_telemetry.py:410-417 | the milliseconds covered by any interval of the given categories, counted once |
| Telemetry.TurnTelemetry.ObserveCompletion | danus/reasoning_telemetry.py:286-369 | the first end of an item counts and moves it from started to completed; started, completed and recovered counts always add up |
| Telemetry.TurnTelemetry.Summary | danus/reasoning_telemetry.py:398-482 | the tool and measured unions are the milliseconds covered by tool or control intervals and by any; what is left of the turn after each, never negative, and unattributed time never exceeds non-tool time; the token total is the last accepted total minus the first plus the first sample, field by field |
| ReportOrder.DepthCache.Depth | danus/human_summary/assemble.py:85-94 | on every graph without a cycle the shared cache gives the longest predecessor chain; the recursion ends on every graph |
| ReportOrder.Depths | danus/human_summary/assemble.py:107-120 | every listed fact gets its longest chain from one shared cache |
| ReportOrder.InDegree | danus/human_summary/assemble.py:97-104 | how often each fact is cited by the listed facts |
| ReportOrder.GreedyIsUnique | danus/human_summary/assemble.py:107-135 | the order is determined by the graph: two greedy orders agree |
| ReportOrder.GreedyRanks | danus/human_summary/assemble.py:119-131 | whatever could have stood at an earlier place, or stands later when nothing could, is shallower than what stands there, or as deep and cited less, or as often and greater by id |
| ReportOrder.SomethingIsReady | danus/human_summary/assemble.py:119-131 | on a graph without a cycle some remaining fact always has all its predecessors placed |
| ReportOrder.Best | danus/human_summary/assemble.py:124-131 | the candidate preferred to all others |
| ReportOrder.Order | danus/human_summary/assemble.py:107-135 | a permutation of all facts, each after its in-graph predecessors on every graph without a cycle; whatever could have stood earlier has a shorter longest chain than what stands there, or the same and fewer citations, or as many and a greater id; still a permutation on a cyclic graph |

## Left out

- Schema migrations and legacy formats: coordination versions before the current one, rebuilt hot-join tables, pending-add schema version 1, legacy semantic fact ids, and block-style glossaries in fact files. Every model starts from a fresh current store.
- Power loss during the file moves of a revocation: a resumed cascade skips a move that is already visible without syncing it again. Revocation is proved for process kills, each rename being one atomic step.
- FactStore.Store.Revoke: assumes that a new revocation id is not yet in the log, as a random identifier guarantees in practice.
- FactFile.ParseFrontmatter: block-style glossaries, which only legacy files hold, are not parsed.
- FactRoundTrip.ValidateIntegrity: JSON is an injective one-line codec given as a parameter, and lower-casing is modelled for ASCII (exact for the headings compared).
- AddProtocol.GraphStore.Add: the fact's text must validate under its id and the given glossary must parse, which `FactRoundTrip.WriteThenValidate` proves of every serialised fact; both readings are arbitrary predicates here. The checks on predecessors and definitions are `FactStore.Store.Check`.
- Policy.SelectLaneRoster: the parsing of the role string into efforts is not modelled.
- CoordinationStore.CoordinationStore.Admit: the `worker_states` display table, directive texts and stored digests, which the modelled fields determine, are not kept; slot and recommendation ids are parameters, and a repeated one is refused.
- `record_candidate` (a stub that upserts by bare id), memory cursors and `validate_memory_publication` of the coordinator.
- HotJoin.StepKeeps: reconciliation is one fenced record per message with arbitrary observed history; the history parser itself is not modelled.
- PaidLedger.PaidLedger.FinalizeRound: reading an audit and its header is a pair of arbitrary predicates on payloads; the `round_events` history, which follows from the intents' changes, is not kept.
- PaidLedger.PaidLedger.FindReceipt: reading an old slot's receipt after its target got a new thread, which the reader refuses.
- `set_external_refs`, bibliography and search: mutable metadata outside the content id.
- Regular-expression term matching (an arbitrary predicate in `Definitions`) and redaction.
- Provider reroutes, notification retention limits and item classification in telemetry.
- Process guardians, subprocess launching, HTTP, MCP servers, command line, BM25 scoring, prompt text and output validators: input/output plumbing or branch-by-branch checks.
