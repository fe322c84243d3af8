# Council: a verified model of its crash-safe core

Council lets two or three coding agents hold a structured dialogue through a local broker. This
project models the parts of it that have to survive stopped processes, lost replies and concurrent
callers, and proves what they keep. `dafny verify dfyconfig.toml` checks everything.

**The dialogue broker.** `FairActivation` and `ClaimLedger` are the claim ledger: round-robin
activation under a ceiling and evidence-gated retirement; `RetirementResults` says exactly which claims a
pass retires and which wait. `PhaseMachine` is what a submission, an
extension or a cancellation makes of a dialogue; `PhaseInvariants` shows that its invariant lasts and
`PhaseResults` what follows from it: completion needs the full record, material challenges reopen,
every step lowers a measure. `PhaseDecisions` and `PhaseOutcomes` say, over the recorded responses alone,
which answer each submission gets, what each full phase leads to, which claims a challenge retires and what
the final record holds. `PhaseProgress` shows that no stage is a dead end and that every dialogue
can be completed. `BrokerDisk` describes the durable files of one dialogue (manifest,
outbox records, log, submissions, final record, tombstone) and the invariant over them; `BrokerSteps`
and `BrokerCommit` show that each kind of durable write keeps it, the manifest save being the only
commit point; `BrokerFacts` and `BrokerDecisions` are what an operation may conclude from it, and
`BrokerAnswers` says over statuses, times and responses what the operations on messages answer.
`Broker.CouncilBroker` is the broker: its methods change the files one durable write at a time, and
each write asks the process's stop plan whether the process stops there: nowhere, behind any number of
writes, or before any kind of write. A process that stopped is followed by a restart, or goes on behind
the write that failed. The ghost `history` holds every moment of
the disk, the ghost `past` the transitions and intents of the manifests saved so far, which is a function
of the writes. `BrokerRuns` runs any operations in any order and states what holds along every run, in
terms of the manifests of the run; `BrokerResults` adds what a run means to a participant: what a repeated
submission is told, whom the next waits serve, who is asked and who is told of the end, and that the log and
the final record tell the dialogue. `BrokerScenarios` builds single runs from a new broker on: the ones on
which the general results need their conditions.

**The log file.** `AuditLog` is the append-only file below the broker's log: an append may be torn at
any byte, and the next append or read repairs the tail first. The broker keeps the bytes of that file
beside the entries of its disk; a stop inside an append tears the line at any byte, and what a reader
finds is always exactly the entries. How records become bytes is a codec; `JsonRecords` shows that
one-line objects of RFC 8259 make a faithful one.

**The JSON editor.** `Bytes` and `JsonGrammar` give the syntax of RFC 8259 (sections 2 to 7) as a
relation between bytes and trees of byte spans. `JsonParser` is the parser as functions, `JsonReader`
the same as the recursive reader with a position and a node counter; `JsonAgreement` and
`JsonCompleteness` show that it accepts exactly the grammar, within its limits. `JsonEdit`,
`JsonLists` and `JsonNodes` are the locality of edits: bytes inserted in or cut from a document change
one item or member and shift the rest. `OpenCodePlan` plans the edit of the plugin list, and
`OpenCodeTrees`, `OpenCodeChecks` and `OpenCodeResults` prove the plan exact and reversible;
`OpenCodeDecisions` says over the entries of the document which edit is planned and what its checks mean.

**The writer lease.** `WriterLease` has the lease and the broker's calls under it as atomic steps of
any threads in any order.

**The preparation guard.** `PreparationFiles` describes a file tree, the ownership record written ahead
of every creation and the invariant between them; `Preparation.Guard` claims, creates, binds, writes,
promotes, cleans up and reconciles, one durable write at a time; `PreparationRuns` stops whole
preparations anywhere and reconciles them.

**The exactly-once clients.** `DeliveryRegistry` is the registry of message posts with its states, joined
posts and timers, one stretch between two awaits at a time. `ExtensionClient` puts the extension
client, the line of requests and replies and the broker of `Broker` together.

Some invariants are *sealed*: they hold for every value of a dummy that satisfies a predicate which is
always true, so that the solver opens them only where a proof names that predicate (`Within(0)`,
`Inside(d, supply, 0)`, `Page(b, 0)` and the like). They mean what stands behind the arrow.

## What the proofs found

- A start that stops before its commit leaves its staged messages *orphaned*, not aborted: with no
  manifest there is no transition to compare (`scripts/council.py:2374-2380`). `Broker.CouncilBroker.Restart`
  says which of the two a message becomes.
- Events staged in a manifest are logged exactly once, and so are at rest the activations of the messages
  that wait to be received (`BrokerRuns.RestLogsWaiting`). For the messages that were handed out it holds
  along every run on which no process goes on behind a failed write (`BrokerRuns.Run`). On one that does, a
  message may be handed out whose activation no restart logs (`BrokerScenarios.UnloggedActivation`).
- The audits that a repeated extension or cancellation would write are never needed: whenever the
  committed transition is finished the event is there (`BrokerFacts.ChangesAreLogged`).
- A cancelled dialogue may keep the final record of a completion that was not committed
  (`BrokerScenarios.CancelledWithFinal`). At rest there is a final record exactly when the dialogue is
  complete, or when a final record was there as it was cancelled (`BrokerRuns.RestFinalExactly`).
- A claim that everyone calls nonmaterial in two consecutive rounds retires without evidence only if nobody
  gave evidence in the first of them either: a round with evidence does not count as a confirmation for the
  next one (`PhaseOutcomes.ChallengeRetires`).
- The checks on an edited configuration can fail in one way only: an addition may push the document
  over its byte or node limit, and then the reparse refuses it.
- A rejection before commit drops the client's identity. It is applied all the same if and only if a call
  later than the rejected one got it applied (`ExtensionClient.DroppedIsAppliedLater`), which happens when
  calls under one identity overlap (`ExtensionClient.OverlappingCalls`); after the rejection of the latest
  call it never is (`ExtensionClient.DroppedForGood`).
- Taken by itself, an append of a line longer than 1 MiB that a stop tears behind its first MiB blocks its
  file for good: every repair refuses it (`AuditLog.OverlongTailStays`). The broker's log has no such line:
  an envelope has at most 256 KiB (`scripts/council.py:2217-2221`), and the details of every other event sit
  in a manifest of at most 768 KiB (`scripts/council.py:1366-1369`). With that (`Broker.Fitting`) the log file
  always shows exactly the entries (`Broker.FittingIsWhole`, `BrokerRuns.LogFileIsExact`).
- After a preparation that was stopped anywhere, with its own transaction's admission, and any number of
  reconciliations that were stopped too, a reconciliation refuses only over one of three things
  (`PreparationRuns.PrepareAndReconcile`): a torn replacement beside a record, which a stop while it is
  written leaves (`PreparationRuns.StoppedWhileReplacing`); a part of a tree whose planned mode is not
  the one it is created with (`PreparationRuns.SteadinessDecides`); or a complete tree that an earlier
  cleanup had begun to remove (`PreparationRuns.StoppedInCompleteTree`). Nothing else a stopped cleanup
  leaves stands in the way of the next (`Preparation.BlockedAfter`).


## Model

| member | source | states |
|---|---|---|
| `FairActivation.Activate` | scripts/council.py:3044-3069 | the round-robin loop, level by level, ends and returns exactly the claims of the specification |
| `FairActivation.ActivatedCount` | scripts/council.py:3044-3069 | as many claims are active as there are, up to the ceiling and never above it |
| `FairActivation.ActiveByRank` | scripts/council.py:3044-3069 | a claim is active if and only if fewer than `ceiling` claims come before it in the round-robin order |
| `FairActivation.ActiveByCount` | scripts/council.py:3044-3069 | that order counted: the claims before one are those of earlier places, and those of the same place of participants before it |
| `FairActivation.ActivePrefix` | scripts/council.py:3044-3069 | each participant's active claims are a prefix of its own order |
| `FairActivation.ActiveFairly` | scripts/council.py:3044-3069 | whoever has one claim more than another active leaves the other either as many less one, or all it has |
| `FairActivation.EveryoneKeepsOne` | scripts/council.py:3044-3069 | under a ceiling that admits one claim each, everyone has its first claim active |
| `ClaimLedger.BuildClaimLedger` | scripts/council.py:3001-3072 | the construction loop returns the ledger of the specification: activated claims, the others parked |
| `ClaimLedger.BuiltLedgerIsSound` | scripts/council.py:3001-3072 | the new ledger conserves the raw claims and has active claims of two origins |
| `ClaimLedger.ApplySafeRetirements` | scripts/council.py:3292-3414 | the two loops of the pass return exactly the retirement of the specification, of which `RetirementResults.PassRetiresExactly` says which claims retire |
| `ClaimLedger.RetirementConserves` | scripts/council.py:3292-3414 | after a pass every raw claim is still in exactly one of active, parked and retired |
| `ClaimLedger.RetirementKeepsLedger` | scripts/council.py:3292-3414 | every pass, committed or not, keeps conservation, two claims of two origins active, and duplicate links that only lead on |
| `ClaimLedger.OpponentClaimExists` | scripts/council.py:3274-3279 | under that invariant every participant finds an active claim of somebody else |
| `ClaimLedger.Root` | scripts/council.py:3375-3414 | following duplicate links from any retired claim ends, at an active claim or at one retired as nonmaterial |
| `ClaimLedger.RetirementHasGrounds` | scripts/council.py:3311-3366 | a claim without a duplicate retires only with evidence or when everyone called it nonmaterial in two consecutive rounds, one with a duplicate only when everyone called it a duplicate of the same claim; waiting confirmations stay backed by their rounds |
| `ClaimLedger.EveryoneAssessed` | scripts/council.py:3311-3366 | as many assessments as reviews means that each participant gave one, and what all of them say each participant said |
| `RetirementResults.PassRetiresExactly` | scripts/council.py:3319-3414 | a committed pass retires an active claim if and only if there are grounds for it (everyone calls it a duplicate of one claim, or nonmaterial with evidence or again), it is not the target of another such duplicate, its own target is not one, and two origins remain without it |
| `RetirementResults.PassWaits` | scripts/council.py:3340-3366 | a pass leaves exactly those claims waiting that everyone dismissed without evidence in its round, whatever was waiting before |
| `PhaseInvariants.StartIsSound` | scripts/council.py:2685-2908 | a dialogue that may start satisfies the whole invariant of the phase machine |
| `PhaseInvariants.RecordedIsSound` | scripts/council.py:3979-4096 | recording an admitted response keeps the invariant before any advance |
| `PhaseInvariants.AdvancedIsStable` | scripts/council.py:4097-4203 | every advance keeps the invariant and ends in a phase that waits for somebody, or in completion |
| `PhaseInvariants.SubmittedIsStable` | scripts/council.py:3979-4235 | the whole effect of an accepted submission keeps the invariant |
| `PhaseInvariants.ExtendedIsStable` | scripts/council.py:4330-4370 | an extension keeps the invariant, also when it reopens the exchange at the synthesis gate |
| `PhaseInvariants.CancelledIsStable` | scripts/council.py:4478-4530 | a cancellation keeps the invariant |
| `PhaseInvariants.HistoryGrows` | scripts/council.py:4097-4171 | the reviews of the completed rounds never change when responses are recorded |
| `PhaseResults.CompletionNeedsTheFullRecord` | scripts/council.py:4097-4203 | a complete dialogue has every proposal, every exchange of every round up to the current one, at least the minimum of rounds, the challenges, the synthesis, all checks, and a triad's revision with its checks where one was due |
| `PhaseResults.MaterialChallengeReopens` | scripts/council.py:4147-4171 | at a full challenge below the authorized limit the next phase is another exchange round exactly when some challenge is material, and synthesis otherwise |
| `PhaseResults.AdvanceOpensLater` | scripts/council.py:4097-4203 | an advance waits, or has every answer of the phase it leaves and opens a strictly later stage, asking exactly its required submitters, or completes and tells everyone; which of them, `PhaseOutcomes` says |
| `PhaseResults.SubmissionsAreBounded` | scripts/council.py:2727-2746 | the recorded responses never exceed n + 2·n·max_rounds + 1 + (n-1) + 1 + (n-1) |
| `PhaseResults.SubmissionLowers` | scripts/council.py:3979-4235 | every accepted submission lowers the pair of extension room and missing responses |
| `PhaseResults.ExtensionLowers` | scripts/council.py:4330-4370 | so does every new extension |
| `PhaseResults.GrownIsTransitive` | scripts/council.py:3979-4407 | responses, rounds, authorizations, extensions and an end that were there stay, over any number of steps |
| `PhaseResults.RetiredByEveryone` | scripts/council.py:3311-3366 | a claim retired as nonmaterial was called so by each participant, in the exchange of its round and, without evidence, of the one before |
| `PhaseDecisions.MayStartIsAllowed` | scripts/council.py:2707-2757 | the policy allows exactly two or three different participants, one to a hundred rounds in order, and a ceiling between the participants and 24 |
| `PhaseDecisions.AnswersRightly` | scripts/council.py:3979-4096 | exactly when each answer to a submission is given: a duplicate where the recorded response is the same and a conflict where it is not; otherwise stale behind its round or the end; unexpected, of a wrong round, malformed, undeliverable or accepted, each in terms of phase, round and record |
| `PhaseOutcomes.ProposalsBecomeClaims` | scripts/council.py:3001-3072 | the full proposals make the ledger: all proposed claims and no other, active where fewer than the ceiling come before |
| `PhaseOutcomes.ExchangeLeadsTo` | scripts/council.py:3460-3486 | a full exchange leads to the challenge if and only if the authorized rounds are used up, or the policy stops on convergence, the minimum is reached, everyone offers to converge without delta or disagreement, and on each active claim everyone holds one position that is not uncertain; otherwise to the next exchange round |
| `PhaseOutcomes.PhaseLeadsTo` | scripts/council.py:4097-4203 | what every other full phase leads to, in terms of the recorded issues, corrections and rounds |
| `PhaseOutcomes.ChallengeRetires` | scripts/council.py:3319-3414 | a challenge without a material issue retires a claim if and only if the recorded exchanges give grounds for it and it is not kept as a target, nor in line behind one, nor needed for two origins |
| `PhaseOutcomes.OnlyChallengesRetire` | scripts/council.py:4107-4171 | no other step changes which claims are active, parked or retired, but for the proposals that bring them in |
| `PhaseOutcomes.RetiredOnEveryonesWord` | scripts/council.py:3319-3366 | whatever retired did so on the recorded word of every participant in the exchange of its round: as a duplicate of the same claim, or as nonmaterial with evidence or again |
| `PhaseOutcomes.FinalTells` | scripts/council.py:3862-3920 | the final record is the dialogue's last word: its claims, the synthesis, the revision if there was one, the challenges of the last round, and the checks and revision checks of each peer |
| `PhaseOutcomes.ExtendedRightly` | scripts/council.py:4298-4370 | exactly when an extension is applied, repeated, or refused before commit, and what an applied one makes of the dialogue |
| `PhaseProgress.AwaitedUntilBarrier` | scripts/council.py:4097-4203 | a phase is over exactly when it waits for nobody |
| `PhaseProgress.AnswerIsAdmitted` | scripts/council.py:3979-4096 | whoever a phase waits for has an answer that the broker accepts: no stage is a dead end |
| `PhaseProgress.CompletionIsReachable` | scripts/council.py:3979-4235 | wherever a dialogue waits, accepted responses lead it to completion, and no more of them than the bound leaves room for |
| `BrokerDisk.SafetyIsStable` | scripts/council.py:5014-5049 | a response that is safe stays safe whatever follows, short of deletion |
| `BrokerSteps.StageKeeps` | scripts/council.py:2224-2257 | staging a message under an uncommitted transition keeps the invariant of the disk |
| `BrokerSteps.MoveKeeps` | scripts/council.py:2259-2285 | every allowed change of a committed message's record keeps the invariant |
| `BrokerSteps.AppendKeeps` | scripts/council.py:1442-1478 | appending an event that is intended and not logged keeps the invariant |
| `BrokerSteps.TombstoneKeeps` | scripts/council.py:2488-2541 | writing the tombstone of an ended dialogue keeps the invariant |
| `BrokerSteps.RemovalKeeps` | scripts/council.py:2428-2445 | so does removing an outbox record behind it |
| `BrokerSteps.DirectoryRemovalKeeps` | scripts/council.py:2428-2445 | and removing the manifest, then the rest, once no record is left |
| `BrokerCommit.CommitKeeps` | scripts/council.py:1361-1370 | the manifest save as commit point: with the older transition finished and the new one staged it keeps the invariant and takes nothing back |
| `BrokerCommit.StartKeeps` | scripts/council.py:2685-2908 | the first save of a manifest establishes it |
| `BrokerCommit.NewsAreTold` | scripts/council.py:1379-1410 | a commit whose events are what is new of the dialogue keeps the saved events telling it: each happened, each saved once, and whatever happened saved |
| `BrokerCommit.CommitAnnounces` | scripts/council.py:3921-3977 | the commit of an end has one notice for each participant, and of a cancellation for each but whoever cancelled |
| `BrokerDisk.PastIsNext` | scripts/council.py:1361-1370 | only the save of a manifest adds to the record of commits and intents: its transition and the intents it holds, and nothing else |
| `BrokerFacts.CommitAdds` | scripts/council.py:1379-1410 | a commit adds its transition and its own intents to that record |
| `BrokerFacts.ClearAdds` | scripts/council.py:1442-1478 | clearing logged intents adds nothing |
| `BrokerFacts.RecoveryAdds` | scripts/council.py:2299-2328 | the save before a recovered acknowledgement adds its one intent |
| `BrokerFacts.InUseIsCommitted` | scripts/council.py:2361-2402 | whatever is or was in circulation belongs to a transition in the record of commits, which `BrokerRuns.CommitsAreManifests` ties to saved manifests |
| `BrokerFacts.ExactlyOneRequest` | scripts/council.py:3979-4235 | once the committed transition is activated, everyone who owes an answer has exactly one live request for it, of the right kind and round |
| `BrokerFacts.LiveRequestsMatter` | scripts/council.py:2623-2683 | a live request is for the current stage, was answered, or is about to be superseded |
| `BrokerFacts.SavedIsLogged` | scripts/council.py:1379-1478 | an intent of a saved manifest that is no longer pending is in the log |
| `BrokerFacts.LoggedWasSaved` | scripts/council.py:1379-1478 | a logged event is in the record of intents, which `BrokerRuns.IntentsAreManifests` ties to saved manifests, and is in the log once |
| `BrokerFacts.ChangesAreLogged` | scripts/council.py:4237-4273 | an applied extension and a cancellation are logged whenever the committed transition has nothing left to do, so the fallback audits of a repeated call add nothing |
| `BrokerFacts.RestSettlesMessages` | scripts/council.py:2361-2402 | after a restart every message of a transition in the record of commits was activated or superseded, every other was dropped, and none is staged |
| `BrokerFacts.RestLogsExactly` | scripts/council.py:1480-1494 | after a restart every recorded intent is in the log exactly once, and no other event is |
| `BrokerFacts.NotesAreTrue` | scripts/council.py:1507-1525 | a marked record has its activation in the log; while nothing is being deleted the log has activations only of messages that are or were in circulation |
| `BrokerFacts.MarkedLogsExactly` | scripts/council.py:1507-1525 | where all of those are marked, the log has exactly their activations, each once |
| `BrokerFacts.RestHasFinal` | scripts/council.py:3862-3933 | after a restart a complete dialogue has its final record, and a running one has none |
| `BrokerFacts.SubmissionTells` | scripts/council.py:4204-4235 | the events of an accepted submission tell the response and a completion |
| `BrokerAnswers.RecoveryMeans` | scripts/council.py:2299-2328 | a recovery acknowledges exactly the received requests that are answered, outlived or of an ended dialogue and the received notices of a cancellation, and leaves all others |
| `BrokerAnswers.HandingServes` | scripts/council.py:4719-4748 | a wait gives one message that was pending or claimed with its time over, claimed for 120 seconds, or none when no message of the participant is pending and every claim on one has time left |
| `BrokerAnswers.AcknowledgingIsRight` | scripts/council.py:5014-5079 | exactly when each answer to an acknowledgement is given: a received notice is acknowledged, a received request only when it is answered or outlived |
| `BrokerDecisions.Respond` | scripts/council.py:3979-4096 | the decision on a submission is the right one, answer by answer, and an accepted one records exactly that response |
| `BrokerDecisions.RecordsMayCommit` | scripts/council.py:4097-4235 | what a submission leads to meets every condition of the commit point |
| `BrokerDecisions.ExtensionMayCommit` | scripts/council.py:4330-4398 | so does an extension, with the synthesis requests it supersedes |
| `BrokerDecisions.CancellationMayCommit` | scripts/council.py:4478-4530 | so does a cancellation |
| `Broker.CouncilBroker.Persist` | scripts/council.py:663-716 | one durable write happens as a whole, with what it adds to the record of commits fixed by the write, or the process stops before it, exactly where its plan says, with nothing changed; a stop inside an append may tear the line behind any number of bytes, and the entry counts if only the newline is missing |
| `Broker.AppendLine` | scripts/council.py:689-698 | an append repairs the log file and writes one line or a part of it: the file shows the old entries, or those and the new one, unless more than 1 MiB of a longer line was written |
| `Broker.LogIsRead` | scripts/council.py:756-771 | whoever reads the log file finds exactly the entries of the disk |
| `Broker.FittingIsWhole` | scripts/council.py:1366-1478 | where no entry that the run attempted is longer than the log takes, no line is ever torn beyond repair |
| `Broker.CouncilBroker.LogOnce` | scripts/council.py:1417-1478 | when it ends the event is in the log, and at most it was added |
| `Broker.CouncilBroker.AuditQueuedOnce` | scripts/council.py:1507-1525 | when it ends the record is marked and its activation is in the log, added at most once |
| `Broker.CouncilBroker.ActivateRecord` | scripts/council.py:2259-2266 | one staged record of the committed transition becomes claimable, and no other changes |
| `Broker.CouncilBroker.ApplySupersedes` | scripts/council.py:2669-2683 | takes exactly the live messages that the committed transition supersedes out of circulation |
| `Broker.CouncilBroker.ActivateTransition` | scripts/council.py:2268-2285 | supersedes, then activates every staged record of the committed transition |
| `Broker.CouncilBroker.ReconcileAudits` | scripts/council.py:1442-1478 | logs the selected intents that the log lacks and then clears them from the manifest |
| `Broker.CouncilBroker.ReconcileCommitted` | scripts/council.py:1496-1505 | ends with nothing left to do for the committed transition |
| `Broker.CouncilBroker.Queue` | scripts/council.py:2224-2257 | one staged record in a new file; all others stay |
| `Broker.CouncilBroker.Commit` | scripts/council.py:1361-1370 | the save commits the transition and its intents at once, or changes nothing |
| `Broker.CouncilBroker.Start` | scripts/council.py:2685-2908 | starts exactly when there is no dialogue and the policy of two or three participants, rounds and ceiling allows it; stopped anywhere, the manifest is the old one or the started one |
| `Broker.CouncilBroker.Submit` | scripts/council.py:3979-4235 | done, the answer is the right one for phase, round and record, and the dialogue what it leads to; any answer but an acceptance leaves the disk as it was once nothing is left to do; stopped anywhere, the dialogue is the old one or the one it leads to |
| `Broker.CouncilBroker.ExtendRounds` | scripts/council.py:4275-4407 | done, the extension is applied, repeated or refused exactly as the phase, the rounds and the applied extensions say, and the dialogue is what the verdict says; stopped anywhere, the dialogue is the old one or that one |
| `Broker.CouncilBroker.RepeatExtension` | scripts/council.py:4298-4327 | a repeated extension changes nothing, and its event is in the log |
| `Broker.CouncilBroker.Cancel` | scripts/council.py:4478-4530 | cancels exactly a running dialogue for one of its participants, changes nothing of it but the phase, takes everything that circulated out of circulation, logs who cancelled, and leaves the final record as it is; stopped anywhere, all or nothing |
| `Broker.CouncilBroker.RecoverAcknowledgement` | scripts/council.py:2299-2328 | acknowledges on the recipient's behalf only what is safe, intent before record before log |
| `Broker.CouncilBroker.CompleteRecovery` | scripts/council.py:2299-2328 | behind the saved intent: the record is acknowledged, the event logged, and the intent cleared |
| `Broker.CouncilBroker.Wait` | scripts/council.py:4699-4748 | settles what is settled, then hands out one message of the participant that was pending or whose claim was over, or none if there is none; nothing else changes |
| `Broker.CouncilBroker.Ack` | scripts/council.py:5051-5079 | acknowledges exactly what was received and is a notice or an outlived request, and changes nothing else; every other answer is the right one |
| `Broker.CouncilBroker.Retry` | scripts/council.py:2585-2621 | settles what is settled and tries the relay with every other waiting or delivered message of the participant; nothing else changes |
| `Broker.CouncilBroker.RecoverExpired` | scripts/council.py:4775-4794 | a claim whose time is over is acknowledged when it is settled and pending again otherwise; nothing else changes |
| `Broker.CouncilBroker.CompleteDeletion` | scripts/council.py:2428-2445 | behind a tombstone nothing of the dialogue is left when it ends |
| `Broker.CouncilBroker.Delete` | scripts/council.py:2488-2541 | deletes exactly ended dialogues; stopped anywhere, the disk is as it was or the tombstone is there |
| `Broker.CouncilBroker.SettleRecord` | scripts/council.py:2361-2402 | settles one outbox record at a restart: activated, delivered, aborted or left |
| `Broker.CouncilBroker.Restart` | scripts/council.py:1302-1322 | a restart ends at rest and keeps a dialogue that is not tombstoned, its responses, its messages and, of an ended one, the final record; what was staged under an uncommitted transition is orphaned without a manifest and aborted with one; it logs activations only of messages that waited for it; it ends if it may make as many writes as `Broker.RestartCost` counts |
| `BrokerRuns.Perform` | scripts/council.py:5081-5182 | every operation keeps the run going from a valid disk; all but an extension keep the applied extensions and authorized rounds, a manifest appears only by a start, with the rounds given to it, and an accepted submission is one recorded response more |
| `BrokerRuns.Run` | scripts/council.py:1248-5182 | any operations in any order, stopped before any durable writes and restarted, keep the invariant at every moment; each moment follows by one write, and the accepted submissions are no more than the responses some manifest recorded; at rest, if no process went on behind a failed write, the log has exactly the activations of the messages that are or were in circulation, each once |
| `BrokerRuns.CommitsAreManifests` | scripts/council.py:1361-1370 | along every run, the record of commits holds a transition if and only if some manifest saved so far had committed it |
| `BrokerRuns.IntentsAreManifests` | scripts/council.py:1379-1410 | and the record of intents holds an event if and only if some manifest saved so far intended it |
| `BrokerRuns.OnlyCommittedMessagesCirculate` | scripts/council.py:2224-2297 | along every run a message that is or was claimable belongs to a transition that an earlier manifest of the run committed, and stays in use |
| `BrokerRuns.RestSettles` | scripts/council.py:2361-2402 | at rest, a message was activated or superseded if some manifest of the run committed its transition, and dropped otherwise |
| `BrokerRuns.RestAsksEveryone` | scripts/council.py:3979-4235 | at rest, everyone who owes an answer has exactly one live request for it |
| `BrokerRuns.LogHoldsOnlyIntents` | scripts/council.py:1379-1478 | at every moment a logged event was intended by an earlier manifest of the run, and is there once |
| `BrokerRuns.RestLogsIntents` | scripts/council.py:1480-1494 | at rest, the logged events are exactly those that some manifest of the run intended |
| `BrokerRuns.LogFileIsExact` | scripts/council.py:718-771 | so whoever reads the log file of a broker at rest, torn as it may be, finds each of them once and no other, where no entry of the run is longer than the log takes |
| `BrokerRuns.RestLogsWaiting` | scripts/council.py:2361-2402 | at rest, a message that waits to be received has its activation in the log, once |
| `BrokerRuns.RestFinalExactly` | scripts/council.py:1489-1494 | at rest there is a final record if and only if the dialogue is complete, or was cancelled while a final record was there, which it still is |
| `BrokerRuns.CancellationMoment` | scripts/council.py:4478-4530 | a cancelled dialogue was cancelled by one save of its manifest |
| `BrokerRuns.DroppedMessagesStayDropped` | scripts/council.py:2361-2402 | a dropped message is never handed out again |
| `BrokerRuns.AcknowledgementIsForGood` | scripts/council.py:5014-5079 | an acknowledged message stays acknowledged and its response safe at every later moment, short of deletion |
| `BrokerRuns.RunsAreBounded` | scripts/council.py:2727-2746 | at every moment current_round <= authorized_rounds <= max_rounds, the active claims keep the ceiling, and the responses keep their bound |
| `BrokerRuns.AcceptedAreBounded` | scripts/council.py:2727-2746 | no run accepts more submissions than that bound |
| `BrokerRuns.RetirementsAreEveryones` | scripts/council.py:3311-3366 | at every moment, a claim that retired as nonmaterial was called so by each participant in that round, and with evidence or by each in the round before; for duplicates see `BrokerResults.RetiredOnEveryonesWordAlways` |
| `BrokerRuns.RunsOnlyGrow` | scripts/council.py:1361-1370 | no later moment takes back a response, its content, a round, an authorization, an extension, an end or a log entry |
| `BrokerRuns.DeletionIsAtomic` | scripts/council.py:2428-2541 | at every moment a started dialogue has its whole content, or a tombstone is there; no manifest, no outbox record |
| `BrokerRuns.DeletionIsForGood` | scripts/council.py:2447-2457 | a tombstoned dialogue never comes back |
| `BrokerResults.RecordedStays` | scripts/council.py:3999-4017 | along every run a recorded response stays recorded, with its content, as long as the dialogue is there |
| `BrokerResults.Resubmit` | scripts/council.py:3999-4017 | once a response is recorded, whatever operations, stops and restarts follow, the same response is a duplicate and another one conflicts, and the disk stays as it was once nothing is left to do |
| `BrokerResults.SubmitTwice` | scripts/council.py:3999-4017 | so it is for a participant that was told that its response is accepted or a duplicate and submits again, now or later |
| `BrokerResults.DrainWaits` | scripts/council.py:4719-4748 | a participant that goes on waiting is given every message that nobody had and every one whose claim was over, each once, but for those settled for it; then it is told that there is none |
| `BrokerResults.RecordedIsLawful` | scripts/council.py:3979-4096 | at every moment, a recorded response is of a responsible participant and a round that was opened, well-formed, and consistent with the claims |
| `BrokerResults.RetiredOnEveryonesWordAlways` | scripts/council.py:3319-3366 | at every moment, whatever retired did so on every participant's recorded word: as a duplicate of the same claim, or as nonmaterial with evidence or again |
| `BrokerResults.FinalIsTold` | scripts/council.py:3862-3933 | at every moment at which the dialogue is complete its final record is there and is its last word |
| `BrokerResults.OnlyTheResponsibleAreAsked` | scripts/council.py:2623-2683 | along every run a request in circulation, now or once, went to a participant responsible for its kind, for a stage that was reached; the initiator is never asked for its proposal |
| `BrokerResults.OnlySynthesisIsSuperseded` | scripts/council.py:2669-2683 | only a cancellation supersedes anything but requests for a synthesis |
| `BrokerResults.CompletionIsAnnounced` | scripts/council.py:3921-3977 | at rest, each participant of a complete dialogue, and nobody else, has been told of it once, with the final record |
| `BrokerResults.CancellationIsAnnounced` | scripts/council.py:4478-4530 | at rest, each participant of a cancelled one but whoever the log says cancelled has been told of it once |
| `BrokerResults.LogTellsTheDialogue` | scripts/council.py:1379-1494 | at rest the log has the start, each recorded response, each applied extension and the completion once, and nothing of the kind that did not happen |
| `BrokerResults.LogTellsTheCancellation` | scripts/council.py:4478-4530 | and a cancellation, under the transition that was it, if and only if there was one |
| `BrokerScenarios.Complete` | scripts/council.py:3979-4235 | a broker whose process stops nowhere is led from any waiting stage to completion, answer by answer |
| `BrokerScenarios.CancelledWithFinal` | scripts/council.py:3921-3922 | from a new broker: the last submission fails between the final record and the manifest, the process goes on and cancels, and at rest the dialogue is cancelled and has a final record |
| `BrokerScenarios.UnloggedActivation` | scripts/council.py:2259-2266 | from a new broker: the log entry of the first activation fails, the process goes on and hands the message out, and at rest it is in use and not in the log |
| `AuditLog.LastLineIsUnique` | scripts/council.py:718-754 | the last line begins in exactly one place |
| `AuditLog.RepairIsLocal` | scripts/council.py:718-754 | repair changes no byte before the last line, leaves only complete lines, and is done after one pass |
| `AuditLog.RepairKeepsRecords` | scripts/council.py:718-754 | with a faithful codec repair keeps every complete record; a torn last one is removed, or completed when only its newline was missing |
| `AuditLog.ReadingUndoesWriting` | scripts/council.py:756-771 | reading a written file gives back exactly its records, in order |
| `AuditLog.ShownIsRead` | scripts/council.py:756-771 | a file has one sequence of records: the one that a reader finds behind the repair |
| `AuditLog.TornAppendShows` | scripts/council.py:689-698 | an append that stops at any byte leaves the old records, or those and the new one |
| `AuditLog.OverlongTailStays` | scripts/council.py:731-737 | a torn part of more than 1 MiB is refused by every later repair |
| `JsonRecords.PrefixIsNoDocument` | scripts/council.py:743-747 | no proper prefix of an object of RFC 8259 is a document |
| `JsonRecords.ObjectLinesAreFaithful` | scripts/council.py:689-754 | so a codec that renders records as one-line objects and decodes nothing but documents is faithful |
| `JsonRecords.TextCodecIsFaithful` | scripts/council.py:689-754 | and there is one, for all one-line objects |
| `AuditLog.LogFile.FindTail` | scripts/council.py:718-737 | the backward search within the longest line finds the last line, or tells that it is too long |
| `AuditLog.LogFile.Append` | scripts/council.py:689-698 | an append behind a repair adds one record, or leaves the old ones and maybe a torn one when it stops |
| `AuditLog.LogFile.Read` | scripts/council.py:756-771 | a read repairs first and returns the records that survive |
| `JsonParser.NumberIsNumber` | scripts/council_registration.py:1611-1664 | what the scanner takes for a number is one of the grammar |
| `JsonParser.NumberEndsAt` | scripts/council_registration.py:1611-1664 | a delimited number of the grammar is exactly what the scanner takes |
| `JsonCompleteness.ValueIsComplete` | scripts/council_registration.py:1635-1665 | where a value of the grammar stands, within depth and node limits, the parser reads exactly it |
| `JsonAgreement.ValueIsSound` | scripts/council_registration.py:1635-1665 | what the parser reads is a value of the grammar with that tree, within the limits |
| `JsonCompleteness.ParserAgrees` | scripts/council_registration.py:1614-1762 | the parser accepts a document with a tree if and only if it has that tree in the grammar of RFC 8259, sections 2 to 7, with distinct keys and within size, depth and node limits |
| `JsonCompleteness.TreeIsUnique` | scripts/council_registration.py:1614-1762 | a document has one tree of spans |
| `JsonReader.Reader.ReadValue` | scripts/council_registration.py:1635-1665 | the recursive reader, with its position and node counter, does what the specification says, failures included |
| `JsonReader.Reader.ReadItems` | scripts/council_registration.py:1744-1762 | so does its loop over array items |
| `JsonReader.Reader.ReadMembers` | scripts/council_registration.py:1704-1742 | so does its loop over members, which refuses a repeated key |
| `JsonReader.Reader.ReadDocument` | scripts/council_registration.py:1620-1629 | so does reading a whole document |
| `JsonEdit.MovedDenotes` | scripts/council_registration.py:1614-1762 | the same bytes at another offset have the same tree with its spans shifted |
| `JsonNodes.ArrayAppended` | scripts/council_registration.py:2348-2360 | inserting bytes of a value behind an array's last item gives the array with that item added |
| `JsonNodes.ArrayDeleted` | scripts/council_registration.py:2363-2370 | cutting an item with one comma gives the array without it, the rest unchanged |
| `JsonNodes.MemberAppended` | scripts/council_registration.py:2348-2360 | inserting a member behind the last one gives the object with it added |
| `JsonNodes.MemberPatched` | scripts/council_registration.py:2348-2370 | an edit inside one member's value leaves the other members, shifted behind it |
| `OpenCodePlan.InverseRestores` | scripts/council_registration.py:311-323 | the inverse patch behind the patch restores the exact bytes |
| `OpenCodeResults.EnsureParses` | scripts/council_registration.py:2348-2360 | adding the entry reparses to the old tree with exactly it added, if and only if the result keeps the size and node limits |
| `OpenCodeResults.EnsureIsExact` | scripts/council_registration.py:2391-2435 | within the limits the planned addition passes every check with the expected tree; beyond them the reparse is what refuses it |
| `OpenCodeResults.EnsureItems` | scripts/council_registration.py:2373-2388 | the entries behind an addition are the old ones, byte for byte and in order, and the plugin's |
| `OpenCodeResults.RemovalParses` | scripts/council_registration.py:2363-2370 | removing the entry always reparses to the old tree with exactly it removed |
| `OpenCodeResults.RemovalItems` | scripts/council_registration.py:2373-2388 | the entries behind a removal are the other old ones, byte for byte and in order |
| `OpenCodeResults.RemovalIsExact` | scripts/council_registration.py:2391-2435 | the planned removal passes every check with the expected tree |
| `OpenCodeResults.PlansAreSafe` | scripts/council_registration.py:2438-2505 | for every input no check on what changed can fail: a planned edit passes, or an addition is too large to be parsed; which edit is planned, `OpenCodeDecisions.PlanIs` says |
| `OpenCodeDecisions.SplitJoins` | scripts/council_registration.py:2217-2219 | the components of a path are what stands between its slashes |
| `OpenCodeDecisions.NormalizedNames` | scripts/council_registration.py:2217-2219 | normalizing a path leaves the components that a reading from the right finds, in which each double dot cancels one |
| `OpenCodeDecisions.IdentityIs` | scripts/council_registration.py:2212-2220 | the plugin's own path is exactly it, and every other text that names its file, whatever the directory, is an alias |
| `OpenCodeDecisions.PlanIs` | scripts/council_registration.py:2438-2505 | exactly when each plan is made for a configuration: an addition is planned where nothing names the plugin, a removal where its own entry is alone and recorded as owned; unchanged and refused likewise |
| `OpenCodeDecisions.OtherwiseRefused` | scripts/council_registration.py:2223-2258 | what is no configuration, in syntax or shape, is refused |
| `OpenCodeDecisions.OnlyOwnedIsRemoved` | scripts/council_registration.py:1838-1852 | no removal is ever planned unless the entry is recorded as owned |
| `OpenCodeDecisions.PassedAddition` | scripts/council_registration.py:2391-2435 | whatever the patch, a result that passes the checks of an addition is the patched bytes with the same other members, the same entries in order, the plugin's own once, and no alias |
| `OpenCodeDecisions.PassedRemoval` | scripts/council_registration.py:2391-2435 | and of a removal, with the same other members, the same entries in order but for one that was the plugin's, none left, and no alias |
| `OpenCodeResults.EnsureThenRemove` | scripts/council_registration.py:2348-2370 | adding the entry to a list and removing it restores the exact bytes |
| `OpenCodeResults.EnsureThenRemoveLeavesList` | scripts/council_registration.py:2348-2370 | without a list, adding and removing leaves the document with exactly an empty list added |
| `OpenCodeChecks.SameBytesSameKind` | scripts/council_registration.py:2212-2221 | entries of equal bytes are equally the plugin's, an alias or another's |
| `WriterLease.Lease.Look` | scripts/council_admission.py:413-421 | a thread inside an operation never finds the lease closed |
| `WriterLease.Lease.Admit` | scripts/council_admission.py:422-428 | an outermost operation enters if and only if closing has not begun |
| `WriterLease.Lease.Nest` | scripts/council_admission.py:413-436 | a nested operation always enters, also while the lease is closing |
| `WriterLease.Lease.Leave` | scripts/council_admission.py:429-436 | leaving the outermost operation, and only that, takes the thread out of the active count |
| `WriterLease.Lease.BeginClose` | scripts/council_admission.py:438-448 | a close begins unless its own thread is inside an operation |
| `WriterLease.Lease.FinishClose` | scripts/council_admission.py:449-459 | a waiting close ends exactly when nobody is inside |
| `WriterLease.Lease.Run` | scripts/council_admission.py:413-459 | for every interleaving of any threads, active is the number of threads inside, closed means none, closing stays, and nobody comes in behind it |
| `WriterLease.Lease.Drain` | scripts/council_admission.py:438-459 | from every state of a waiting close the threads inside can all leave and the close then ends: it waits for nothing else |
| `WriterLease.CallGate.BeginCall` | scripts/council_admission.py:520-548 | a call is refused if and only if closing began and its thread has no other call running |
| `WriterLease.CallGate.LookIn` | scripts/council_admission.py:413-421 | a call that was let in never finds the lease closed |
| `WriterLease.CallGate.ComeIn` | scripts/council_admission.py:422-428 | and is admitted whatever others did in between: closing the calls is never overtaken by closing the lease |
| `WriterLease.CallGate.EndCall` | scripts/council_admission.py:520-548 | the end of a call takes exactly it from the count |
| `WriterLease.CallGate.FinishClose` | scripts/council.py:1272-1291 | with an owned lease: a close ends once no call runs, and then the lease has nothing to drain |
| `WriterLease.CallGate.Run` | scripts/council.py:1272-1291 | for every interleaving of any threads, operations run in calls, the lease closes only without calls, closed means neither, and behind a closing nobody calls who did not |
| `WriterLease.CallGate.Drain` | scripts/council.py:1272-1291 | from every state of a waiting close the calls can all end and the close then ends, the lease with it |
| `Preparation.Guard.Publish` | scripts/council_lifecycle.py:1164-1185 | the record is replaced as a whole behind a replacement written beside it; stopped anywhere, it is the old one, and stopped within the replacement, that one is torn |
| `Preparation.Guard.ClaimAbsent` | scripts/council_lifecycle.py:1193-1207 | a claim is added exactly where nothing is, in a directory that is there, for a path not claimed; nothing but the record changes |
| `Preparation.Guard.BindIncomplete` | scripts/council_lifecycle.py:1209-1221 | refuses exactly a claim that is bound or has no output; otherwise records the identity of what is there |
| `Preparation.Guard.PromoteComplete` | scripts/council_lifecycle.py:1223-1233 | refuses exactly an output that is not in its planned state |
| `Preparation.Guard.WritePreparedFile` | scripts/council_lifecycle.py:1487-1508 | ends with exactly the planned file at the path, bound and complete |
| `Preparation.Guard.PrepareDirectory` | scripts/council_lifecycle.py:1979-1990 | an existing directory stays; another is claimed, made and bound |
| `Preparation.Guard.CopyTree` | scripts/council_lifecycle.py:1574-1600 | ends with the planned tree at the path, complete |
| `Preparation.Guard.RemovePrepared` | scripts/council_lifecycle.py:1070-1122 | refuses exactly an output that is not removable and then changes nothing; otherwise removes it and only what its claim covers |
| `Preparation.Guard.Cleanup` | scripts/council_lifecycle.py:1243-1256 | refuses if and only if some output is not removable; when it ends everything is as before the preparation and the record is gone; otherwise only claimed entries are gone, and what was removable is still, but for a complete tree it stopped in |
| `Preparation.Guard.Preserve` | scripts/council_lifecycle.py:1258-1263 | keeps every output: only the record goes |
| `Preparation.Guard.Reconcile` | scripts/council_lifecycle.py:1387-1461 | refuses if and only if the state is blocked; when it ends, everything is kept if the intent was published and everything prepared is gone otherwise; when it stops or refuses, the record is there and only a replacement and claimed entries are gone |
| `Preparation.Guard.Abandon` | scripts/council_lifecycle.py:1468-1484 | a failure in the process keeps the outputs when an intent is published and removes them otherwise |
| `Preparation.PendingFollows` | scripts/council_lifecycle.py:1279-1384 | a whole replacement found beside a record is always its next transition |
| `Preparation.PartsAreRemovable` | scripts/council_lifecycle.py:994-1032 | a part of a removable output is removable if and only if it is not a complete tree with a planned part missing |
| `Preparation.BlockedAfter` | scripts/council_lifecycle.py:1387-1461 | behind a reconciliation that did not end the next one is blocked if and only if that one was, or a complete tree is in pieces |
| `PreparationFiles.ClaimAdded` | scripts/council_lifecycle.py:1193-1207 | adding a claim keeps the ownership invariant and is a transition |
| `PreparationFiles.ClaimAdvanced` | scripts/council_lifecycle.py:1279-1309 | binding and promoting keep it and are transitions |
| `PreparationFiles.Apart` | scripts/council_lifecycle.py:1070-1122 | what one claim covers is never another claim's output, nor inside one that is not a plain directory |
| `PreparationFiles.BelowIsItsOwn` | scripts/council_lifecycle.py:1243-1256 | in the reverse order of the claims, what lies below a claim is only its own |
| `PreparationFiles.NothingLeft` | scripts/council_lifecycle.py:1243-1256 | without the claimed outputs the files are exactly those of the beginning |
| `PreparationFiles.MatchesIsWhole` | scripts/council_lifecycle.py:994-1032 | a tree in its planned state has everything planned below it, as planned, and nothing else |
| `PreparationRuns.PrepareAndReconcile` | scripts/council_lifecycle.py:1387-1461 | any preparation stopped before any durable write, and any number of reconciliations stopped anywhere: in the end the files of the beginning, or all outputs when the intent was published; refused if and only if the preparation left a blocked state or a complete tree is in pieces, and the former only over a torn replacement or an unsteady plan |
| `PreparationRuns.ReconcileOften` | scripts/council_lifecycle.py:1387-1461 | any number of reconciliations, stopped anywhere, refuse in the end if and only if the first state was blocked or a complete tree is in pieces |
| `PreparationRuns.StoppedWhileReplacing` | scripts/council_lifecycle.py:1164-1185 | a stop within a replacement leaves a torn one beside the record, from every state that may claim, and every reconciliation then refuses |
| `PreparationRuns.SteadinessDecides` | scripts/council_lifecycle.py:1035-1067 | every moment of creating a part of a tree leaves it removable if and only if the part is created with its planned mode |
| `PreparationRuns.StoppedInCompleteTree` | scripts/council_lifecycle.py:994-1032 | a cleanup that stops inside a complete tree leaves one that no later cleanup removes |
| `PreparationRuns.UnclaimedStays` | scripts/council_lifecycle.py:1070-1256 | a path that no claim covers during a run never changes |
| `PreparationRuns.RecordsOnlyAdvance` | scripts/council_lifecycle.py:1279-1309 | along every run the claims of a record only come and advance, with path, plan and identity fixed |
| `DeliveryRegistry.Registry.StateOf` | scripts/opencode_delivery_registry.ts:147-169 | a state is replaced exactly when it is cleared, without work in flight and past its time; otherwise it is the one there was |
| `DeliveryRegistry.Registry.Deliver` | scripts/opencode_delivery_registry.ts:187-205 | answers at once if and only if the message is delivered; otherwise joins the post in flight or starts the only one |
| `DeliveryRegistry.Registry.Settle` | scripts/opencode_delivery_registry.ts:199-204 | a successful post marks its message delivered, a failed one changes no state |
| `DeliveryRegistry.Registry.Resume` | scripts/opencode_delivery_registry.ts:206-217 | a call takes its own post out of flight and no other, and is a duplicate exactly when it had joined |
| `DeliveryRegistry.Registry.ExpireDetached` | scripts/opencode_delivery_registry.ts:171-185 | only a current cleared state gets a new time to live, with one live timer |
| `DeliveryRegistry.Registry.Clear` | scripts/opencode_delivery_registry.ts:219-227 | a cleared state without work gets its time to live now |
| `DeliveryRegistry.Registry.Retain` | scripts/opencode_delivery_registry.ts:229-238 | the state is kept for good, and the answer tells whether it is the one there was |
| `DeliveryRegistry.Registry.Discard` | scripts/opencode_delivery_registry.ts:240-245 | the identity has no state any more |
| `DeliveryRegistry.Registry.Dispose` | scripts/opencode_delivery_registry.ts:247-252 | no identity has |
| `DeliveryRegistry.Registry.Fire` | scripts/opencode_delivery_registry.ts:175-183 | a timer removes exactly a state that is still current, cleared and without work |
| `DeliveryRegistry.Run` | scripts/opencode_delivery_registry.ts:140-253 | any events in any order keep the invariant, each moment follows the one before, and a state is dropped by a discard or a disposal of it and by nothing else |
| `DeliveryRegistry.DroppedWasTaken` | scripts/opencode_delivery_registry.ts:240-252 | what is dropped was taken by a discard or a disposal among the events |
| `DeliveryRegistry.OnePostAtATime` | scripts/opencode_delivery_registry.ts:187-217 | along every run of a new registry, two running posts of one message for one identity are the same, unless a discard or a disposal among the events took the state of one of them |
| `DeliveryRegistry.DeliveredForGood` | scripts/opencode_delivery_registry.ts:195-204 | a delivered message stays delivered for its state, and no post of it runs or starts again |
| `DeliveryRegistry.BusyStatesStay` | scripts/opencode_delivery_registry.ts:147-185 | a state with work in flight at every moment of a stretch stays with its identity, unless a discard or a disposal in that stretch took it |
| `DeliveryRegistry.ClearedStatesStay` | scripts/opencode_delivery_registry.ts:147-185 | a state stays with its identity until its time to live is over, unless a discard or a disposal takes it, and a time to live only gets longer |
| `DeliveryRegistry.DeliveredUntilDue` | scripts/opencode_delivery_registry.ts:147-205 | so for as long a message that was delivered to the identity is not posted again, but for posts of a state that was taken |
| `DeliveryRegistry.RestIsQuiet` | scripts/opencode_delivery_registry.ts:206-227 | when every call has returned nothing is in flight, and every cleared state has a live timer |
| `ExtensionClient.TotalGrows` | scripts/council.py:4330-4370 | a new extension adds exactly its rounds to the total |
| `ExtensionClient.TotalOnTop` | scripts/council.py:4330-4370 | extensions on top of others add exactly their own rounds |
| `ExtensionClient.ExtensionLine.Call` | scripts/council_mcp.py:494-518 | a call reuses the pending identity for the same rounds, is refused as ambiguous for others, and takes a new identity otherwise |
| `ExtensionClient.ExtensionLine.Ask` | scripts/council.py:4275-4407 | the broker's answer is exactly the one that the applied extensions, the phase and the rounds call for, and the authorized rounds stay accounted for, also when it stops |
| `ExtensionClient.ExtensionLine.Handle` | scripts/council.py:4275-4407 | requests are handled in order; the dialogue stays or gains the request's rounds once under a new identity; the rounds it started with stay; the reply is a success exactly where the extension is applied, now or before with the same rounds; a broker that stops gives no answer |
| `ExtensionClient.ExtensionLine.Receive` | scripts/council_mcp.py:519-531 | a success means that the extension is applied with its rounds; a rejection before commit drops it, under the rejected call, only when no call up to this one applied it |
| `ExtensionClient.ExtensionLine.Elsewhere` | scripts/council.py:5081-5182 | nothing else the broker does touches the accounts: the dialogue keeps the rounds it started with, and a new one has those given to its start |
| `ExtensionClient.Run` | scripts/council_mcp.py:494-531 | any calls, losses, stops and restarts keep the invariant with the authorized rounds at every moment, nothing is taken back, a dialogue starts with the rounds given to its start, and an extension is applied only by the handling of a request for it |
| `ExtensionClient.ExtensionsCountOnce` | scripts/council.py:4275-4407 | between two moments of any run the authorized rounds grow by exactly the rounds of the extensions applied in between, each once; every acknowledged extension is applied, and none that was dropped on its latest call |
| `ExtensionClient.AuthorizedFromStart` | scripts/council.py:4275-4407 | at every moment of any run they are the rounds of the start and those of each applied extension once |
| `ExtensionClient.DroppedIsAppliedLater` | scripts/council_mcp.py:519-531 | what a client dropped is applied at a moment of the run if and only if a call later than the rejected one got it applied up to then |
| `ExtensionClient.ApplyingMoment` | scripts/council.py:4275-4407 | an applied extension was applied at one moment, by the handling of the call it is said to be applied by |
| `ExtensionClient.DroppedForGood` | scripts/opencode_delivery_registry.ts:95-99 | an extension dropped on the rejection of its latest call was never applied and never is |
| `ExtensionClient.LaterCallMayApply` | scripts/council.py:4328-4340 | an extension rejected during the proposals is accepted once they are complete |
| `ExtensionClient.OverlappingCalls` | scripts/council_mcp.py:494-531 | from a new line: a call is rejected during the proposals, the extension is called again, the proposals end, the second call is applied, and then the first rejection arrives and the client drops it |

## Left out

- `AuditLog.LogFile.Append`: the rendering of records is any faithful codec. `JsonRecords` covers renderings as objects of RFC 8259 with distinct keys, at most 64 levels and 100000 values; what the original's decoder accepts beyond that is not modelled. A torn part of more than 1 MiB is excluded here; `AuditLog.OverlongTailStays` and `Broker.AppendLine` cover it.
- `BrokerRuns.LogFileIsExact`: that the limits of envelopes and manifests keep every line of the log within 1 MiB is a condition on the codec and the entries of the run (`Broker.Fitting`); byte sizes of envelopes and manifests are not modelled.
- `Broker.CouncilBroker.Wait`: does not model the blocking wait, only the attempt each wake-up makes.
- `Broker.CouncilBroker.AttemptDelivery`: the outcome of a relay post is any of failed, posted or not tried.
- Collisions of hashed claim identities, and of the random identifiers of messages and transitions.
- `Broker.CouncilBroker.Submit`: the wording rules of a payload are one well-formedness predicate; envelope and manifest size limits are one flag.
- `OpenCodeDecisions.PlanIs`: the comparison of an ownership record with the document's path and digest is one of three results; competing documents and incomplete source inputs, which refuse any operation, are not modelled.
- `BrokerResults.DrainWaits`: the waits of one participant at one time, by a process that stops nowhere; with other operations in between, or later times, a claim may expire again or a message be delivered or superseded.
- `WriterLease.CallGate.FinishClose`: does not model a broker on a borrowed lease (`scripts/council.py:1272-1291`), which drains its own calls and leaves the lease to its owner.
- `WriterLease.Lease.Admit`: does not model process identifiers, forks and the inode check of the lock file.
- `Preparation.Guard.ClaimAbsent`: does not model the namespace check and the bound on the number of claims.
- `Preparation.Guard.CopyTree`: the source of a copy does not change while it is read; a source that does fails the copy in the original.
- `Preparation.Guard.Reconcile`: one transaction's record at a time; the renaming of the control tree at a bootstrap intent is one change of the admission.
- `ExtensionClient.ExtensionLine.Call`: a client process that ends forgets its pending identities, which is not modelled.
- `DeliveryRegistry.Registry.Deliver`: promises are posts that end at any later time, once, with success or failure.
- One dialogue is modelled; every broker operation filters its files by the dialogue.
- Registration, capabilities, runtime cohorts and route checks of participants: refusals before any durable write.
- Wake notifications, `request_extension` and the status views: no effect on the transitions.
- Quarantine of corrupt files, legacy manifests and retention settings: containment outside the protocol.
- The concession table and the public views of claims in request payloads: text.
- The recovery executor behind a published intent: `scripts/council_recover.py` is not part of this model, beyond atomic record replacement and exact state comparison.
- Sockets, daemon start, egress guard, command line, native registration and qualification records: no protocol content.
