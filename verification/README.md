# Civilization Lab: verified protocols

Civilization Lab runs a deterministic simulation and keeps every step as hash-chained, replayable evidence.
This project models the protocols around the simulation and proves what they are for. `dafny verify dfyconfig.toml`
checks everything.

| files | what they model |
|---|---|
| `CrashStop` | crash-stop execution: an operation is a plan of durable writes, a dying process leaves a prefix of it |
| `AuthorityRecords`, `AuthorityProtocol`, `AuthorityInvariant`, `AuthoritySafety`, `AuthorityRuns`, `AuthorityReceipts`, `AuthorityHazards`, `AuthorityProcesses`, `AuthorityService`, `ProductionAdapter` | the evidence authority's finalization protocol, its start-up recovery and independent verifier, and the adapter that executes against it |
| `CalibrationState`, `CalibrationLineage`, `CalibrationOutcomes`, `CalibrationHistory`, `CalibrationChecks`, `CalibrationPublication`, `CalibrationSessions`, `CalibrationNaming`, `CalibrationArchive` | the calibration archive: execution attempts, retained history, write-ahead publication, and whole runs of interrupted calls |
| `CalibrationSearch`, `CalibrationCoverage`, `ParameterAliases` | the coordinate search, what it tries, and its reconstruction from archived candidates; aliased parameters |
| `MemoryContract`, `MemoryReducer`, `MemoryEdits`, `MemoryStore` | the live memory store, the independent replay reducer and the parser |
| `Redaction`, `RedactionReach`, `EvidenceBundle`, `EvidenceChecks`, `PrivacyProtocol`, `PrivacyChecks`, `PrivacySafety`, `PrivacyHazard`, `PrivacyArchive` | the redaction closure, redacted evidence and its verification, and the archive's privacy transaction |
| `Canonical`, `CanonicalReader`, `EvidenceChain` | the canonical printer, what reads its texts back, and the evidence hash chain |
| `HalfEven`, `CalibrationMetrics`, `CalibrationCandidates`, `MetricMeanings` | rounding, metric aggregation, comparison and selection of candidates |
| `RetryTrace`, `RetryHistory`, `RevocationAnchor`, `EndpointAccounting`, `EndpointCounts`, `TurnCommit`, `TurnChecks` | the retry loop and its validator, the revocation anchor, endpoint accounting, turn commits |
| `Options`, `Permutations`, `Numbering` | shared helpers |

Each stateful protocol is given twice. A class holds the directories and the process's variables as fields, and its
methods write step by step while a fuel counter says at which durable write the process dies. Every method is proved
to have run, up to that write, the plan that a specification function computes from the state before the call
(`CrashStop.Ran`). The lemmas about plans then speak about every call, every crash point and every run.

Digests are injective constructors over what they hash, signatures are the name of the signing key, and `link` and
`rename` are atomic writes. Calls exclude one another, as the operating-system locks ensure. The result of executing
the world is an input. JSON values are texts wherever only their equality matters; `Canonical` justifies that.

## Where the code falls short of its promise

Each of these is modelled as the code has it. A lemma gives the failing input and another says exactly when the
promise holds.

- Evidence authority: `initialized` stays true when an operation fails inside a live process. If that left a staged
  record whose head is unpublished, the next finalization of another intent takes its generation and no process ever
  starts again (`AuthorityHazards.StolenByTheNextCall`, `StolenIsPermanent`). A call may skip start-up exactly when it
  does not stage a record while another is unfinished (`AuthorityProcesses.LiveSafeIff`,
  `AuthorityHazards.LiveProcessNeedsSettledStore`); it suffices that whoever serves the first call after an interrupted
  one starts up (`AuthorityProcesses.OrderlyPermitted`). In `AuthorityRuns` an interruption is the death of the process.
- Publication: `_publish` does not check artifact paths but recovery does, and a colliding artifact is noticed only
  after the journal is written, so a crash locks the archive for good (`CalibrationPublication.RecoverableIff`).
  Evidence paths come from the attempt ids callers give: an id that is no file name, or one shared by two keys, is
  recorded and later bricks the archive (`CalibrationNaming.UnsafeIdBricks`, `SharedIdBricks`). `SafeNamingIff` is the
  exact condition; the runner's own naming meets it (`RunnerNamesSafely`).
- Retained history: a list with two different entries of one identity does not retain itself
  (`CalibrationHistory.KeepsItself`).
- Retry trace: the completion stamp is read after the deadline check, so a success can be stamped at the deadline and
  the validator rejects the trace (`RetryTrace.LateStampRejected`, `TraceAcceptedIff`).
- Acceptance margin: a non-negative minimum margin does not imply acceptance, because a small shortfall rounds to
  zero (`CalibrationCandidates.ZeroMarginRejected`, `AcceptedMargin`).
- Memory: the store commits operations of an empty identity, which the reducer refuses
  (`MemoryReducer.AnonymousCorrupt`).
- Evidence: `append` does not look at causes and references; `EvidenceChain.AppendVerifies` says exactly when the
  store still verifies.
- Redaction: the journal is written before the redacted object is verified. Verifying it takes any payload whose own
  `redacted` field counts as true for a redacted one, whereas publishing looks only for the value true. Evidence with an
  event payload such as {"redacted": 1} is therefore published, and the first redaction that leaves this event in place
  blocks the archive (`PrivacyHazard.SmallEvidenceBlocks`, `FlaggedBlocks`, `JournalFinishesIff`).

## Model

| member | source | states |
|---|---|---|
| `AuthorityInvariant.ChainKeys` | src/calibration-evidence-authority-service.js:190-206 | a head chain without gaps of n heads has exactly the generation numbers below n |
| `AuthorityInvariant.WriteKeepsInv` | src/calibration-evidence-authority-service.js:249-267 | each durable write the protocol makes keeps the store invariant (gap-free parent chain, at most one unfinished staged record, at the next or the last generation) and only adds records |
| `AuthorityInvariant.CrashKeepsInv` | src/calibration-evidence-authority-service.js:249-267 | so does every prefix of a run's writes: a crash between any two of them leaves the invariant |
| `AuthoritySafety.CompleteSafe` | src/calibration-evidence-authority-service.js:249-267 | completing a staged record from wherever a crash left it always succeeds, records exactly its finalization and moves the anchor to the head |
| `AuthoritySafety.CompleteAllSafe` | src/calibration-evidence-authority-service.js:275-281 | start-up finalizes every staged record it lists, changing no staged record, claim or intent |
| `AuthoritySafety.PublishedHeadVerified` | src/calibration-evidence-authority-service.js:490-530 | every check of the independent verifier holds of the record under every published head |
| `AuthoritySafety.HeadsMatchFinalizations` | src/calibration-evidence-authority-service.js:532-533 | with nothing unfinished, heads and finalizations correspond one to one |
| `AuthoritySafety.SettledVerifies` | src/calibration-evidence-authority-service.js:480-558 | the independent verifier accepts every such store |
| `AuthoritySafety.InitSafe` | src/calibration-evidence-authority-service.js:269-287 | start-up succeeds on every store a crash can leave and ends verified, settled and anchored at the head |
| `AuthorityRuns.CommitSafe` | src/calibration-evidence-authority-service.js:396-448 | from no claim or an interrupted one the commit goes through exactly when the claim, if any, is this input's, and then records this input's result |
| `AuthorityRuns.FinalizeSafe` | src/calibration-evidence-authority-service.js:387-450 | from a settled store a finalization succeeds exactly for an authorized, valid input of an unclaimed or identically claimed intent, and its result is then on record |
| `AuthorityRuns.ObserveSafe` | src/calibration-evidence-authority-service.js:333-373 | an observation never reports a pending finalization, and otherwise reports what the store then holds |
| `AuthorityRuns.OperationSafe` | src/calibration-evidence-authority-service.js:315-450 | every operation answers only what the store afterwards records: a put leaves exactly its record on file, a get or observation answers the stored record or result, and nothing only where nothing is stored |
| `AuthorityRuns.ServeSafe` | src/calibration-evidence-authority-service.js:289-313 | a call, survived or not, keeps the invariant, only adds records, moves the anchor forward, and its answer is attested by the store and up to date with it |
| `AuthorityRuns.RunSafe` | src/calibration-evidence-authority-service.js:289-313 | over any run of calls and crashes the invariant holds at every point and records are only added |
| `AuthorityRuns.ExactlyOnce` | src/calibration-evidence-authority-service.js:387-450 | all results handed out for one intent in a run, whatever crashed or was retried, are the same result |
| `AuthorityRuns.ClaimBinds` | src/calibration-evidence-authority-service.js:409-416 | once a claim is written no finalization of a different input succeeds |
| `AuthorityRuns.AnchorMonotone` | src/calibration-evidence-authority-service.js:233-247 | the anchored head is on the chain and its generation never decreases over a run |
| `AuthorityReceipts.ChecksDetermine` | src/archive-trust.js:25-32 | the archive's check of a result and the client's check of its receipts together admit at most one result for an input |
| `AuthorityReceipts.RecordTrusted` | src/calibration-evidence-authority-service.js:409-441 | every finalization on record came from one well-formed input its claim binds by digest, and its result passes both checks: object digest, event count, last event, run, keys, and the head receipt over this archive |
| `AuthorityReceipts.AnswerTrusted` | src/archive-trust.js:25-32 | so does every result any call hands out |
| `AuthorityReceipts.FinalizeTrusted` | src/calibration-evidence-authority-service.js:387-450 | from a settled store a finalization succeeds exactly for authorized, well-formed inputs whose intent is not bound to another input or request; the receipt passes both checks and is on record, and the intent is stored with what the input says |
| `AuthorityReceipts.VerifierEstablishes` | src/calibration-evidence-authority-service.js:480-558 | what the independent verifier's acceptance means on any store: every head follows its predecessor, names a finalization on record whose claim, object, archive and receipts agree with it, and there is nothing besides |
| `AuthorityReceipts.IntentWritten` | src/calibration-evidence-authority-service.js:16 | which texts are accepted as intents |
| `AuthorityHazards.InitChecksAnchor` | src/calibration-evidence-authority-service.js:233-287 | on any store whatever, start-up succeeds only if the chain it ends with contains the anchored head |
| `AuthorityHazards.LiveProcessNeedsSettledStore` | src/calibration-evidence-authority-service.js:307 | a process that skips start-up keeps the invariant when it finalizes an acceptable intent that is not staged yet, whatever intent, claim or object is stored for it, if and only if nothing was unfinished |
| `AuthorityHazards.StolenByTheNextCall` | src/calibration-evidence-authority-service.js:307 | the failing input: a finalization stopped after staging, then another intent finalized by a process already initialized |
| `AuthorityHazards.StolenIsPermanent` | src/calibration-evidence-authority-service.js:249-287 | after that no process ever starts again |
| `AuthorityHazards.StagedUnpublished` | src/calibration-evidence-authority-service.js:443-447 | a finalization stopped after its fourth write has staged its record and published nothing |
| `AuthorityProcesses.StagedRetry` | src/calibration-evidence-authority-service.js:387-450 | a live retry of the unfinished finalization itself always keeps the invariant; it succeeds if and only if the staged head is unpublished, and is otherwise refused with heads, staging and finalizations unchanged |
| `AuthorityProcesses.LiveSafe` | src/calibration-evidence-authority-service.js:289-313 | every other call by a process that skips start-up is safe and answers what is on record, whatever is unfinished |
| `AuthorityProcesses.LiveSafeIff` | src/calibration-evidence-authority-service.js:289-313 | a call without start-up keeps the invariant if and only if it does not stage a record while another one is unfinished |
| `AuthorityProcesses.TurnsSafe` | src/calibration-evidence-authority-service.js:289-313 | any number of processes taking turns, their calls cut short anywhere and they themselves dying or surviving: unless a live one overtakes an unfinished record, the invariant holds throughout and records are only added |
| `AuthorityProcesses.TurnsExactlyOnce` | src/calibration-evidence-authority-service.js:387-450 | all results these processes hand out for one intent are the same result |
| `AuthorityProcesses.OrderlyPermitted` | src/calibration-evidence-authority-service.js:289-313 | a rule that never overtakes: whoever serves the first call after one that was cut short starts up |
| `AuthorityService.EvidenceAuthority.constructor` | src/calibration-evidence-authority-service.js:169-189 | a provisioned, empty authority satisfies the invariant |
| `AuthorityService.EvidenceAuthority.LatestHead` | src/calibration-evidence-authority-service.js:190-206 | the loop over head files computes the head of the chain, refusing gaps, forks and foreign keys |
| `AuthorityService.EvidenceAuthority.ReconcileAnchor` | src/calibration-evidence-authority-service.js:233-247 | writes the anchor only forward on the chain, and refuses a chain without the anchored head |
| `AuthorityService.EvidenceAuthority.CompletePending` | src/calibration-evidence-authority-service.js:249-267 | head, then finalization, then anchor, dying after any of them |
| `AuthorityService.EvidenceAuthority.CompleteAll` | src/calibration-evidence-authority-service.js:275-281 | the loop over staged records performs the planned completions in order |
| `AuthorityService.EvidenceAuthority.VerifyAuthority` | src/calibration-evidence-authority-service.js:480-558 | the loop of the independent verifier accepts exactly the stores its conditions describe |
| `AuthorityService.EvidenceAuthority.Initialize` | src/calibration-evidence-authority-service.js:269-287 | start-up performs exactly its planned writes and reply |
| `AuthorityService.EvidenceAuthority.GetIntent` | src/calibration-evidence-authority-service.js:315-331 | answers the finalized result, else the stored record, else nothing |
| `AuthorityService.EvidenceAuthority.PutIntent` | src/calibration-evidence-authority-service.js:375-385 | stores an intent once; a different record is refused |
| `AuthorityService.EvidenceAuthority.ObserveIntent` | src/calibration-evidence-authority-service.js:333-373 | completes what is staged for the intent, then reports |
| `AuthorityService.EvidenceAuthority.Finalize` | src/calibration-evidence-authority-service.js:387-450 | on an initialized, settled authority: exactly which inputs succeed; the receipt passes the archive's and the client's checks and is on record with the intent stored as the input says; and up to the write at which the process dies exactly the planned writes are made |
| `AuthorityService.EvidenceAuthority.Serve` | src/calibration-evidence-authority-service.js:289-313 | a serialized call, start-up first if needed: a sound authority stays sound at every death point, only adds records, and its answer is what it then has on record; a result it hands out passes the archive's check, a receipt also the client's |
| `ProductionAdapter.ExecuteAttested` | src/calibration-production-adapter.js:135-269 | a successful execution or recovery returns the result the authority has on record for its intent, bound to the digest of this request |
| `ProductionAdapter.ExecutionTold` | src/calibration-production-adapter.js:135-269 | what an execution answers, case by case, from what the authority has on record: the recorded result of this very request, or the finalization of the freshly produced evidence, or a refusal |
| `ProductionAdapter.AdapterExactlyOnce` | src/calibration-production-adapter.js:135-269 | executions and recoveries of one intent, by any adapters among any other calls and crashes, all return the same result |
| `ProductionAdapter.ReceiptsTrusted` | src/calibration-evidence-authority-client.js:158-188 | the checks of the authority's client accept every receipt a finalization of its input answers with |
| `MemoryReducer.CompressionInPlace` | src/memory.js:106-112 | a compression puts its record at the position of the first one it replaces and keeps the survivors' order |
| `MemoryEdits.EditMeans` | src/memory.js:102-113 | an edit is carried out exactly when the records it names are there; remembering appends one record of the issued id, an edit or revision changes the text of the named record alone, forgetting takes away that record alone, compressing replaces the named ones in place, clearing leaves none |
| `MemoryEdits.AcceptedMeans` | src/memory.js:68-125 | an operation the reducer accepts, whoever wrote it, did to the records what its request means, under the kind of that request, the issued id and the exact byte counts |
| `MemoryEdits.CompletionConsumedOnce` | src/memory.js:44-58 | an accepted edit made at an invocation carries out what that invocation's last completion asked for, and no other edit came between |
| `MemoryEdits.UsedBytes` | src/memory.js:65 | a memory takes the bytes of its texts and one separator between each two |
| `MemoryEdits.WidthEncodes` | src/memory.js:65 | a character counts as many bytes as its UTF-8 encoding has |
| `MemoryReducer.DraftMatchesEdit` | src/memory.js:24-42 | the parser's own editing yields the texts of the reducer's editing, for every request |
| `MemoryReducer.ParserAgrees` | src/memory.js:24-42 | the parser accepts a request exactly when the reducer's edit exists and its text fits the capacity |
| `MemoryReducer.EditKeepsIds` | src/memory.js:103-113 | edits keep record identifiers distinct and issued by the store's own counter |
| `MemoryReducer.ReplayKeepsOk` | src/memory.js:68-125 | every replayed operation keeps: used bytes within capacity, distinct identifiers, owner among the sessions, no session twice |
| `MemoryReducer.RebuiltOk` | src/memory.js:127-132 | so does the memory rebuilt from any evidence |
| `MemoryReducer.SessionsOnlyGrow` | src/memory.js:115-120 | sessions are only ever appended and one owned before never returns as a new one |
| `MemoryReducer.RebuildStable` | src/memory.js:127-132 | later evidence does not change what earlier events rebuild to |
| `MemoryReducer.AnonymousCorrupt` | src/memory.js:74 | one operation of an empty identity makes its memory unreadable, and nothing else about the identity does |
| `MemoryStores.CommitReplays` | src/memory.js:184-207 | an operation as the store commits it is one the reducer replays, to the state the store moves to |
| `MemoryStores.CommitRebuilds` | src/memory.js:184-207 | after a commit the rebuilt memory is the store's new state |
| `MemoryStores.MemoryStore.constructor` | src/memory.js:142-153 | a store opened on evidence holds what the reducer rebuilds from it |
| `MemoryStores.MemoryStore.Archive` | src/memory.js:184-207 | exactly when a commit happens; it appends one event, and the rebuilt memory then equals the store's fields |
| `MemoryStores.MemoryStore.Apply` | src/memory.js:215-247 | exactly when an edit is applied; its records are then what the request means in terms of the old ones, and the reducer agrees |
| `MemoryStores.MemoryStore.ReadMemory` | src/memory.js:249-257 | a read changes no record and is replayable |
| `MemoryStores.MemoryStore.RecoverSession` | src/memory.js:259-269 | ownership moves to a session never used before; the records stay |
| `MemoryStores.MemoryStore.RestoreCanonical` | src/memory.js:160-166 | the store's fields become those the reducer rebuilds, unless ownership or capacity changed |
| `CalibrationLineage.OperationKeepsLineage` | src/calibration-runner.js:1571-1757 | every recordExecutionIntent, beginExecutionAttempt, recordExecutionAttemptFailure and recordEvidence keeps the lineage invariant |
| `CalibrationOutcomes.FailurePublishes` | src/calibration-runner.js:1684-1713 | a failure is published exactly for a running attempt; the attempt ends terminal and the search failed unless the infrastructure failed, retryable if it failed before dispatch, quarantined if later, the status kept in these two; the failure record tells the attempt's story and nothing else changes |
| `CalibrationOutcomes.AfterFailure` | src/calibration-runner.js:1641-1713 | after a failure that was not the infrastructure's no attempt of the key ever begins again, whatever operations follow; after one that was, the recorded intent begins a successor that names the failed attempt |
| `CalibrationOutcomes.TerminalForever` | src/calibration-runner.js:1656 | a terminal attempt refuses every later begin of its key over any run of operations |
| `CalibrationOutcomes.BeginOpens` | src/calibration-runner.js:1641-1682 | an attempt begins exactly under its recorded intent when all earlier attempts of the key may be retried, numbered next, chained to the last one, with the right transitions; a running one is handed out again |
| `CalibrationOutcomes.ActiveKept` | src/calibration-runner.js:1651-1655 | an attempt that has begun and not ended is handed out again |
| `CalibrationOutcomes.IntentRecorded` | src/calibration-runner.js:1571-1587 | one intent per key while the search is open; the same one again changes nothing |
| `CalibrationOutcomes.EvidenceRecorded` | src/calibration-runner.js:1715-1757 | evidence is recorded once per key, for its running attempt under its recorded id, with exactly one new execution, artifact and transition |
| `CalibrationChecks.RetainedMeans` | src/calibration-runner.js:1181-1222 | the retained-history check means that nothing signed is lost: every entry unchanged under its identity, attempts and intents only gone on |
| `CalibrationChecks.RecoverChecked` | src/calibration-runner.js:1460-1485 | on any disk, recovery writes nothing unless the newest journal may stand at its place and is not pointed at yet, and then writes what it holds in order |
| `CalibrationChecks.LoadChecked` | src/calibration-runner.js:1263-1317 | on any disk, what loads is the last of gap-free linked generations, each losing nothing of the one before, and it is the one recorded as current |
| `CalibrationChecks.OpenChecked` | src/calibration-runner.js:1337-1459 | on any disk, what opens is in order (one success per execution, one open attempt per key, failure records telling their attempt) and has neither a missing nor an orphaned artifact |
| `CalibrationHistory.OpensAfterwards` | src/calibration-runner.js:1337-1378 | that invariant, which the operations do not look at, implies every lineage condition opening checks: one active attempt and one success per key, success exactly with an execution, failure exactly with a record |
| `CalibrationHistory.KeepsItself` | src/calibration-runner.js:1187-1191 | a retained list retains itself if and only if no two different entries share an identity |
| `CalibrationHistory.RetainedTransitive` | src/calibration-runner.js:1181-1222 | retained history is transitive |
| `CalibrationHistory.OperationRetains` | src/calibration-runner.js:1181-1222 | what each operation publishes retains all history before it |
| `CalibrationHistory.RunRetains` | src/calibration-runner.js:1181-1222 | over a run of operations every generation retains every earlier one |
| `CalibrationPublication.RecoverCompletes` | src/calibration-runner.js:1460-1485 | recovery of a publication interrupted anywhere succeeds, completes it, and may itself be interrupted and repeated |
| `CalibrationPublication.PublishAtomic` | src/calibration-runner.js:1486-1517 | a publication interrupted after k writes followed by recovery gives the old archive for k = 0 and the whole new one otherwise |
| `CalibrationPublication.WritingStops` | src/calibration-runner.js:1138-1152 | a list of immutable writes goes through exactly when no artifact differs from what is there or from another of the same path (and, where that is checked, all paths are safe) |
| `CalibrationPublication.PublishSucceeds` | src/calibration-runner.js:1486-1517 | publishing succeeds exactly when no artifact collides; paths are not looked at |
| `CalibrationPublication.RecoverableIff` | src/calibration-runner.js:1460-1485 | a publication interrupted after its journal can be recovered if and only if its artifacts neither collide nor have unsafe paths |
| `CalibrationPublication.StuckIsPermanent` | src/calibration-runner.js:1460-1485 | otherwise every later load is refused and nothing it writes helps |
| `CalibrationSessions.GoodOpens` | src/calibration-runner.js:1297-1459 | an archive reached by any interrupted calls loads and passes every check of opening it |
| `CalibrationSessions.OperationPublishable` | src/calibration-runner.js:1684-1757 | if the attempt ids on record are safe file names and distinct, every operation publishes at safe paths that are free, and keeps the artifact index exact |
| `CalibrationSessions.FreshEvidence` | src/calibration-runner.js:1741-1756 | under such ids, evidence of a key without an execution has no file yet |
| `CalibrationSessions.PublishedSound` | src/calibration-runner.js:1486-1517 | what an operation publishes from a sound archive is sound and retains the published state |
| `CalibrationSessions.PerformSafe` | src/calibration-runner.js:1571-1757 | under such ids, a call that dies after any number of writes leaves a good archive whose completed state is the old one or the operation's; exactly when it succeeds |
| `CalibrationSessions.RunSafe` | src/calibration-runner.js:1243-1757 | over any run of calls by any processes dying anywhere, if the ids on record and those the calls ask for are safe and distinct for distinct keys: the archive opens, loses no generation, and its state retains the first one's history |
| `CalibrationNaming.UnsafeIdBricks` | src/calibration-runner.js:1479-1481 | record, begin and evidence under an id that is no safe file name, dying after the last journal: no process can open the archive again |
| `CalibrationNaming.SharedIdBricks` | src/calibration-runner.js:1741-1756 | so do two keys recorded under one id whose evidence differs |
| `CalibrationNaming.SafeNamingIff` | src/calibration-runner.js:1571-1587 | a way of naming attempts keeps the archive good over every run and every interruption if and only if every id is a safe file name and no two keys share one |
| `CalibrationNaming.SafeNameAdmitted` | src/calibration-runner.js:1480 | recovery's path pattern admits the evidence path of an id exactly when the id is a safe file name |
| `CalibrationNaming.RunnerNamesSafely` | src/calibration-runner.js:2530 | the runner's own naming, an identifier derived from the key, does |
| `CalibrationArchives.CalibrationArchive.constructor` | src/calibration-runner.js:1518-1541 | an initialized archive is good, holds this campaign's one untouched generation, and points at it |
| `CalibrationArchives.CalibrationArchive.Install` | src/calibration-runner.js:1479-1484 | artifacts in order, generation, pointer, up to the write that is refused or at which the process dies |
| `CalibrationArchives.CalibrationArchive.RecoverTransaction` | src/calibration-runner.js:1460-1485 | performs exactly the recovery plan |
| `CalibrationArchives.CalibrationArchive.History` | src/calibration-runner.js:1263-1295 | the loop accepts exactly gap-free, linked generations that each retain their predecessor's history |
| `CalibrationArchives.CalibrationArchive.LoadLocked` | src/calibration-runner.js:1297-1317 | recovers, checks history and pointer, and takes the latest state and head into memory |
| `CalibrationArchives.CalibrationArchive.Publish` | src/calibration-runner.js:1486-1517 | journal first, then what it lists; memory moves only on success |
| `CalibrationArchives.CalibrationArchive.Open` | src/calibration-runner.js:1542-1548 | opening performs exactly load, lineage check and artifact index check |
| `CalibrationArchives.CalibrationArchive.RecordExecutionIntent` | src/calibration-runner.js:1571-1587 | one intent per key, refused if it differs from the one recorded, as planned against the head its process holds: a good archive stays good however the call ends, and success means the operation's state is the one published |
| `CalibrationArchives.CalibrationArchive.BeginExecutionAttempt` | src/calibration-runner.js:1641-1682 | the next attempt of a recorded, unexecuted key, as planned against the head its process holds: a good archive stays good however the call ends, and success means the operation's state is the one published |
| `CalibrationArchives.CalibrationArchive.RecordExecutionAttemptFailure` | src/calibration-runner.js:1684-1713 | the failure record of the running attempt, as planned against the head its process holds: a good archive stays good however the call ends, and success means the operation's state is the one published |
| `CalibrationArchives.CalibrationArchive.RecordEvidence` | src/calibration-runner.js:1715-1757 | the evidence of the running attempt, as planned against the head its process holds: a good archive stays good however the call ends, and success means the operation's state is the one published |
| `CalibrationArchives.PerformedSafe` | src/calibration-runner.js:1571-1757 | whatever such a call did before it returned or died, the archive stays good |
| `CalibrationSearch.Run` | src/calibration-runner.js:2507-2726 | the runner's loop from a resumed cursor archives exactly what the small-step search from there archives |
| `CalibrationSearch.Reconstruct` | src/calibration-runner.js:2180-2210 | the reconstruction loop computes the replay of the records against the enumeration |
| `CalibrationCoverage.BaselineFirst` | src/calibration-runner.js:2507-2530 | with a positive round and candidate bound the first record is the first operation, the baseline, on the starting vector |
| `CalibrationCoverage.WholeCovers` | src/calibration-runner.js:2507-2726 | every record stands at its operation's place, in round and list order, without the baseline after the first round, made from the incumbent of its time; unless the bound cuts the search every operation of every completed round was recorded or led to a vector archived already, and a round follows another exactly when that improved and nothing was accepted |
| `CalibrationSearch.ResumeEquivalence` | src/calibration-runner.js:2180-2210 | reconstruction accepts exactly the prefixes of the uninterrupted search, says whether it is over, and resuming from it archives exactly the rest |
| `CalibrationSearch.InterruptionsHarmless` | src/calibration-runner.js:2473-2482 | however often the search dies and resumes, what is archived is a prefix of the uninterrupted search, of exactly the length the deaths allow, and one more run completes it |
| `CalibrationSearch.WholeOrdered` | src/calibration-runner.js:2519-2529 | no vector is evaluated twice, the bound is kept, candidates are numbered in order, and the search ends with the best of its records as incumbent |
| `CalibrationSearch.NothingBeyondBound` | src/calibration-runner.js:2519-2526 | the loop and the reconstruction test bound and repetition in different orders; it does not matter |
| `CalibrationSearch.IncumbentsImprove` | src/calibration-runner.js:2159-2176 | every incumbent beats every earlier one, and a metric once without violation stays so |
| `CalibrationSearch.SearchImproves` | src/calibration-runner.js:2159-2176 | as the search runs, each later incumbent is the earlier one or beats it, and a metric once without violation stays so |
| `HalfEven.OnlyNearest` | src/calibration-metrics.js:31-40 | the quotient is the one nearest integer, ties going to the even one |
| `HalfEven.OddAndMonotone` | src/calibration-metrics.js:31-40 | rounding is odd and monotone in the rational it rounds |
| `HalfEven.RatioSign` | src/calibration-metrics.js:42-48 | rounding never moves a ratio across zero, and reaches zero exactly within half a unit of it |
| `HalfEven.PooledBetween` | src/calibration.js:200-213 | a pooled rate lies between the least and the greatest of the rates it pools, rounding included |
| `CalibrationMetrics.AggregateUnordered` | src/calibration.js:169-229 | aggregation does not depend on the order of the seed panel |
| `CalibrationMetrics.AggregateBetween` | src/calibration.js:169-229 | pooled rate, maximum, median and mean all lie between the least and the greatest contribution |
| `MetricMeanings.PooledMeans` | src/calibration.js:169-229 | a pooled rate is the nearest representable ratio of the summed numerators and denominators of the runs that observed the metric |
| `MetricMeanings.ReducedMeans` | src/calibration.js:169-229 | the other reducers yield the greatest, the median or the rounded mean of what the runs contribute |
| `MetricMeanings.PassingCounts` | src/calibration-runner.js:1052-1062 | a seed's pass count is the number of metrics it observed inside their bounds |
| `MetricMeanings.ColumnMeans` | src/calibration-runner.js:1063-1077 | what the variance is taken of: each run's value in millionths of the metric's scale, zero when not observed |
| `MetricMeanings.TotalIsPairwise` | src/calibration-runner.js:1063-1077 | the variance numerator is the sum over metrics of the squared differences of all pairs of runs |
| `CalibrationMetrics.SpreadGrows` | src/calibration-runner.js:1063-1077 | n times the sum of squares less the squared sum is a sum of squared differences, so never negative |
| `CalibrationMetrics.PanelDiagnostics` | src/calibration-runner.js:1048-1078 | the loops compute the worst seed's pass count and the cross-seed variance, which is never negative |
| `CalibrationMetrics.WorstSeed` | src/calibration-runner.js:1052-1062 | the least number of metrics any seed passes |
| `CalibrationCandidates.ViolationZero` | src/calibration-runner.js:2159-2167 | a violation is never negative and is zero exactly when the value is within half a millionth of its bound's width |
| `MetricMeanings.ViolationMeans` | src/calibration-runner.js:2159-2167 | a violation is the distance from the missed bound over that bound's width, rounded half to even; one for a missing value |
| `MetricMeanings.MarginsMean` | src/calibration.js:232-265 | a value has one margin per bound, its distance inside it over the bound's width; a missing one minus one |
| `MetricMeanings.AheadMeans` | src/calibration.js:275-283 | the order of selection: wider margin, then more passes, less variance, fewer changes, lower hash |
| `CalibrationCandidates.BetterCandidate` | src/calibration-runner.js:2169-2176 | the loop decides the order on violation vectors |
| `CalibrationCandidates.BetterIsStrictOrder` | src/calibration-runner.js:2169-2176 | that order is irreflexive, asymmetric and transitive |
| `CalibrationCandidates.Assess` | src/calibration.js:232-273 | the loop collects exactly the failed bounds and the least margin; acceptance is no failure |
| `CalibrationCandidates.AcceptedMargin` | src/calibration.js:238-273 | acceptance is every value inside its bounds and forces a non-negative margin; the margin is non-negative if and only if every value is inside up to half a unit of rounding |
| `CalibrationCandidates.ZeroMarginRejected` | src/calibration.js:256-259 | a rejected candidate with margin zero and violation zero |
| `CalibrationCandidates.SelectionUnique` | src/calibration.js:275-283 | the selected candidate is ahead of every other accepted one and the same for every input order |
| `ParameterAliases.ApplyOperation` | src/calibration-runner.js:2043-2066 | every operation re-establishes all alias equations, keeps the value it set, and touches nothing outside its group |
| `ParameterAliases.SynchronizationDetermined` | src/calibration-runner.js:2043-2066 | those three conditions determine the result |
| `ParameterAliases.Search` | src/calibration-runner.js:2138-2152 | every vector reachable from an aliased start satisfies the equations parameter sets are validated against |
| `Redaction.SweepEdges` | src/forensics.js:268-271 | a sweep along provenance edges, references found on the way included, adds only what is necessary and fails exactly at an edge to a tombstone |
| `Redaction.SweepContents` | src/forensics.js:272-288 | a sweep over contents adds only what is necessary, and nothing exactly at the fixpoint |
| `Redaction.Close` | src/forensics.js:265-290 | the sweeps terminate in the least sufficient set when some sufficient set spares the tombstones, and fail otherwise |
| `Redaction.LeastUnique` | src/forensics.js:265-290 | that set is unique, so no iteration order matters |
| `Redaction.ClosureIsLeast` | src/forensics.js:265-290 | the closure, defined independently as the intersection of all sufficient sets, is the least one |
| `Redaction.Targeted` | src/forensics.js:235-260 | the tombstone loop collects seeds and protected content in order, refusing dangling derivations, digest mismatches and absent fields |
| `Redaction.Redact` | src/forensics.js:185-316 | exactly when redaction succeeds; it then removes the least sufficient set and no tombstone |
| `RedactionReach.ReasonsFollowed` | src/forensics.js:265-290 | whatever is named, derived by a link from something removed, repeats protected content or mentions something removed is itself removed |
| `RedactionReach.RemovedForAReason` | src/forensics.js:265-290 | everything removed is removed for one of these reasons, given the rest of what is removed |
| `RedactionReach.NothingProtectedLeft` | src/forensics.js:290-316 | what is left is every payload not removed; none holds protected bytes, and none but a tombstone a protected text, field or removed reference |
| `RedactionReach.TombstonesFit` | src/forensics.js:235-260 | every tombstone of a redaction that succeeds names an artifact that was there as it says, or removed before, and repeats no protected text itself |
| `Redaction.RetainedClean` | src/forensics.js:310-313 | the final scan cannot fail on a retained payload that is no tombstone |
| `Redaction.RedactAgain` | src/forensics.js:185-316 | redacting the result again under the same tombstones, whatever links it then declares, removes nothing more |
| `EvidenceBundles.RedactEvidence` | src/forensics.js:185-316 | the redaction of hash-chained evidence: markers in place of the removed payloads, everything else and every digest kept |
| `EvidenceChecks.RedactionLeaves` | src/forensics.js:185-316 | what a redaction leaves: the tombstone's event recorded next in the chain, every event at its place with only its payload replaced by a marker where it was removed, exactly the payloads not removed, and every tombstone named |
| `EvidenceChecks.ViewShown` | src/forensics.js:185-260 | what the redaction is computed from: every payload under its digest, every tombstone in order, incident reports, earlier removals and declared links |
| `EvidenceChecks.IntactMeans` | src/replay.js:20-41 | which evidence passes as intact: without tombstones only if it loads and nothing in it says it was redacted |
| `EvidenceChecks.BundleMeans` | src/archive.js:29-57 | which bundles verify: every payload under its own digest, and intact if complete, or redacted in order if not |
| `EvidenceChecks.RedactedMeans` | src/archive.js:36-57 | which redacted evidence verifies: a chain of this run in which every event is kept under its digest and payload or is among those removed with its original digest, and the tombstones it names are there |
| `EvidenceBundles.RedactionVerifies` | src/archive.js:31-57 | redacting evidence that verified, complete or redacted before, gives evidence that verifies if and only if every event that counts as redacted is among those removed; always so for evidence redacted before or without such events |
| `PrivacySafety.FinishSafe` | src/archive.js:305-325 | a journalled privacy transaction is completed by whatever comes next, in any listing order and through any further crashes, and ends with the redacted object alone |
| `PrivacySafety.PublishSafe` | src/archive.js:221-265 | publication is atomic and a published complete generation extends its predecessor's events and payloads |
| `PrivacySafety.PrepareSafe` | src/archive.js:271-299 | a redaction changes nothing but an unadvertised object until its journal is written, and what it journals then verifies |
| `PrivacySafety.RedactSafe` | src/archive.js:271-303 | where no published event counts as redacted, a redaction dying anywhere leaves a good archive; one that replies has left only the redacted object |
| `PrivacySafety.OperationSafe` | src/archive.js:192-303 | every operation, dying after any write, keeps the archive good and its manifest chain intact, if what it publishes holds no event that counts as redacted |
| `PrivacyChecks.HeadChecked` | src/archive.js:192-198 | on any disk, a head is handed out exactly over a linked gap-free history that holds the trusted head, and is its last manifest |
| `PrivacyChecks.LoadChecked` | src/archive.js:199-208 | on any disk, evidence is handed out exactly when the last manifest of such a history describes it |
| `PrivacyChecks.PublishChecked` | src/archive.js:221-266 | on any disk, exactly when a publication goes through; it adds the object and the one manifest that seals it |
| `PrivacyChecks.PrepareChecked` | src/archive.js:271-299 | on any disk, exactly when a redaction is prepared; it adds the redacted object alone and journals the manifest that seals it |
| `PrivacyChecks.FinishChecked` | src/archive.js:305-325 | on any disk, a journalled manifest is carried out exactly if it is next, or last already, after the predecessor it names, and describes its object; then it is in place, every other listed object is unlinked and the journal cleared last |
| `PrivacySafety.RunSafe` | src/archive.js:192-303 | over any run of such calls by any processes no manifest is lost or changed |
| `PrivacySafety.NeverUnredacted` | src/archive.js:234-240 | no complete generation follows a redacted one, and complete generations extend all earlier ones |
| `PrivacyHazard.JournalFinishesIff` | src/archive.js:290-313 | a journalled redaction can be carried out if and only if every event of the evidence that counts as redacted is among those it takes away; otherwise every later operation is refused and writes nothing |
| `PrivacyHazard.FlaggedBlocks` | src/archive.js:41 | from the empty archive, publishing evidence with such an event and redacting something else blocks the archive for good |
| `PrivacyHazard.SmallEvidenceBlocks` | src/replay.js:20-35 | the failing input: one event with payload {"redacted": 1} |
| `PrivacyArchive.SignedArchive.constructor` | src/archive.js:112-125 | an empty archive is good |
| `PrivacyArchive.SignedArchive.History` | src/archive.js:167-183 | the loop accepts exactly linked gap-free manifests containing the trusted head, and moves the trusted head to the last one |
| `PrivacyArchive.SignedArchive.Purge` | src/archive.js:316-321 | every listed object but the redacted one is unlinked, up to the process's death |
| `PrivacyArchive.SignedArchive.FinishPrivacy` | src/archive.js:305-325 | performs exactly the finishing plan |
| `PrivacyArchive.SignedArchive.CurrentHead` | src/archive.js:192-198 | the latest manifest, after finishing what was pending: a good archive stays good at every death point and no manifest is lost or changed |
| `PrivacyArchive.SignedArchive.LoadLatest` | src/archive.js:199-208 | the latest object, verified, after finishing what was pending: a good archive stays good at every death point and no manifest is lost or changed |
| `PrivacyArchive.SignedArchive.PublishBundle` | src/archive.js:221-266 | object, then manifest, after finishing what was pending: unless an event of the content counts as redacted, a good archive stays good at every death point and no manifest is lost or changed |
| `PrivacyArchive.SignedArchive.Prepare` | src/archive.js:271-299 | redacts the latest evidence, writes the object and then the journal, exactly as planned |
| `PrivacyArchive.SignedArchive.RedactRun` | src/archive.js:271-303 | object, journal, manifest, purge, after finishing what was pending: a good archive stays good at every death point and no manifest is lost or changed |
| `Canonical.CanonPrefix` | src/core.js:5-9 | unique readability: where a printed value ends and what it is can be read off the text |
| `Canonical.CanonExact` | src/core.js:5-9 | two JSON values have the same canonical text if and only if they are equal up to the order of object keys |
| `CanonicalReader.RoundTrip` | src/core.js:5-9 | a JSON reader written after the grammar, on the canonical text of a value, yields an equal value whose objects all have their keys in order of code units |
| `CanonicalReader.ReadsBack` | src/core.js:5-9 | so it does wherever the text stands, leaving exactly what follows it |
| `CanonicalReader.QuoteSpelled` | src/core.js:6 | strings are printed unit by unit: short escapes where there are any, four lower-case hexadecimal digits for other control characters and lone surrogates, everything else as it is |
| `Canonical.BodyPrefix` | src/core.js:6 | escaped strings form a prefix code (section 7 of RFC 8259), lone surrogates included |
| `EvidenceChain.HeadDeterminesHistory` | src/evidence.js:135-155 | two verified stores with equal head hash hold the same events, and the same bytes under common references |
| `EvidenceChain.HeadAnchorsPrefix` | src/evidence.js:135-155 | a verified store whose head occurs in another one is a prefix of it |
| `EvidenceChain.AppendVerifies` | src/evidence.js:98-131 | appending keeps a store verified if and only if every cause is an earlier event and every reference resolves |
| `EvidenceChain.EvidenceStore.constructor` | src/evidence.js:80-86 | an empty store |
| `EvidenceChain.EvidenceStore.Append` | src/evidence.js:98-131 | exactly when an event is appended, the event, and the new head |
| `EvidenceChain.EvidenceStore.Verify` | src/evidence.js:135-260 | the loops accept exactly the verified stores |
| `RevocationAnchor.TrustedHead.Reconcile` | src/calibration-evidence-authority-service.js:57-88 | exactly which observed registries are accepted and what the anchor then holds; a refusal changes nothing |
| `RevocationAnchor.AnchorMonotone` | src/calibration-evidence-authority-service.js:57-88 | over any run the anchored generation never decreases and nothing revoked becomes unrevoked |
| `RevocationAnchor.RunStep` | src/calibration-evidence-authority-service.js:57-88 | over a run each observation moves the anchor exactly as the single reconciliation does |
| `RevocationAnchor.NoRollback` | src/calibration-evidence-authority-service.js:77-81 | a registry that drops any earlier anchored revocation is refused at every later point |
| `RetryTrace.Invoke` | src/agent.js:175-197 | the retry loop emits exactly the specified dispatches and completions |
| `RetryTrace.Validate` | src/replay.js:77-164 | the validator's loop decides acceptance of a trace |
| `RetryTrace.TraceAcceptedIff` | src/replay.js:88-163 | what the retry loop emits is accepted if and only if every attempt made that succeeds has its completion stamped before the deadline, given a clock that never runs backwards |
| `RetryHistory.AcceptedIff` | src/replay.js:77-164 | the validator accepts exactly the traces in which every dispatch is new, alone in its session and a first attempt or the only retry of a retryable failure, and every completion answers its dispatch in time, said of the positions of the trace alone |
| `RetryHistory.LoopTold` | src/agent.js:175-197 | the retry loop makes attempts as long as each fails retryably with clock, world and attempts left, and each leaves its dispatch and its completion |
| `RetryTrace.LateStampRejected` | src/agent.js:180-189 | the smallest rejected trace: the stamp is read after the deadline check |
| `EndpointAccounting.Summarize` | src/analysis.js:147-193 | the placing and counting loops compute a component's totals over a window and list its unattributed rows |
| `EndpointAccounting.Conservation` | src/analysis.js:147-193 | per component, the full run's counts are those of the twenty single-turn windows plus the unattributed rows |
| `EndpointCounts.TotalCounts` | src/analysis.js:147-193 | the numbers of a component over a window count its rows there that are opportunities, taken, retaliated and doubtful |
| `EndpointCounts.TurnAttributed` | src/analysis.js:124-136 | the turn a row is attributed to, by kind and verdict |
| `EndpointCounts.UnattributedListed` | src/analysis.js:147-193 | exactly which rows are listed as unattributed |
| `EndpointAccounting.TurnlessCountNothing` | src/coding.js:262-289 | rows without a window turn add nothing to any denominator or numerator |
| `EndpointAccounting.ValidatedTurn` | src/coding.js:262-289 | a validated row's window turn is at least one |
| `TurnCommit.ArrivalIrrelevant` | src/contracts.js:82-94 | for a fixed ledger the committed record is the same for every order of the validated list |
| `TurnChecks.CommitMeans` | src/contracts.js:82-100 | exactly which submissions commit together: all vouched for by the ledger, one per actor, no action id twice, no unit claimed twice; the record then holds exactly their actions by rank |
| `TurnCommit.SubmissionOrderIrrelevant` | src/contracts.js:44-100 | two turns played with the same requests in different orders both commit or neither does, with the same actions in the same order and the same projections |
| `TurnCommit.ActionLedger.Submit` | src/contracts.js:44-59 | a submission takes the next sequence number; its action identifiers do not mention it |
| `TurnCommit.ActionLedger.Validate` | src/contracts.js:62-80 | a pending submission of this turn becomes validated if the world accepts all its actions and they are not too many, and rejected otherwise; anything else is refused; only the ledger's own copy counts |
| `TurnCommit.Play` | src/contracts.js:44-100 | a turn played on the ledger, every request submitted, then validated, then committed, ends as specified from the requests alone, unless a projection is stale |
| `TurnCommit.ActionLedger.CommitTurn` | src/contracts.js:82-100 | computes the record, marks exactly the committed submissions accepted, and changes nothing when refused |

## Left out

- Cryptography, key files, HTTPS serving, request envelopes and credentials: signatures are key names, and
  authorization is a Boolean input.
- File modes, symbolic links, directory synchronization, temporary files, and bytes that are not the canonical form of
  what they hold: the directories hold only what the modelled writers wrote, and every write is atomic.
- The SQLite locks: calls exclude one another by construction, so the busy error of a second process is not modelled.
- JSON Schema validation, and the contents of the protocol, registry and codebook files.
- World execution, prompts, projections and model answers: inputs of the modelled loops.
- AuthorityRuns.RunSafe: one process, whose interruption is its death; `AuthorityProcesses.TurnsSafe` has several, which may survive.
- AuthorityProcesses.TurnsSafe: calls exclude one another, as the lock ensures; a process refused by the lock makes no call.
- AuthorityRuns.ServeSafe: assumes that start-up is given the complete listing of the staged records; the order is arbitrary.
- AuthoritySafety.SettledVerifies: the verifier's optional trusted head and its tolerance of stores without a claims directory are not modelled.
- AuthorityService.EvidenceAuthority.VerifyAuthority: likewise, and claims are typed records, so their shape is not checked.
- ProductionAdapter.ReceiptsTrusted: the receipt's version and mode fields are not modelled.
- ProductionAdapter.AdapterExactlyOnce: executions are reduced as for `ExecuteAttested` below.
- ProductionAdapter.ExecuteAttested: the turn loop, the policy steps and the local journal are not modelled; an execution is its reconciliation with the authority and its finalization.
- CalibrationLineage.OperationKeepsLineage: covers the four operations on execution attempts; `recordAttempt`, `recordCandidate`, `recordResult`, `quarantineAdapterResult` and free-form `update` are not modelled.
- CalibrationSessions.RunSafe: assumes the attempt ids in use are safe file names and distinct for distinct keys, which is exactly what safety needs (`CalibrationNaming.SafeNamingIff`); the fields of a failure record that only describe the error are dropped.
- CalibrationNaming.UnsafeIdBricks: different ids are different files; that an id with `.` or `..` segments can name another id's file, or one outside the archive, is not modelled.
- CalibrationArchives.CalibrationArchive.RecordExecutionAttemptFailure: the fields that only describe the error are dropped.
- CalibrationArchives.CalibrationArchive.RecordEvidence: loading the evidence and matching it to its execution context is one Boolean input.
- CalibrationArchives.CalibrationArchive.History: release, authorization and trusted-head bindings of a generation are not modelled.
- CalibrationSessions.GoodOpens: covers the checks `CalibrationArchive.Open` models.
- CalibrationArchives.CalibrationArchive.Open: the checks of attempt manifests, candidates, quarantined results, result files and authority observations are not modelled; historical read-only opening and the trusted head of the calibration archive neither.
- CalibrationPublication.PublishAtomic: starts from an initialized archive; the first publication, before any journal exists, is not modelled.
- CalibrationSearch.Run: evaluation of a vector is a function; running its seeds, attestation and the final result are not modelled, nor is the exhaustion status that a bound reached in empirical mode sets.
- CalibrationSearch.ResumeEquivalence: the acceptance direction for arbitrary records assumes that archived assessments are what evaluation yields, which the runner regenerates before it reconstructs.
- ParameterAliases.ApplyOperation: how an operation computes the new value of its own parameter (selectors, multiplier grids) is an input.
- CalibrationMetrics.AggregateUnordered: the dominant-action share, which pools category counts, is not modelled.
- CalibrationMetrics.AggregateBetween: the dominant-action share is not modelled here either.
- CalibrationCandidates.Assess: the panel and status checks before the loop are not modelled.
- Numbers: metric values are integers in millionths, so conversion between decimal texts and binary floating point is not modelled.
- MemoryStores.MemoryStore.Apply: strings hold Unicode scalar values, so texts with lone surrogates are not modelled; record payloads are contents rather than bytes.
- Redaction.Redact: the strings, bytes and fields a payload decodes to, the selection a tombstone's field path makes, the links events declare, and the scan of metadata outside payloads are inputs.
- Redaction.Targeted: what a tombstone's field path selects is an input.
- EvidenceBundles.RedactionVerifies: the decoding of payload texts is an input; object keys are taken in canonical order; the base64 check of stored payloads and the schema checks specific to one event kind are folded into the catalogue.
- PrivacySafety.RedactSafe: assumes that no published event's payload counts as redacted by itself; `PrivacyHazard.JournalFinishesIff` gives the exact condition on every redaction.
- PrivacyArchive.SignedArchive.PublishBundle: classification-change records and analysis-package verification are not modelled.
- PrivacySafety.OperationSafe: assumes that directory listings are complete; export, classification-change records and analysis-package verification are not modelled.
- Canonical.CanonExact: numbers are their decimal texts, so the printing of binary floating point is not modelled; `undefined` and functions are not JSON values.
- CanonicalReader.RoundTrip: the reader takes the text of a number as it stands, and no white space.
- EvidenceChain.EvidenceStore.Append: an event's turn, participants, visibility and schema fields are not modelled.
- EvidenceChain.AppendVerifies: the checks specific to one event kind are parameters, as in `Verify`.
- EvidenceChain.EvidenceStore.Verify: the checks specific to one event kind are folded into two parameters, the content a kind admits and the references it makes; replay of memory operations is in `MemoryReducer`.
- RetryTrace.TraceAcceptedIff: assumes only infrastructure failures are marked retryable; projection, prompt, memory and phase checks of the validator, and the deterministic model's single attempt, are not modelled. Event numbers are consecutive.
- RetryTrace.Validate: leaves out the same checks.
- EndpointAccounting.Summarize: leaves out what `Conservation` leaves out.
- EndpointAccounting.Conservation: covers numerators, denominators and ambiguity counts; missingness reasons, which gain an artificial censoring mark in windows past the end, outcome histograms and standardization are not modelled.
- TurnCommit.ArrivalIrrelevant: lists the record keeps sorted are multisets; the evidence events of a commit follow arrival order and are not part of the record.
- TurnCommit.ActionLedger.Submit: the checks that a submission is bound to its actor's projection and lineage are not modelled.
- TurnCommit.Play: what the world says of an action, and whether a projection is still current, are inputs.
- `redactionDependencies`, `causallyFollows`, blinding checks, the addressable random generator and the policies.
