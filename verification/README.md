# Ledgers, queues, reconcilers and gates of the Operator overlay

A Dafny model of the parts of the overlay whose guarantees hold over whole runs. Each part has
a value-level specification, theorems about any run of it, and the source's own imperative form
(loops, dictionaries and classes updated in place) proved to compute that specification.

| part | files | models |
|---|---|---|
| audit hash chain | `CanonicalRow`, `AuditChain`, `ChainTheorems`, `TamperEvidence` | `shared/audit_chain.py` |
| gap buffer | `GapBuffer`, `GapBufferClass` | `shared/audit_client.py` |
| live configuration | `ConfigTree`, `DiffTheorems`, `ConfigDiff`, `ConfigPaths`, `ConfigGate`, `PollLoop` | `config_applier/` |
| replay register | `Casework`, `CaseworkClass`, `CaseworkSections` | `shared/casework_acts.py` |
| mailbox possession | `Possession`, `PossessionRuns` | `shared/admin_possession.py` |
| schedules | `SeatConfig`, `CronMaterialize`, `CronLedger`, `CronBoots`, `CronStores` | `bootstrap/cron_materialize.py`, `bootstrap/translate.py` |
| config ahead of image | `ImageSkew`, `ImageBoot` | `bootstrap/translate.py` |
| establishment vault | `VaultMerge`, `CorpusIntake` | `establish_intake/intake.py` |
| replay window | `ReplayWindow` | `webhook_gate.py`, `shared/gate_trigger_throttle.py` |
| shared vocabulary | `Basics`, `Text`, `TextOrder` | |

`dafny verify dfyconfig.toml` checks everything.

## Assumptions

* Digest. SHA-256 is a function parameter. Soundness of the verdict assumes only that it is never
  the word GENESIS. Tamper evidence and termination assume `IdealDigest` (collision free, never
  GENESIS, no record separator in its output), which `IdealDigestExists` shows to be consistent.
* Configuration trees. Scalar equality is Python's (`True == 1`); mapping keys are strings. Paths are
  joined as `_join` does, empty keys included, and judged on that text; which characters beyond ASCII
  are digits or spaces is a parameter. Only `JudgementsAgree` needs well-formed keys; the frame
  theorems hold for any. `VERTICAL_FLOORS`, the validator, YAML parsing and case folding are
  parameters.
* Concurrency. In the gap buffer each stretch under the lock is one step and a send is a stretch
  outside it, `execute`'s own send included. The position of the retry thread is one field; how many
  such threads are alive is counted separately, and is never more than one (`QueueIsServed`). The
  replay register is modelled twice: one operation at a time, with order, and by sections under the
  lock in any interleaving, as multisets. The other parts are modelled one operation at a time.
* Clocks and numbers. Clock readings are inputs of every operation, as reals; integers are unbounded
  as in Python. Floor division by a positive constant is Dafny's.
* JSON. What is dumped parses back (`RoundTrips`); size and rendering of adjustments are parameters.
* Cron stores. Each stored job has an id of its own, and a new job gets an unused one.
* Outside answers (broker, object store, file system, agent runtime, vendor) are inputs, so every
  theorem holds for whatever they answer.

## Where the code differs from what is said of it

The model follows the code. For each of these the lemmas named give the input that shows it and, for
all inputs, when the promise is met.

* `execute` is documented to return 1 for "sent, or held" (`shared/audit_client.py:426`); a row that
  meets a full buffer is dropped and 1 is returned, also when other emitters fill the buffer only after
  `holding()` found it empty (`ReturnMeansSentOrHeld`, `FullBufferReturnsOne`, `RaceReturnsOne`).
* "A row that is delivered is never counted" (`shared/audit_client.py:266`): an acknowledged row is
  counted exactly when an exit drain found it still queued; a stored row also when its send ended
  without an acknowledgement (`AcknowledgedCountedIff`, `DeliveredCountedIff`, `DrainCanDouble`).
* The epoch "only ever increases" (`config_applier/safety.py:499`): a stamp repeats after a failed
  write and falls after a failed read (`StampRisesIff`, `EpochCanRepeat`, `EpochCanRestart`).
* `seat.role` is never live-writable by the list, but a change is reported there only when both sides
  carry `seat` as a mapping (`SeatRoleHeldIff`, `WholeSeatPassesTheGate`); then it is held over any run
  (`GateKeepsSeatRole`, `SeatRoleFrozen`).
* "Only deliveries that actually FORWARD start a window" (`shared/gate_trigger_throttle.py:43`): the
  window opens before the forward's answer, so the vendor's retry of a failed forward can be
  acknowledged and recorded without ever being forwarded (`RetryForwardedIff`, `LostRetryExample`).
* The time-to-live of the replay guard covers the freshness window only for deliveries signed less
  than 60 seconds ahead, less the gap between two clock readings, and a restart empties it
  (`CoverageBound`, `HandledTwiceExample`, `RestartReopensIff`, `RestartHandlesTwice`).
* The recovery key holds the replaced generation only until an attempt copies and then fails, or a
  write leaves the classes as they were (`RecoveryKeyHolds`, `CopySpentExample`, `ClassesUnchangedIff`,
  `RepeatSpendsRecovery`).
* The intake measures a new body without the adjustments it carries, so it can write a document the
  applier refuses (`InstallWithinCeilingIff`, `FullBodyOverflows`).
* The manifest "must map 1:1": items may repeat, and of documents that share an id with different
  texts only the last is bound (`AcceptedBindsAllIff`, `SharedIdEscapes`).
* "Never silently drops" a cron entry (`bootstrap/cron_materialize.py:157`): slugs are compared
  stripped here and unstripped by the validator, so the schedule filed under `a` is replaced by the
  one under `a ` (`NothingDroppedIff`, `PaddedSlugDrops`).
* A script is staged from the profile its schedule is filed under (`bootstrap/translate.py:2590`); a
  padded slug's skills are installed in another, so the boot fails wherever that profile does not hold
  the script (`BootReadyIff`, `PaddedSeatFails`).
* A routine report recovers the skill from the job's name, which reads back only for some slugs, and
  loses the space (`SkillReadsBackIff`, `FaithfulRunIff`, `SpacesBlurTheLedger`).
* "`enabled` False = the routine was scheduled and is no longer" (`bootstrap/cron_materialize.py:77`): a
  persona that leaves the configuration loses its routines without such a report, since its home is
  deleted first (`FaithfulBootIff`, `LedgerIsScheduleIff`, `LeaverStaysInLedger`). "Emitted on the DELTA
  only": a padded slug's routine is reported as enabled at every boot (`RebootIsSilentIff`,
  `PaddedReportsAgain`).

## Model

| member | source | states |
|---|---|---|
| CanonicalRow.SplitJoin | shared/audit_chain.py:57-71 | Cutting a canonical body at the unit separator gives back exactly the columns it was joined from, NULL and empty text told apart. |
| CanonicalRow.PayloadInjective | shared/audit_chain.py:57-79 | Two payloads are equal exactly when parent and every column are, for parents without the record separator and columns without the unit separator or the bare NUL marker. |
| CanonicalRow.AnchorIsNoRowHash | shared/audit_chain.py:82-91 | A legacy anchor never equals any row hash, because its payload holds no record separator. |
| CanonicalRow.IdealDigestExists | shared/audit_chain.py:74-91 | The assumption made on the digest where one is needed is consistent: some function meets it. |
| AuditChain.VerifyChain | shared/audit_chain.py:94-203 | The verifier, as the loops it is (tables filled row by row, starts collected, links followed with a cursor), returns the verdict, counts, head and breaks of the specification whenever the walk ends. |
| AuditChain.FollowLinks | shared/audit_chain.py:173-188 | The cursor loop visits exactly the specified walk and reports exactly the forks along it. |
| AuditChain.StartsCount | shared/audit_chain.py:150-156 | The starts are exactly the chained rows whose parent is GENESIS or no chained hash, each with its multiplicity. |
| AuditChain.TrailHashesDiffer | shared/audit_chain.py:173-188 | A finite walk never meets the same hash twice. |
| ChainTheorems.OkMeansChain | shared/audit_chain.py:125-203 | Soundness: a clean report means the visited rows are one anchored chain without repetition and, as a bag, all the chained rows of the export; the head is the last one's hash. Only `digest != GENESIS` is assumed. |
| ChainTheorems.ChainMeansOk | shared/audit_chain.py:125-203 | Completeness: if the chained rows can be arranged as one simple anchored chain, the walk ends, retraces that arrangement, and the report is clean. |
| ChainTheorems.OkIffChain | shared/audit_chain.py:94-203 | Both directions together: ok exactly when such an arrangement exists. |
| TamperEvidence.OrderIndependent | shared/audit_chain.py:94-98 | Any permutation of the rows gives the same ok, chained and legacy counts, and the same head whenever ok. |
| TamperEvidence.WalkTerminates | shared/audit_chain.py:173-188 | On arbitrary rows the walk ends, within one step per distinct hash, as soon as a row hash settles its parent. |
| TamperEvidence.VerifyReturns | shared/audit_chain.py:150-188 | Under a collision-free digest and parents without the record separator the verifier terminates. |
| TamperEvidence.SameDepth | shared/audit_chain.py:74-91 | In any two anchored chains, equal row hashes sit at equal depth. |
| TamperEvidence.OkIffSomeChain | shared/audit_chain.py:94-203 | Under a collision-free digest no separate no-repetition condition is needed: any arrangement that is an anchored chain is enough. |
| TamperEvidence.SameHashSameHistory | shared/audit_chain.py:62-91 | Equal hashes at equal places mean the whole histories before them are equal, column by column. |
| TamperEvidence.HeadPinsChain | shared/audit_chain.py:189-203 | Two clean exports report the same head exactly when they hold the same chained rows. |
| TamperEvidence.SubExportVerdict | shared/audit_chain.py:141-195 | Deletion: any sub-bag of an honestly written ledger verifies exactly when its chained rows are a prefix of the chain and, if that prefix is not empty and anchored to a legacy row, that row is still there. |
| TamperEvidence.MutationDetected | shared/audit_chain.py:62-79 | Mutation: changing any contract column of a kept row makes every export holding it fail. |
| GapBuffer.InvHolds | shared/audit_client.py:307-381 | Every interleaving of emitters, the retry thread, broker outcomes and exit drains keeps the protocol invariant. |
| GapBuffer.Conserved | shared/audit_client.py:307-372 | Without an exit drain, every row `hold` accepted is in exactly one of waiting, acknowledged, counted as lost. |
| GapBuffer.ConservedAcrossDrains | shared/audit_client.py:374-381 | With exit drains, no accepted row is unaccounted for, none is counted more than twice, and at most one row per drain is both acknowledged and counted. |
| GapBuffer.AcknowledgedCountedIff | shared/audit_client.py:374-381 | Over any run, an acknowledged row is also counted as lost exactly when an exit drain found it still queued. |
| GapBuffer.DeliveredCountedIff | shared/audit_client.py:328-381 | Over any run, a row the broker stored is counted as lost exactly when an exit drain found it still queued or its send ended without an acknowledgement. |
| GapBuffer.DrainCanDouble | shared/audit_client.py:374-381 | A concrete interleaving in which the drained row is also acknowledged, so the weaker form is the most that holds. |
| GapBuffer.NeverResent | shared/audit_client.py:328-365 | A row is sent again only after an unreachable broker; acknowledged rows appear in hold order and never twice. |
| GapBuffer.QueueIsServed | shared/audit_client.py:307-344 | However many holds come, at most one started retry thread is ever alive; a queue that is not empty has exactly one, its gap start, and at most the maximum number of rows. |
| GapBuffer.CrashAccounting | shared/audit_client.py:184-231 | After a kill between critical sections with the count persisted, the next boot's tally is at least the rows really lost and exceeds them by at most one. |
| GapBufferClass.Buffer.HoldRow | shared/audit_client.py:307-326 | `hold` moves the buffer by the protocol's hold step and nothing else. |
| GapBufferClass.Buffer.AbandonLocked | shared/audit_client.py:367-372 | The popping loop empties the queue, counting each row once, and clears the gap and the held count. |
| GapBufferClass.Buffer.RetryLoop | shared/audit_client.py:328-365 | A run of the retry thread, with holds and drains of other threads wherever the lock is free, any clock, any broker outcome and any failed count write, is a run of protocol steps, and ends only on an empty queue. |
| GapBufferClass.Buffer.DrainAtExit | shared/audit_client.py:374-381 | The exit drain is the protocol's drain step. |
| GapBufferClass.Buffer.RunSteps | shared/audit_client.py:307-381 | Any stretch of the protocol is taken section by section by these methods. |
| GapBufferClass.ReturnMeansSentOrHeld | shared/audit_client.py:425-453 | Whatever other threads do between the check, the send and the hold, a call that returns sent or held its row, unless it is a buffering gateway's whose row was not sent and whose `hold` meets a full buffer; then it did neither. |
| GapBufferClass.DropNeedsFullOrRace | shared/audit_client.py:443-452 | Such a drop needs a buffer already full at the check, or another emitter's hold before this one. |
| GapBufferClass.HeldRowIsAnsweredFor | shared/audit_client.py:307-381 | At any later point of any run the row a call held is waiting, acknowledged or counted as lost; exactly one of these while no exit drain has run. |
| GapBufferClass.RaceReturnsOne | shared/audit_client.py:443-452 | Buffer of one, empty at the check, filled by another emitter during an unreachable send: 1 is returned for a row neither sent nor held. |
| GapBufferClass.FullBufferReturnsOne | shared/audit_client.py:307-315 | A concrete call that returns 1 though its row is neither sent nor held. |
| GapBufferClass.PlainReturnMeansTaken | shared/audit_client.py:443-445 | For a caller that does not buffer, no exception means exactly that the broker took the row. |
| GapBufferClass.ExecuteCall | shared/audit_client.py:425-453 | `execute`, with any steps of other threads while the lock is free, leaves the buffer and gives the row the fate specified. |
| ConfigDiff.ChangedPaths | config_applier/safety.py:411-434 | The mutually recursive diff terminates (smaller subtree, or same tree at a lower rank) and reports the specified paths in order. |
| ConfigDiff.SameValue | config_applier/safety.py:437-448 | The shortcut says same exactly when the diff is empty, and exactly when the two trees are equal. |
| DiffTheorems.DiffIsFrontier | config_applier/safety.py:411-474 | A path is reported exactly when the two trees part there and nowhere above it. |
| DiffTheorems.DiffIncomparable | config_applier/safety.py:411-474 | Reported paths are pairwise different and none lies under another. |
| DiffTheorems.DiffCovers | config_applier/safety.py:411-474 | Every place where the trees part lies at or under exactly one reported path. |
| DiffTheorems.NoDiffIffEqual | config_applier/safety.py:411-434 | Nothing is reported exactly when the two configurations are equal. |
| DiffTheorems.DiffFrame | config_applier/safety.py:477-486 | For any class of whole subtrees, every reported path falls in it exactly when the two trees are equal once those subtrees are erased. |
| ConfigPaths.PrefixOnText | config_applier/safety.py:353-362 | The text test at a segment boundary is the prefix test on segments. |
| ConfigPaths.JudgementsAgree | config_applier/safety.py:342-403 | On well-formed keys the judgements computed on text are those on segments, for both lists, whatever characters beyond ASCII count as digits or spaces. |
| ConfigPaths.RebuildIsHereditary | config_applier/safety.py:365-374 | Everything below a never-list path is on the never-list. |
| ConfigPaths.NothingWritableBelow | config_applier/safety.py:377-403 | No rendered path at or under a never-list path is judged live-writable, whatever the keys below look like. |
| ConfigPaths.RootIsListedNowhere | config_applier/safety.py:430-434 | The empty text that empty keys leave, and the dot reported for it, are on no list. |
| ConfigGate.CollectIsLast | config_applier/safety.py:150-180 | The exposure built entry by entry is, for each action class, its last textual spelling. |
| ConfigGate.FloorsRespected | config_applier/safety.py:183-239 | The floor check passes exactly when no persona's final authored ceiling for a floored class is more permissive than the floor. |
| ConfigGate.GateFreezesTheRest | config_applier/applier.py:415-460 | What the gate lets through on a live seat equals the running configuration once live-writable subtrees are erased, and respects the floors. |
| ConfigGate.RebuildFieldsKept | config_applier/safety.py:242-339 | Documents equal outside live-writable subtrees agree on every depth-one rebuild field. |
| ConfigGate.PersonasKept | config_applier/safety.py:466-474 | They have equally many personas, each equal outside its live-writable subtrees. |
| ConfigGate.PersonaFieldsKept | config_applier/safety.py:310-339 | They agree on every persona's rebuild fields: slug, status, tone and credentials. |
| ConfigGate.SeatRoleHeldIff | config_applier/safety.py:455-463 | A change of `seat.role` is reported under its never-list path exactly when both sides carry `seat` as a mapping. |
| ConfigGate.GateKeepsSeatRole | config_applier/applier.py:415-460 | On a live seat a change let through keeps `seat.role` whenever both sides carry `seat` as a mapping. |
| ConfigGate.WholeSeatPassesTheGate | config_applier/safety.py:455-463 | So adding a whole `seat` with a role passes the gate on a running seat. |
| PollLoop.CollectExposure | config_applier/safety.py:150-180 | The loop over one exposure mapping builds the specified map. |
| PollLoop.Loop.ApplyConfig | config_applier/applier.py:463-554 | Pull, validate, compare, gate and write leave exactly the specified volume and outcome. |
| PollLoop.Loop.RunOnce | config_applier/__main__.py:173-234 | One tick moves volume, epoch file and etag cache exactly as specified. |
| PollLoop.TickFrame | config_applier/__main__.py:173-234 | One tick writes nothing, or one valid, floor-respecting document that agrees with the stored one outside live-writable subtrees. |
| PollLoop.RebuildFieldsFrozen | config_applier/__main__.py:173-234 | Over any run with arbitrary remote objects and faults, the volume stays equal to the first stored configuration outside live-writable subtrees, and every depth-one rebuild field keeps its value. |
| PollLoop.PersonasFrozen | config_applier/__main__.py:173-234 | Over any run, a list of personas keeps its length and every persona its slug, status, tone and credentials. |
| PollLoop.SeatRoleFrozen | config_applier/__main__.py:173-234 | Over any run in which every document written carries `seat` as a mapping, the seat's role stays the first one's. |
| PollLoop.FreshRunKeepsFirstWrite | config_applier/__main__.py:150-234 | On a seat with no file, the first document written is the reference for all later ones. |
| PollLoop.EveryWriteIsGood | config_applier/applier.py:391-554 | Every document a run writes passed validation, is a mapping and respects the floors; the volume holds the last one. |
| PollLoop.CorruptVolumeIsLeftAlone | config_applier/applier.py:366-388 | A stored file that is no mapping is never replaced by the live path. |
| PollLoop.EpochCountsWrites | config_applier/__main__.py:70-110 | While the epoch file can be read and written, it counts the writes exactly. |
| PollLoop.StampRisesIff | config_applier/safety.py:494-507 | An apply is stamped higher than the apply before it exactly when its read of the epoch succeeds and the file has moved past the earlier stamp, which a failed write or a failed read prevents. |
| PollLoop.EpochCanRestart | config_applier/safety.py:494-507 | A live seat at epoch 5 whose file fails one read is stamped 1. |
| PollLoop.EpochCanRepeat | config_applier/__main__.py:94-110 | A live seat at epoch 5 whose file fails one write stamps two applies 6. |
| Casework.StepKeeps | shared/casework_acts.py:222-403 | Every operation keeps, for every live queue: writes taken in equal answered + in flight + waiting, in order; one row per outcome, with the writer or kept. |
| Casework.EveryQueueAccounts | shared/casework_acts.py:222-403 | The same after any operations on any sessions; and what was handed out is a prefix of what was taken in. |
| Casework.ReplayHandsOutNext | shared/casework_acts.py:272-299 | On a live queue a call is let through exactly with the next write not yet handed out, and refused exactly when there is none. |
| Casework.CompletedOnlyOnProof | shared/casework_acts.py:311-348 | Outcomes are only ever appended, one at a time; a completed one only for the write in flight, on a reported success with a call id. |
| Casework.SessionsNeverMix | shared/casework_acts.py:222-248 | An operation on one session leaves every other session's queue as it was, or evicts it. |
| Casework.LoadOnLive | shared/casework_acts.py:222-240 | Loading appends, in order, as many valid writes as there is room for. |
| CaseworkSections.EverySectionAccounts | shared/casework_acts.py:222-403 | However the lock sections of overlapping operations interleave and whenever the queue is dropped or reloaded: writes are handed out in the order taken in; those handed out, with those given by earlier queues, are the ones answered for, being recorded and in flight; each outcome has one row, with the broker, kept or on its way. |
| CaseworkSections.ConservedBetweenRecordings | shared/casework_acts.py:272-377 | When no drop falls into a recording and none is under way, the writes handed out are, as a multiset, exactly those answered for and in flight. |
| CaseworkSections.StrayOutcome | shared/casework_acts.py:369-372 | A queue reloaded in the middle of a recording answers for a write it never took in. |
| CaseworkSections.ReplayIsSections | shared/casework_acts.py:272-299 | Undisturbed, the sections of `replay` leave the queue of the one-step operation. |
| CaseworkSections.SettleIsSections | shared/casework_acts.py:301-348 | So do those of `blocked` and of the post-tool hook. |
| CaseworkClass.CaseworkActs.LoadWrites | shared/casework_acts.py:222-240 | `load` moves the register by the specified step and returns how many wait. |
| CaseworkClass.CaseworkActs.ReplayCall | shared/casework_acts.py:272-299 | `replay` takes the specified step and leaves in the live argument dictionary exactly the replayed write's arguments, or what was there. |
| CaseworkClass.CaseworkActs.BlockedCall | shared/casework_acts.py:301-309 | `blocked` takes the specified step. |
| CaseworkClass.CaseworkActs.OnPostTool | shared/casework_acts.py:311-348 | `on_post_tool` takes the specified step. |
| CaseworkClass.CaseworkActs.FlushRows | shared/casework_acts.py:391-403 | `flush` keeps exactly the rows the writer did not take and says how many are left. |
| CaseworkClass.CaseworkActs.PendingCount | shared/casework_acts.py:253-259 | The count is the writes taken in less the outcomes recorded, on a live queue. |
| Possession.ChallengedIsLive | shared/admin_possession.py:142-230 | An address stands challenged exactly when some challenge was issued to it, it stayed listed since, and nothing later was issued to or confirmed by it. |
| Possession.ConfirmedWasProven | shared/admin_possession.py:173-284 | A confirmed address was challenged, answered that challenge with its nonce in time, and was listed at every reconcile since. |
| Possession.SpentNonceNeverConfirms | shared/admin_possession.py:142-284 | With fresh nonces, a used, superseded or revoked nonce never confirms again, for anyone. |
| Possession.NonceConfirmsOnce | shared/admin_possession.py:233-284 | Each nonce confirms at most once. |
| Possession.OutstandingExact | shared/admin_possession.py:446-476 | The listed nonces are exactly the challenges that still stand, at most one per address. |
| PossessionRuns.RunKeeps | shared/admin_possession.py:142-443 | Any sequence of verdicts and messages, any clock and any membership, keeps both tables in line with their history. |
| PossessionRuns.AdminConfirmedOnlyByProof | shared/admin_possession.py:173-230 | Over any run, a verdict says confirmed only for a listed address with such a challenge and answer. |
| PossessionRuns.PersonConfirmedOnlyByProof | shared/admin_possession.py:332-392 | For a person: by an own proof, or by a proof in the admin table. |
| PossessionRuns.RefusedMailChangesNothing | shared/admin_possession.py:233-284 | A message is accepted exactly when it carries the standing nonce in time from a listed address; otherwise only the reconcile remains. |
| PossessionRuns.OutstandingIsAMap | shared/admin_possession.py:446-476 | With fresh nonces an outstanding nonce names exactly one address across both tables. |
| PossessionRuns.Store.VerdictForAdmin | shared/admin_possession.py:173-230 | `verdict` updates the table as specified and returns the specified answer. |
| PossessionRuns.Store.ConfirmAdmin | shared/admin_possession.py:233-284 | `try_confirm` updates the table as specified and returns the specified answer. |
| PossessionRuns.Store.VerdictForPerson | shared/admin_possession.py:332-392 | `person_verdict`, likewise, reading the admin table first. |
| PossessionRuns.Store.ConfirmPerson | shared/admin_possession.py:395-443 | `person_try_confirm`, likewise. |
| PossessionRuns.Store.ReconcilePersonRows | shared/admin_possession.py:292-329 | `person_reconcile` deletes exactly the rows of strangers, and nothing when the roster cannot be read. |
| PossessionRuns.Store.OutstandingNonces | shared/admin_possession.py:446-476 | The loop collects exactly the standing challenges of both tables. |
| CronMaterialize.StoreConverges | bootstrap/cron_materialize.py:386-419 | A visited store's managed jobs become exactly the wanted ones, in order, with their staged scripts; its other jobs stay as they were. |
| CronMaterialize.RunConverges | bootstrap/cron_materialize.py:281-421 | A run either goes through and converges every persona it visits, touching no other store, or fails before any store has changed. |
| CronMaterialize.ContainmentEmpties | bootstrap/cron_materialize.py:320-331 | Under containment the run does not depend on what is authored, and leaves no managed job in any store it visits. |
| CronMaterialize.PlanIsTheLast | bootstrap/cron_materialize.py:164-250 | A plan holds, under each slug, exactly the jobs of the last persona with something to schedule that files there. |
| CronMaterialize.NothingDroppedIff | bootstrap/cron_materialize.py:145-250 | A persona that has something to schedule gets exactly that, if and only if the last persona filing under the same stripped slug asks for exactly that as well. |
| CronMaterialize.PaddedSlugDrops | bootstrap/cron_materialize.py:165 | The slugs `a` and `a ` differ for the validator (`bootstrap/validate.py:518`) and are one slug here: the first persona's routine is planned for nobody. |
| CronStores.DesiredByPersona | bootstrap/cron_materialize.py:145-250 | The validating loops plan exactly what is specified, and refuse exactly when an entry, slot or space does. |
| ImageSkew.AcceptedEntry | bootstrap/cron_materialize.py:174-246 | An accepted entry targets a skill its persona has enabled for scheduled runs, becomes a job under the persona's own managed name at its authored time, and carries a script exactly when a script decides its wake. |
| CronStores.StageOne | bootstrap/cron_materialize.py:342-375 | The staging loop gives every job that needs a script its reference, or fails as soon as one cannot be staged. |
| CronStores.ReportRoutineChanges | bootstrap/cron_materialize.py:424-459 | The two sorted loops report the specified changes in order. |
| CronStores.ManagedIdsRemoveManaged | bootstrap/cron_materialize.py:383-384 | Removing the ids of the managed jobs one by one removes exactly the managed jobs. |
| CronStores.CronHomes.Materialize | bootstrap/cron_materialize.py:281-421 | The two passes leave every store, the registered names and the reports exactly as specified; a raise leaves every store unchanged. |
| CronStores.CronHomes.ReconcileHomes | bootstrap/translate.py:1977-2024 | The loop deletes exactly the homes nobody authors, hidden ones apart, and returns them in order. |
| CronStores.CronHomes.BootOnce | bootstrap/translate.py:2417-2475 | The end of a boot, homes first and schedules then, leaves stores and reports exactly as specified, also where the schedules are refused. |
| CronLedger.ReportsAreTheDelta | bootstrap/cron_materialize.py:424-459 | A visited persona's reports are exactly the names in which its managed jobs before and after differ, each once, with the right flag, skill and schedule. |
| CronLedger.RerunIsSilent | bootstrap/cron_materialize.py:79-83 | Running again on the same configuration reports nothing. |
| CronLedger.SkillReadsBackIff | bootstrap/cron_materialize.py:453-458 | For every slug, skill and space, the skill recovered from a removed name is the authored one exactly when the slug has no colon and the skill no `@`, or a slug cut at an `@` happens to leave the skill. |
| CronLedger.FaithfulRunIff | bootstrap/cron_materialize.py:391-459 | A ledger that names what is scheduled still does after a run, spaces or none, exactly when no name the run removes shares persona and skill with one that is there afterwards. |
| CronBoots.FaithfulBootIff | bootstrap/translate.py:2417-2475 | A ledger that names what is scheduled still does after a boot exactly when no name removed in a home kept shares its skill with one left there, and every skill of a home deleted is scheduled there again. |
| CronBoots.LedgerFollowsIff | bootstrap/translate.py:2417-2475 | Over any boots from empty stores, the folded reports are the schedule after every boot exactly when that holds of every boot. |
| CronBoots.LedgerIsScheduleIff | bootstrap/translate.py:2417-2475 | On seats without spaces and padding: folding the reports gives exactly the persona-skill pairs scheduled, after every boot, if and only if no persona that held a managed job ever left the configuration. |
| CronBoots.LeaverStaysInLedger | bootstrap/translate.py:1977-2024 | One boot schedules a routine for q, the next authors p instead: the store is gone and the ledger still lists q's routine. |
| CronBoots.RebootIsSilentIff | bootstrap/cron_materialize.py:79-83 | The next boot on an unchanged configuration reports nothing exactly when no schedule is filed in a home the boot deletes. |
| CronBoots.PaddedReportsAgain | bootstrap/translate.py:1977-2024 | A persona authored as `a ` has its routine reported as enabled again at the second boot. |
| CronLedger.SpacesBlurTheLedger | bootstrap/cron_materialize.py:453-458 | With spaces it can fail: a routine turned off in one of two spaces is reported as the skill turned off. |
| ImageSkew.PinsFailIff | bootstrap/translate.py:208-266 | After dropping, pin resolution fails exactly when an authored skill is no mapping or is enabled without a name. |
| ImageSkew.InstallFailsIff | bootstrap/translate.py:2155-2215 | Installing a kept persona fails exactly when an authored skill is no mapping. |
| ImageSkew.StagingSucceeds | bootstrap/translate.py:2573-2598 | A surviving entry the materializer accepts finds its script in the installed skills, whatever the profile held. |
| ImageSkew.BootReadyIff | bootstrap/translate.py:311-423 | On any seat, after dropping and installing, the schedules go through exactly when nothing is authored wrongly, every store can be read, every couples gate can be staged, and each schedule that padding files away from its own profile finds its scripts in the profile it is filed under. |
| ImageSkew.BootFailsOnlyOnAuthoring | bootstrap/translate.py:311-423 | So where no slug is padded, no pre-run script refuses the schedules. |
| ImageSkew.PaddedSeatFails | bootstrap/translate.py:2590-2595 | One persona, its script-woken skill carried by the image and installed: authored as `a` its schedule goes through, authored as `a ` it is refused. |
| ImageSkew.DropAgain | bootstrap/translate.py:311-423 | A second drop changes nothing and finds nothing. |
| ImageSkew.TriggersNameRunnableSkills | bootstrap/translate.py:278-308 | A trigger survives exactly when its persona enables the skill and this image carries it at its pin. |
| ImageBoot.DropUnrunnable | bootstrap/translate.py:311-423 | The loops keep and find exactly what is specified. |
| ImageBoot.ResolveSkillPins | bootstrap/translate.py:208-266 | The loops fail exactly as specified, and resolve every enabled skill to the catalog's own pin. |
| ImageBoot.ProfileDir.InstallPersonaSkills | bootstrap/translate.py:2155-2236 | Copying and pruning leave exactly the enabled bodies refreshed, other catalog skills removed, and everything else untouched. |
| VaultMerge.OthersUnchanged | establish_intake/intake.py:787-877 | An attempt leaves every other class, and every other property of its class, as it was. |
| VaultMerge.MergesShare | establish_intake/intake.py:722-1013 | An establishment replaces everything but the adjustments; an adjustment appends to the list and changes nothing else. |
| VaultMerge.AdjustmentsOnlyGrow | establish_intake/intake.py:986-1024 | Over any establishments and adjustments under any faults, a property's list only grows, its ids stay unique and it stays within the ceiling. |
| VaultMerge.BodyIsLastInstalled | establish_intake/intake.py:722-742 | Over any run, apart from its adjustments a property is what the last landed establishment authored. |
| VaultMerge.AdjustmentStandsIff | establish_intake/intake.py:848-903 | After any run an adjustment stands in a property's list exactly when it stood there before, or some attempt to add it there was reported installed or pending, or was reported as an error that came only after the document was stored. |
| VaultMerge.ConfirmedAdjustmentStays | establish_intake/intake.py:986-1024 | An adjustment once reported installed or pending stands in its property's list after every later attempt of either writer. |
| VaultMerge.RecoveryKeyHolds | establish_intake/intake.py:819-841 | Over any run, the recovery key holds byte for byte the generation last replaced, unless an attempt since copied and then failed to write, when it holds the current one. |
| VaultMerge.CopySpentExample | establish_intake/intake.py:819-859 | One establishment whose copy goes through and whose write fails leaves both keys with the current generation. |
| VaultMerge.ClassesUnchangedIff | establish_intake/intake.py:819-841 | A landed write leaves the classes unchanged, so that the recovery key holds them too, exactly when the merged entry is the one already in place. |
| VaultMerge.RepeatSpendsRecovery | establish_intake/intake.py:993-996 | A repeated adjustment is such a write. |
| VaultMerge.AdjustmentWithinCeiling | establish_intake/intake.py:1005-1012 | A new adjustment that lands renders within the ceiling the applier enforces. |
| VaultMerge.InstallWithinCeilingIff | establish_intake/intake.py:631-635 | An establishment that lands does so exactly when its body and the carried list fit together, which it does not measure. |
| VaultMerge.FullBodyOverflows | establish_intake/intake.py:631-635 | A body that fills the ceiling is admitted, and with any carried adjustment the applier's ceiling is broken. |
| VaultMerge.Intake.PutAndConverge | establish_intake/intake.py:759-903 | The one motion of read, merge, copy, write and read back leaves both objects and the status exactly as specified. |
| VaultMerge.Intake.Append | establish_intake/intake.py:986-1013 | The append merge, as its loop, computes the specified merge. |
| CorpusIntake.VerifyManifest | establish_intake/intake.py:411-437 | The check reports no problem exactly when every item matches the last document of its id and every id is covered. |
| CorpusIntake.AcceptedBindsAllIff | establish_intake/intake.py:411-437 | An accepted manifest names every document of the run with its own hash exactly when no two documents share an id with different texts. |
| CorpusIntake.ManifestBindsCorpus | establish_intake/intake.py:411-437 | Under that condition a manifest is accepted exactly when it names precisely the documents of the run. |
| CorpusIntake.SharedIdEscapes | establish_intake/intake.py:418 | With an id shared by two documents, a manifest naming only the second is accepted. |
| CorpusIntake.MaterializeCorpus | establish_intake/intake.py:440-461 | Every document gets a name, no two the same, each the first free one in the order tried. |
| CorpusIntake.Pick | establish_intake/intake.py:451-456 | The de-duplicating loop ends, on the first free name. |
| ReplayWindow.SecondsIsFloor | webhook_gate.py:149-187 | The tick conversion is the floor for every integer tick count. |
| ReplayWindow.CoverageBound | webhook_gate.py:190-238 | A delivery recorded as handled at h can be verified again exactly when it was signed at least 60 seconds, less the gap between the two clock readings, after h. |
| ReplayWindow.HandledTwiceOnlyAhead | webhook_gate.py:1440-1552 | Over any run with a clock that never runs back, a request id handled twice was signed that far ahead of its first handling. |
| ReplayWindow.AtMostOnce | webhook_gate.py:1440-1552 | So with a vendor clock less than a minute ahead, each request id is handled at most once in one life of the gate. |
| ReplayWindow.HandledTwiceExample | webhook_gate.py:205-244 | Signed 100 seconds ahead, one delivery is handled twice. |
| ReplayWindow.RestartReopensIff | webhook_gate.py:205-244 | After a restart, which empties the guard, a delivery verifies again exactly while it is fresh. |
| ReplayWindow.AtMostOnceAcrossRestarts | webhook_gate.py:1440-1552 | Over any lives of the gate, with such clocks and restarts outside the freshness window of what was handled before, each request id is handled at most once in all. |
| ReplayWindow.RestartHandlesTwice | webhook_gate.py:205-244 | A restart inside that window lets one delivery be handled twice. |
| ReplayWindow.RecordedWasHandled | webhook_gate.py:222-244 | Over any run, a record stands only for a delivery the gate has answered for, at the time it did. |
| ReplayWindow.FailureNotRecorded | webhook_gate.py:1527-1552 | A failed forward leaves the guard as it was, so its retry verifies exactly as before. |
| ReplayWindow.WindowsAreOpen | shared/gate_trigger_throttle.py:176-205 | At any time after a run, the throttle's table holds under a key exactly a window that some request it let through opened and that has not ended. |
| ReplayWindow.ForwardedIff | shared/gate_trigger_throttle.py:176-205 | Over any run, a request that reaches the throttle is let through exactly when every earlier window under its key has ended. |
| ReplayWindow.RetryForwardedIff | webhook_gate.py:1493-1518 | The retry of a failed forward, whatever came between, is forwarded exactly when no cooldown applies, or the window the failure opened and every one since have ended. |
| ReplayWindow.RetryInsideCooldownIsLost | shared/gate_trigger_throttle.py:176-205 | Inside the failed attempt's cooldown the retry is acknowledged, recorded as handled and never forwarded, whatever came between; later copies are refused while the record stands. |
| ReplayWindow.LostRetryExample | shared/gate_trigger_throttle.py:176-205 | Such a run exists from a gate just booted. |
| ReplayWindow.GateProcess.DoPost | webhook_gate.py:1418-1552 | From verification on, the pipeline decides, records and opens windows exactly as specified. |

## Left out

- Cryptography, YAML and JSON parsing, regular expressions, sockets, SQL, the file system's ownership
  and durability: only their outcomes appear, as inputs.
- `shared/audit_chain.py`: reading the export; rows arrive as 12 columns plus the two chain columns,
  each NULL or text.
- `shared/audit_client.py`: fork handling, backoff lengths, the metadata stamp on a held row, kills
  inside a critical section, and the moment between a retry thread giving up its slot and ending.
- `config_applier/`: NaN and date scalars, the audit row of an apply, and `classify_direction`, which
  the gate does not use.
- `shared/casework_acts.py`: the wording of reasons and the broker socket; a queue's history fields
  exist only in the model; in `CaseworkSections` the order in which overlapping recordings land, and
  rows of a dropped queue.
- `shared/admin_possession.py`: the SQL, and how nonces are drawn; freshness is a hypothesis where used.
- `bootstrap/cron_materialize.py`: a store that raises during the second pass, `on_routine_change`
  absent or raising, couples slot specs (a parameter), and the display fields of a job.
- `bootstrap/translate.py`: slugs that name nested directories, file contents other than pins and file
  names, the prompt stamp, profile configuration and SOUL text, `_refresh_staged_scripts`.
- `establish_intake/intake.py`: the compiler gates and field checks that reject before the vault is
  read (apart from the body's own size), the converge wait, and the person scope. Document ids in a
  manifest are compared as given, already stripped and lowered hashes.
- `webhook_gate.py`: the branches before verification, which change nothing; the body stamp and the
  envelope capture; two identical deliveries handled at the same time; a reply that cannot be written
  after a successful forward.
- AtMostOnce: for deliveries handled one after another, since the source lets two concurrent identical
  ones pass.
- `shared/action_classes.py`, `bootstrap/validate.py`, `bootstrap/secret_scan.py`,
  `shared/calendar_store.py`, `shared/casework_steps.py` and their like: tables or one-step checks that
  would only add easy members.
