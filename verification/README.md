# A verified model of o7

`o7` runs coding agents in git worktrees, records every run as a digest-chained event
journal, projects that journal into a ledger, and passes artifacts through a
content-addressed store. This project models the parts where a promise about whole runs
is kept by code spread over many functions, and proves those promises.

| file | what it models |
|---|---|
| `Reducer.dfy`, `Journal.dfy` | the canonical run reducer, the dispatch classifier, the hash chain |
| `ChildRecord.dfy`, `Dispatch.dfy` | command dispatch: binding, run-id lock, `o7 continue` processes, worktree branches, redrive, crashes and hand-started processes anywhere |
| `Ledger.dfy`, `Projector.dfy`, `Recovery.dfy` | ledger transactions, projection and catch-up, and their interleavings with crashes and plain recovers |
| `Kinds.dfy`, `Framing.dfy`, `Envelope.dfy` | artifact kinds, field framing, the envelope's framed identity and admission |
| `Resolver.dfy`, `Store.dfy`, `Session.dfy` | the owned store and the resolver session with its accounting |
| `RealizationGate.dfy` | the three-way wire realization gate |
| `GitOutput.dfy`, `Candidate.dfy` | git output readers, candidate capture and materialization along conversations |
| `GateRun.dfy` | gate manifests, batch and live event streams, verdicts |
| `Judge.dfy` | finding dedupe, worker pool, verdict pairing and merge |
| `Base.dfy` | shared value types |

`dafny verify dfyconfig.toml` checks everything.

What is assumed and appears as a parameter: hash functions (collision-free where a lemma
says so), the JSON codec (encoding then parsing an admitted envelope gives it back;
framed preimages do not parse), git trees as maps with diff and apply, the outcome of
every external command, model answers, clocks. Digests are byte strings of any length, so a
collision-free hash exists; framing is injective on texts that fit in memory, which every
admitted envelope's do. Storage handed to a resolver session is an
arbitrary function per call.

In `Dispatch.dfy` any process may be started by hand beside the service's, on any run id and with
any arguments. All processes share the service's ledger, repository and runs directory, and nobody
deletes `o7/<run_id>` branches: the program never does, and `git worktree add -b` refuses an
existing one. That exclusive branch, not only the run-id lock, keeps a command to one provider call.

Where the program does not keep a promise its own comments make, the model follows the
code, shows the failing input and proves the exact condition:

- `verdict.rs` says its reduction mirrors the canonical reducer. The two agree exactly when the
  agent exited cleanly and no optional step alone failed to spawn, or it did not and some step
  failed to spawn (`GateRun.ReductionsAgreeExactly`).
- `judge.rs` says files finishing out of order change nothing. That is so exactly when no two
  files answer differently for one id (`Judge.ScheduleIndependentExactly`); matching verdict counts
  are enough (`Judge.JudgePool`), a surplus verdict is not (`Judge.SurplusCrossesFiles`).
- The store keeps contents and envelopes in one key space. Every accepted artifact stays readable
  exactly when no content is the framed preimage of an accepted envelope
  (`Store.ReadableExactlyWhenSeparated`).
- A session returns envelopes it did not fully charge for when two stores hold differently dated
  encodings of one identity (`Session.TwoStoresUnderpay`); sessions are paid in full exactly when
  references to one identity declare one size (`Session.PaidExactlyWhenConsistent`).
- Re-projection depends on one attempt per run: it succeeds exactly when every note was recorded
  under the attempt that attaching finds (`Recovery.ReprojectionExactly`), and the unused
  `resume_interrupted_run` would break it (`Recovery.ResumedRunConflicts`).

## Model

| member | source | states |
|---|---|---|
| Reducer.PrefixAccepted | crates/o7-run/src/reduce.rs:398-405 | every prefix of an accepted stream is accepted, and folding the rest from there gives the whole |
| Reducer.VerdictIffSealed | crates/o7-run/src/reduce.rs:409-693 | on accepted streams a verdict is present exactly when the run is sealed |
| Reducer.SealedPrefixIsWhole | crates/o7-run/src/reduce.rs:322-328 | nothing follows a seal: a sealed prefix of an accepted stream is the whole stream |
| Reducer.AcceptedExactly | crates/o7-run/src/reduce.rs:398-693 | the fold accepts exactly the streams in which every event may follow those before it, said of the kinds already there |
| Reducer.VerdictExactly | crates/o7-run/src/reduce.rs:870-1003 | the verdict of a sealed stream said of its kinds: what is an error, else a failure, else blocked, else PASS |
| Reducer.DispatchProgressExact | src/recovery.rs:85-97 | progress is "none" exactly on accepted streams without dispatch evidence, so an `AgentStarted` is never missed |
| Reducer.ProgressExactly | src/recovery.rs:85-97 | the progress answered is exactly the furthest evidence kind in the stream |
| Reducer.DispatchProgressMonotone | src/recovery.rs:85-97 | progress never goes backwards as a record grows |
| ChildRecord.RedrivableIsUndispatched | src/recovery.rs:164-344 | whatever is on disk, only a record without `AgentStarted` is classified as redrivable |
| ChildRecord.AttributedToOneCommand | src/recovery.rs:215-334 | a record is never accepted for two different run ids or commands |
| ChildRecord.HonestRedrivableExactly | src/recovery.rs:164-344 | a record written by a continuation is redrivable exactly when it is whole and lacks `AgentStarted` |
| ChildRecord.ClassifiedExactly | src/recovery.rs:164-344 | the answer for every record: absent, invalid, sealed, pre-dispatch or ambiguous with its progress, said of sidecars and kinds |
| Dispatch.StepKeepsInv | src/main.rs:1348-1403 | every step of handler, redriver or worker, started by the service or by hand, crashes included, keeps locks, binding, branches, records and calls consistent |
| Dispatch.ReadyIsFirst | src/main.rs:1823-1852 | a worker past the branch that has not called the provider yet is the first that can for its command |
| Dispatch.AtMostOneCall | src/main.rs:1681-1852 | over every interleaving, hand-started processes included, at most one provider call per command, at most one `AgentStarted` across all records, and it is in the bound run |
| Dispatch.BindingFrozenAfterDispatch | crates/o7d/src/routes.rs:338-606 | once a run passed the dispatch boundary the command stays bound to it for ever |
| Dispatch.MaterializedIdIsClosed | src/worktree.rs:39-62 | once the branch of a run id exists, no process but its creator ever appends `CandidateStateMaterialized` or `AgentStarted` under that id or calls the provider, in any continuation |
| Dispatch.CallReachableExactly | src/main.rs:1009-1010 | a process about to start on its bound, unlocked run id can still reach the provider exactly when the branch of that id does not exist |
| Dispatch.RedriveExactly | crates/o7d/src/routes.rs:496-606 | in every reachable state a redriver holding the lock goes on to rebind exactly when the record is whole, undispatched, not started twice (that is, it reduces) and empty or the accepted command's; processes told that command never spoil the last, and a run with one process never the third |
| Dispatch.ServiceRedriveExactly | crates/o7d/src/routes.rs:496-606 | when only the service starts processes, the redriver rebinds exactly when the record is whole and undispatched |
| Dispatch.DecideSettles | crates/o7d/src/routes.rs:496-606 | in every reachable state deciding on a sealed record completes its active command, and deciding on any other record leaves the command as it was |
| Dispatch.WorkerSettles | src/main.rs:1571-1651 | a process that sealed its run completes its active command; one that fails rejects it exactly if the run never got into the ledger |
| Dispatch.RebindOnce | crates/o7-ledger/src/sqlite.rs:1199-1253 | a rebind happens exactly to the row as read, if still active, and no other redriver that read that row can follow |
| Dispatch.AlwaysAttachedInTime | src/main.rs:1764-1808 | from any state in which it holds, as at the start, processes write past `RunStarted` only on runs that are in the ledger |
| Dispatch.AcceptedCommandCompletes | src/main.rs:1681-1852 | the ordinary course from the start calls once, seals and completes under any run id |
| Dispatch.RedrivenCommandCompletes | crates/o7d/src/routes.rs:557-606 | a command a redriver may rebind can be called and completed under a fresh run id |
| Journal.EventChain.Push | src/events.rs:152-177 | a push extends a contiguous chain linked from genesis by one event; it fails exactly on sequence exhaustion |
| Journal.DigestFixesHistory | src/events.rs:132-178 | with a collision-free digest two chains with the same final digest are equal event by event |
| Projector.LiveLedger.AttachRun | src/ledger_projector.rs:152-234 | the transactions of attaching amount to the attach function: row, start, attempt found or created, or the latest attempt of a settled run |
| Projector.LiveLedger.Project | src/ledger_projector.rs:292-390 | succeeds exactly when the event's sequence is free or holds an equal note; then that note is there and nothing else changed; a conflict changes nothing |
| Projector.LiveLedger.SealInner | src/ledger_projector.rs:436-484 | on success the row is completed, failed, blocked or error exactly as the verdict is pass, fail, blocked or error; a running run is always sealed, an interrupted one exactly when repair is allowed; an error changes nothing |
| Projector.LiveLedger.CatchUpRecord | src/recovery.rs:444-660 | identity is resolved or refused before any write, then the whole stream is projected and sealed |
| Projector.CaughtUpForOneCommand | src/recovery.rs:576-627 | one record is never caught up for two different commands |
| Projector.ResolveExactly | src/recovery.rs:444-640 | catch-up goes ahead exactly when record, binding, row and expected command agree, check by check, and attaches under the row's identity or else the binding's |
| Projector.RepairExactly | crates/o7-ledger/src/sqlite.rs:675-760 | a repair turns an interrupted run terminal with the latest interrupted attempt and no other |
| Recovery.StepKeepsInv | src/ledger_projector.rs:152-484 | every transaction of every process keeps one attempt, matching notes and justified statuses |
| Recovery.LedgerFollowsJournal | src/main.rs:1100-1287 | in every reachable state a row exists only after a durable `RunStarted`, notes are the journal's events, and a verdict status says the sealed journal's verdict, case by case |
| Recovery.StatusMovesLegally | src/ledger_projector.rs:408-516 | statuses move only along the legal edges; interrupted becomes terminal only by catch-up of a sealed journal |
| Recovery.VerdictNeverChanges | src/ledger_projector.rs:408-484 | a verdict status never changes in any continuation |
| Recovery.ReprojectionExactly | crates/o7-ledger/src/sqlite.rs:1592-1642 | re-projection succeeds exactly when all existing notes agree on event and attempt; missing notes are filled in |
| Recovery.ApplyConverges | src/recovery.rs:637-660 | from every ledger satisfying the invariant, applying the sealed journal gives the converged ledger |
| Recovery.CatchUpConverges | src/recovery.rs:444-660 | after any run one catch-up of the sealed record gives one note per event under one attempt and completed, failed, blocked or error exactly as the verdict is, equal to the crash-free result up to the attempt; a second one changes nothing |
| Recovery.LiveRunRecorded | src/main.rs:1100-1287 | from commands to ledger: after any run, catching up a sealed live stream marks it completed exactly when the agent exited with 0 and every required step ran and succeeded or was waived |
| Recovery.RecoverInterrupts | crates/o7-ledger/src/sqlite.rs:1659-1710 | a plain recover falling anywhere interrupts exactly a running row, with its attempt |
| Recovery.ConvergedIsFinal | src/ledger_projector.rs:436-484 | after any run, whatever processes are left over, the ledger that catch-up of the sealed record leaves never changes again |
| Recovery.ResumedRunConflicts | crates/o7-ledger/src/sqlite.rs:574-644 | after a resume every re-projection of an already projected run reports failure |
| Recovery.AttachIsItsSteps | src/ledger_projector.rs:152-234 | the attach transactions of the transition system, uninterrupted, are the attach operation |
| Recovery.SealIsReadThenWrite | src/ledger_projector.rs:436-484 | reading the status and writing what was decided, uninterrupted, is the seal operation |
| Recovery.CatchUpIsARun | src/recovery.rs:637-660 | beside any other processes, a new catch-up taking its transactions uninterrupted is a run of the system and leaves exactly the applied ledger |
| Recovery.LiveIsARun | src/main.rs:1100-1287 | a live worker started at the first event takes in later ones and ends in the converged ledger |
| Recovery.UndisturbedRun | src/main.rs:1100-1287 | an undisturbed live run ends in the ledger that catch-up from nothing gives |
| Kinds.KindNameInjective | crates/o7-a1-contracts/src/kind.rs:236-281 | the 39 frozen kind names are pairwise different bytes |
| Kinds.RoleNameInjective | crates/o7-a1-contracts/src/kind.rs:44-51 | the four role names are pairwise different bytes |
| Framing.Preimage.Frame | crates/o7-a1-contracts/src/framing.rs:42-47 | framing a field appends exactly one length-prefixed field |
| Framing.FrameAllInjective | crates/o7-a1-contracts/src/framing.rs:35-76 | two lists of fields of any lengths with equal framed bytes are equal |
| Framing.LittleEndianReads | crates/o7-a1-contracts/src/framing.rs:42-79 | reading the bytes back least significant first gives the framed number |
| Envelope.FramedDigest | crates/o7-a1-contracts/src/envelope.rs:605-639 | the digest computed field by field is the hash of the framed preimage |
| Envelope.FramingExactly | crates/o7-a1-contracts/src/envelope.rs:605-639 | equal preimages exactly when all framed fields and the reference list agree, absent counting as empty, creation time and the receipt's kind, media type and size unseen |
| Envelope.Validate | crates/o7-a1-contracts/src/envelope.rs:654-713 | accepts exactly the admissible envelopes; each error names a violated rule, and the rules checked before it hold |
| Envelope.AdmittedIdentityExactly | crates/o7-a1-contracts/src/envelope.rs:654-713 | among admitted envelopes identity ignores exactly creation time and the receipt's kind, media type and size |
| Envelope.KindDecidesEvidence | crates/o7-a1-contracts/src/kind.rs:141-155 | the kind alone decides the author of an admitted envelope and whether it carries provider evidence |
| Store.MemoryStore.Put | crates/o7-a1-cas/src/store.rs:98-102 | bytes are stored under their own hash |
| Store.MemoryStore.PutEnvelope | crates/o7-a1-cas/src/store.rs:146-184 | accepted exactly when the payload hashes to the bound digest and the encoding fits 1 MiB; a refusal changes nothing; the returned size is that of the bytes held |
| Store.HoldsAll | crates/o7-a1-cas/src/store.rs:98-184 | under separation the store holds every content and the first bytes of every envelope, and nothing else |
| Store.WriteThenResolve | crates/o7-a1-cas/src/store.rs:146-184 | every returned key and size still reads back, through any later calls, as the first accepted envelope with its payload |
| Store.CollisionLoses | crates/o7-a1-cas/src/store.rs:98-184 | a content equal to an accepted envelope's preimage makes that envelope or the content's own artifact unreadable |
| Store.ReadableExactlyWhenSeparated | crates/o7-a1-cas/src/store.rs:98-184 | all accepted artifacts read back exactly when no content is an accepted envelope's preimage |
| Session.Enter | crates/o7-a1-cas/src/session.rs:259-279 | a session exists exactly under a policy with turns and time within the hard maxima and enforces that policy; errors name the violated bound |
| Session.ResolutionSession.ChargeFor | crates/o7-a1-cas/src/session.rs:506-534 | deduplicate, account with saturation, bound; a refused charge leaves no trace |
| Session.ResolutionSession.Attempt | crates/o7-a1-cas/src/session.rs:333-502 | slot, charge, then verified read; the first failure ends the session |
| Session.AlwaysBalanced | crates/o7-a1-cas/src/session.rs:506-534 | after any calls objects and bytes are exactly the count and sum of first declared sizes, within both bounds |
| Session.FailureIsFinal | crates/o7-a1-cas/src/session.rs:493-502 | after the first failure no call returns a value and the accounts never move |
| Session.PaidInFull | crates/o7-a1-cas/src/session.rs:333-485 | the stored size of each returned value is the size charged for its identity: opaque under any storage, envelopes under one store |
| Session.PaidOnce | crates/o7-a1-cas/src/session.rs:506-534 | an identity is never on the account with two sizes |
| Session.CallSucceedsExactly | crates/o7-a1-cas/src/session.rs:333-534 | a call succeeds exactly when none failed before, its identity is paid or both bounds leave room, and storage holds what slot and reference name |
| Session.ResolvedIsGenuine | crates/o7-a1-cas/src/session.rs:333-485 | whatever storage answers, a returned value is the stored one, what the slot expects and the reference names, hashes, framing, binding and sizes included |
| Session.PaidExactlyWhenConsistent | crates/o7-a1-cas/src/session.rs:506-534 | under arbitrary storage a fully successful session has charged the stored size of every returned value exactly when references to one identity declare one size |
| Session.TwoStoresUnderpay | crates/o7-a1-cas/src/session.rs:415-485 | two stores with differently dated encodings of one identity make a session return more than it charged |
| Session.WrittenArtifactsResolve | crates/o7-a1-cas/src/session.rs:415-485 | what `put_envelope` returned resolves in a session with room, to the first accepted envelope and its payload |
| RealizationGate.Report.Add | tools/a1_v2_ledger_gate.py:174-186 | a failed check sets exactly one of the two flags |
| RealizationGate.ClassesDetermined | tools/a1_v2_ledger_gate.py:330-340 | the class dictionary detects exactly the source-target pairs with two classes |
| RealizationGate.LedgerCheck | tools/a1_v2_ledger_gate.py:344-397 | closed roles and no repeated row |
| RealizationGate.SchemaCheck | tools/a1_v2_ledger_gate.py:380-392 | each event kind and each field path declared once |
| RealizationGate.PayloadCheck | tools/a1_v2_ledger_gate.py:416-497 | presence map, committed kinds, exact digest counts per pair, and digest paths |
| RealizationGate.FieldCheck | tools/a1_v2_ledger_gate.py:499-535 | on well-formed facts, each field's source and whole target domain are its carriers' |
| RealizationGate.RunSteps | tools/a1_v2_ledger_gate.py:291-561 | errored exactly when class is ambiguous, failed exactly when the declarative realization does not hold |
| RealizationGate.Gate | tools/a1_v2_ledger_gate.py:193-195 | exit code 2, 1 or 0 exactly as the verdict says, error dominating |
| RealizationGate.GatePassesExactly | tools/a1_v2_ledger_gate.py:291-561 | exit 0 exactly when every condition on rows, kinds, payloads, digests, fields, meta-targets and edges holds, each written out |
| RealizationGate.TriplesAreEdges | tools/a1_v2_ledger_gate.py:537-559 | PASS means that carrier triples and frozen edges are the same set |
| RealizationGate.OneDigestPerPayload | tools/a1_v2_ledger_gate.py:416-497 | PASS means exactly one digest row per payload-bearing kind, to its own payload, at the schema's path |
| RealizationGate.DigestRowIsRequired | tools/a1_v2_ledger_gate.py:416-497 | PASS means there are no other digest rows |
| RealizationGate.FieldTargetsExactly | tools/a1_v2_ledger_gate.py:516-535 | PASS means a field may carry exactly the members of the meta-targets and the plain targets its carriers name |
| RealizationGate.TargetsAreLicensed | tools/a1_v2_ledger_gate.py:499-559 | PASS means every concrete target of a field is licensed by a frozen edge from its source, as the target itself or as a member of a meta-target |
| RealizationGate.OtherEdgesAreFields | tools/a1_v2_ledger_gate.py:499-559 | PASS means every non-payload edge is carried by an extracted field of its source that allows its whole target domain |
| RealizationGate.ClassFreeKeyIsAdequate | tools/a1_v2_ledger_gate.py:316-340 | no path has two reference rows with one source and target, so leaving class out loses nothing |
| RealizationGate.PayloadsAgree | tools/a1_v2_ledger_gate.py:403-434 | PASS means that the schema has each frozen event kind with the frozen payload |
| RealizationGate.OrderDoesNotMatter | tools/a1_v2_ledger_gate.py:291-561 | the exit code is the same for every order of carriers, fields, event kinds and edges |
| GitOutput.CheckNoDirtySubmodule | src/worktree.rs:260-328 | the record walk accepts exactly the specified segment lists |
| GitOutput.StatusExactly | src/worktree.rs:260-328 | printed entries are accepted exactly when no submodule field starting with `S` differs from clean, whatever a rename's original path holds |
| GitOutput.AcceptedExactly | src/worktree.rs:260-328 | an arbitrary byte string is accepted exactly when it is the printing of clean well-formed entries, up to the very last NUL |
| GitOutput.GitlinkEntries | src/worktree.rs:122-145 | the set collected from arbitrary output is that of its records' gitlinks |
| GitOutput.ReadListing | src/worktree.rs:122-145 | reading a printed listing back gives exactly its mode-160000 paths and object ids, paths byte for byte |
| GitOutput.GitlinkOfExactly | src/worktree.rs:122-145 | which arbitrary records count as a gitlink, and of which path and object id |
| GitOutput.NoGitlinkMutation | src/worktree.rs:162-176 | accepted exactly when base and candidate have the same gitlink map |
| Candidate.DiffThenApply | src/worktree.rs:529-554 | a captured difference applies to its base and gives the captured tree back |
| Candidate.EmptyDiff | src/worktree.rs:590-598 | an empty patch means exactly that the tree is the base, so skipping git for it is right |
| Candidate.AppliesExactly | src/worktree.rs:584-640 | a captured difference applies exactly to trees with the old side of every changed path, and changes only those paths |
| Candidate.GitlinksAreListed | src/worktree.rs:122-145 | a tree's gitlinks are those the listing reader finds in any listing of it |
| Candidate.GitlinksAgreeExactly | src/worktree.rs:162-176 | no mutation means that every path is a submodule at one object id in both trees or in neither |
| Candidate.Worktree.Capture | src/worktree.rs:488-558 | patch and tree are those of the staged files, ignored untracked ones left out, whatever happens to the live index after the snapshot; refused exactly on hidden flags, dirty submodules or gitlink changes |
| Candidate.Worktree.Apply | src/worktree.rs:584-701 | accepted exactly when the patch applies and the checks hold; then files and tree id are the patched base |
| Candidate.MaterializeInto | src/main.rs:915-1022 | the steps of materialization compute the materialized tree or the first failing check |
| Candidate.WriteReceipt | src/main.rs:742-783 | a capture writes exactly the receipt of the staged files under the run's own contract |
| Candidate.CapturedIsContinuable | src/main.rs:835-885 | an honestly captured run passes every check of its children, tree recheck included |
| Candidate.Continuity | src/main.rs:835-1022 | in a conversation of any length every run carries the first contract and base, each patch gives its captured tree, and each child starts from its parent's tree |
| Candidate.AlwaysContinuable | src/main.rs:835-1022 | the last run of any conversation can be continued |
| Candidate.MaterializedAsDeclared | src/main.rs:1009-1019 | whatever a run directory claims, a child starts only from the tree its receipt names |
| GateRun.Validate | src/gate.rs:72-95 | accepts exactly non-blank, distinct names with distinct sanitized log names |
| GateRun.SanitizeSafe | src/gate.rs:201-211 | sanitized names consist of ASCII letters, digits, dash and underscore, every other character becomes a dash, plain names are kept, sanitizing twice changes nothing |
| GateRun.RecordDir.RunOneStep | src/gate.rs:126-198 | pass, fail and error exactly as the step's command succeeded, failed or did not spawn, and its output under its own log name unless skipped |
| GateRun.LiveGates | src/main.rs:1229-1271 | the live loop's events and results for any outcomes |
| GateRun.RunManifest | src/gate.rs:109-117 | the batch results and the files the batch leaves |
| GateRun.EvidenceSurvivesExactly | src/gate.rs:72-117 | every step's log survives the batch exactly when no log is overwritten with other bytes |
| GateRun.ValidMeansNoOverwrite | src/gate.rs:72-95 | a validated manifest never overwrites a log |
| GateRun.BatchGates | src/events.rs:215-234 | the events built afterwards equal the live ones when every log survived |
| GateRun.BatchRun | src/gate.rs:109-117 | the batch path refuses exactly invalid manifests before writing anything and otherwise builds the same gate events as the live loop |
| GateRun.BuildContract | src/events.rs:74-113 | succeeds exactly on valid manifests, with one obligation per step |
| GateRun.LiveAgreesWithBatch | src/main.rs:1100-1274 | without session and candidate events the live stream is the batch stream, event for event |
| GateRun.PassExactly | src/verdict.rs:35-53 | each ad-hoc verdict said of what the commands did; pass exactly when nothing failed to spawn and every required command succeeded or was skipped under a waiver |
| GateRun.BatchVerdict | src/events.rs:191-238 | the batch stream is accepted and canonically PASS exactly on a clean agent exit with every required command succeeding or skipped under a waiver |
| GateRun.LiveVerdict | src/main.rs:1100-1287 | the live stream is accepted with the same canonical verdict |
| GateRun.ReductionsAgreeExactly | src/verdict.rs:20-53 | for every exit code, exactly when the ad-hoc and the canonical verdict agree |
| Judge.Dedupe | src/judge.rs:410-438 | the indexed pass equals plain grouping by id in first-seen order |
| Judge.LinesConserved | src/judge.rs:410-438 | every selected finding's line is kept exactly once: the lines held and the lines found are the same multiset |
| Judge.GroupByFile | src/judge.rs:449-457 | files in the order their first representatives come, each with exactly its representatives |
| Judge.EachFileOnce | src/judge.rs:522-566 | for every interleaving of the workers each file is judged exactly once |
| Judge.JudgeOneFile | src/judge.rs:785-816 | each kept verdict goes to the finding at its position when counts match, else to the one its complete echo names, the last winning; unknown classes are counted malformed, one by one |
| Judge.Merge | src/judge.rs:572-593 | the drained overlay, class counts, skipped and malformed totals |
| Judge.SumsAgree | src/judge.rs:572-593 | totals over all files are the same for every schedule |
| Judge.ScheduleIndependentExactly | src/judge.rs:516-593 | the overlay is the same for all schedules exactly when no two files answer differently for one id |
| Judge.JudgePool | src/judge.rs:516-593 | with matching counts overlay and class counts are schedule-independent, class counts are those of the overlay, and overlay size plus malformed equals the ids of the non-skipped files |
| Judge.OverlayExactly | src/judge.rs:463-593 | end to end for every schedule: with matching counts each finding shown is in the overlay exactly when the answer at its position has a known class, with that class and detail and all its lines |
| Judge.OverlayIsAnswered | src/judge.rs:190-219 | counts matching or not, every overlay entry is an answer meant for that finding, with that answer's class and detail |
| Judge.KeyTableAt | src/judge.rs:470-473 | key recovery finds exactly the last representative with the path, line and rule |
| Judge.SurplusCrossesFiles | src/judge.rs:190-219 | with a surplus verdict key recovery can answer for another file's finding, so schedules can differ |

## Left out

- Which of several errors the reducer, a session or materialization reports: acceptance is exact, error identity is not stated everywhere.
- Policy obligations, sandbox requirements and their events in the reducer: contracts built by this program declare none, so the reducer always refuses those events.
- Lock-loser polling in `crates/o7d/src/routes.rs`: it only decides what a losing request answers.
- Branches deleted from the repository by hand, and processes given another ledger, repository or runs directory: nothing in the program shares state across those.
- Staleness of commands: the model lets a redrive begin at any time, which includes every staleness rule.
- Provider session backfill, conversation creation and stuck-command reports in recovery: easy members.
- `cancel_run`, `interrupt_run`, `set_attempt_status` and `resume_interrupted_run` as steps of the transition system: nothing in the program calls them; the last is covered by a lemma.
- Other runs in the same ledger: notes and rows are keyed by run id and do not interact.
- Dispatch bookkeeping: any other change of a command's status or timestamp is one unconstrained step, so nothing is claimed about which status a command ends in.
- Scalar grammars, JSON text, media type parsing beyond the typed prefix, and the wire error texts.
- `BudgetPolicy.digest`: its framing is an instance of the list framing proved injective.
- Resolved values beyond the stored object: traversal of a closure is not implemented in the original either.
- `ArtifactRef` bounds in the store: a payload above 1 MiB can be stored while no reference of that size can be built; the round trip is stated for the returned key and size.
- Preflights, loading and report texts of the realization gate.
- Non-ASCII headers in `ls-tree` output: headers are ASCII in git, so lossy decoding is the identity.
- Rename detection and file modes inside git patches: a patch is the map of differing entries.
- The hidden-flag reader over `ls-files -v`: its outcome is a field of the worktree.
- Judge prompts, retries, cost sums, confidence values, warnings and finding id truncation: ids are an arbitrary function.
- Process spawning, timeouts, HTTP, terminal output, the q-deck web application and the linting tools.
