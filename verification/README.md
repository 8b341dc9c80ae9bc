# Olympus: a verified model of its state machines

Olympus is a control plane for a mesh of nodes. This project models, in Dafny, the
parts of it whose correctness depends on several operations keeping one invariant
together, and proves what the code promises about whole runs of them.

- **Jobs** (`job_frames`, `result_ledger`, `node_agent`, `node_session`,
  `job_protocol`): the control plane, one node and the connections between them as
  a step system with retries, cancels, lost frames, disconnects and restarts.
- **Handshake** (`handshake`): the mutual signed challenge with an attacker who owns
  the channel.
- **Authority** (`authority`, `authority_runs`, `authority_decisions`,
  `authority_replay`, `authority_repository`, `ceremonies`, `ceremony_outcomes`): leases, freezes, challenges, admissions and
  their audit log, and the WebAuthn ceremonies that interleave over them.
- **Audit export** (`export_keys`, `audit_segments`, `audit_export`,
  `audit_verification`, `audit_exporter`, `signing`): segmenting, write-once storage,
  resumable export, verification, restore and signed chains.
- **Graphs** (`graph_compiler`): the layered topological sort.
- **Node mesh** (`hash_chain`, `mesh_store`, `registry`, `registry_runs`,
  `registry_decisions`, `registry_object`, `selection`): transactions, enrollment,
  sessions, lifecycle, the kill switch and node selection, up to the file a dispatch
  may touch.
- **Files** (`posix_paths`, `path_walk`, `scopes`, `atomic_write`): lexical paths,
  scopes, and the crash-safe write.
- **Effects and authorization** (`effects`, `authorization`): at-most-once effects,
  budget, approvals and schedules.

Code that updates objects step by step is a class whose methods are proved against
functions on values; what holds over runs is proved about those functions. History
fields (executions, outcomes, touches, applied keys, allowed requests) record what
happened and are never read by the operations.

Idealisations: Ed25519 (section 5.1 of RFC 8032) is unforgeable and a signature is
the key and the statement; SHA-256 over canonical JSON is a function parameter,
required injective where a result needs it; times are integers; session ids, node
and token ids and nonces are fresh where the code draws them at random; clocks,
provider answers, listing orders, partial writes and failures are parameters.
`PythonText` and `Lexical` hold the `str` behaviour the code relies on.

Where code and documentation differ the code is followed. The segment key is
documented as ordering like its sequence numbers; that holds below 10^12, fails from
there for some pairs, and the exact condition for a pair is proved. A recovery lifts
the freeze and writes an audit event, but when the new lease id is taken the method
raises with the flag already cleared and no event written; the exact condition is
proved. A cancel reaches every task its job waits for unless the same job id waits
under two keys, since the agent records one key per job.

`dafny verify dfyconfig.toml` checks everything.

## Model

| member | source | states |
|---|---|---|
| JobProtocol.OutcomesComeFromTheSameJob | src/olympus/node_agent/agent.py:448-574 | In every run of submits, retries, cancels, disconnects, reconnects and agent restarts, an outcome given to a workflow is addressed to its job and attempt and either refuses a dispatch of that same job that was turned away or tells the status, output, artifacts, message and times with which one execution of that same job ended, the reason empty exactly when it succeeded |
| JobProtocol.InvariantHolds | src/olympus/nodes/session.py:260-302 | Every reachable state of control plane, connections and agent keeps dedupe keys honest, results traceable to executions and the agent sound |
| JobProtocol.ExecutionsDoNotOverlapOrRepeatEarly | src/olympus/node_agent/agent.py:470-499 | In every run no two live executions share a dedupe key, and a key that was recorded starts again only after at least `capacity` distinct other keys displaced it |
| JobProtocol.HandleStaysHonest | src/olympus/nodes/session.py:290-302 | A result settles a pending job only with a frame of its own dedupe key, so pending results stay traceable whatever frame arrives |
| JobProtocol.SubmitStaysHonest | src/olympus/nodes/session.py:362-415 | A dispatched frame carries the dedupe key derived from its job, capability and parameters |
| JobProtocol.CancelsHitTheirJob | src/olympus/node_agent/agent.py:434-446 | In every run a cancel marks nothing but one live task that the named job waits for |
| JobProtocol.IndexedHolds | src/olympus/node_agent/agent.py:484-499 | In every run each job on record is served by the live task its key names, and waits for it |
| NodeAgent.AcceptKeepsSound | src/olympus/node_agent/agent.py:448-499 | Admission, replay, joining and starting keep the task table, the running index and the ledger mirrored and most-recent |
| NodeAgent.FinishKeepsSound | src/olympus/node_agent/agent.py:501-574 | Completion records unless cancelled, clears both indexes and keeps the ledger holding the most recently touched keys |
| NodeAgent.RestartKeepsSound | src/olympus/node_agent/agent.py:121-168 | A restart starts sound |
| NodeAgent.OneExecutionPerKey | src/olympus/node_agent/agent.py:470-499 | Two live tasks with the same dedupe key are the same task |
| NodeAgent.RerunNeedsDisplacement | src/olympus/node_agent/agent.py:470-499 | Accepting a key that was touched before starts it again only if at least `capacity` distinct other keys were touched since |
| NodeAgent.HeldResultIsReplayed | src/olympus/node_agent/agent.py:470-482 | While the result of a key is held, accepting it again runs nothing and sends a marked copy addressed to the new attempt |
| NodeAgent.TurnedAwayExactly | src/olympus/node_agent/agent.py:448-468 | A dispatch is answered with a refusal, and changes nothing else, if and only if its capability is not provided or not granted |
| NodeAgent.ServedIsExecutedOnce | src/olympus/node_agent/agent.py:484-499 | A dispatch that is neither refused nor replayed joins the running task of its key or starts the only one, and is acknowledged accordingly |
| NodeAgent.FinishRecordsResult | src/olympus/node_agent/agent.py:569-570 | A run that was not cancelled is recorded and persisted with its own status and body; a cancelled one is not, and other entries keep their frames |
| NodeAgent.FinishForgetsTask | src/olympus/node_agent/agent.py:571-573 | Completion removes the running entry, its key and exactly the jobs that waited for it |
| NodeAgent.FinishTellsEveryWaiter | src/olympus/node_agent/agent.py:572-574 | Each waiter, in joining order, is sent a frame addressed to it that tells the run's own status and body |
| NodeAgent.ResultsSurviveRestart | src/olympus/node_agent/agent.py:121-168 | A restart forgets everything but the persisted results, and those too when the file is another node's |
| NodeAgent.CancelMarksAWaitedTask | src/olympus/node_agent/agent.py:438-442 | A cancel marks only a live task the job waits for |
| NodeAgent.CancelMarksExactly | src/olympus/node_agent/agent.py:438-442 | Where each waiting job is on record under its key, a cancel marks exactly the tasks the job waits for |
| NodeAgent.AcceptKeepsIndexed | src/olympus/node_agent/agent.py:484-499 | Accepting keeps every job on record served; it keeps every waiting job on record if the job waits under no other key |
| NodeAgent.FinishKeepsIndexed | src/olympus/node_agent/agent.py:571-573 | Completion keeps every job on record served and every waiting job on record |
| NodeAgent.AgentProcess.AcceptJob | src/olympus/node_agent/agent.py:448-482 | Refuse, replay or hand on a dispatched job; the new agent state is the admission step and stays valid |
| NodeAgent.AgentProcess.JoinOrStartJob | src/olympus/node_agent/agent.py:484-499 | Join the running copy of the key or start the only one |
| NodeAgent.AgentProcess.HandleCancel | src/olympus/node_agent/agent.py:434-446 | A cancel frame marks exactly the task serving that job |
| NodeAgent.AgentProcess.FinishJob | src/olympus/node_agent/agent.py:555-574 | The end of a run: ledger, file, indexes and notifications change as the completion step says, which FinishRecordsResult, FinishForgetsTask and FinishTellsEveryWaiter pin field by field |
| NodeAgent.NotifyWaiters | src/olympus/node_agent/agent.py:572-574 | Every waiter gets its own copy of the terminal frame, in joining order |
| ResultLedger.Ledger.Get | src/olympus/node_agent/agent.py:105-109 | A hit returns the frame and makes the key the youngest; a miss changes nothing |
| ResultLedger.Ledger.Put | src/olympus/node_agent/agent.py:111-116 | Insert at the young end and drop from the old end while over capacity |
| ResultLedger.Ledger.DropOldest | src/olympus/node_agent/agent.py:114-115 | The eviction loop keeps exactly the last `capacity` entries |
| ResultLedger.HitKeepsMostRecent | src/olympus/node_agent/agent.py:105-109 | After a hit the ledger still holds the `capacity` most recently touched keys in order |
| ResultLedger.RecordKeepsMostRecent | src/olympus/node_agent/agent.py:111-116 | After a put the ledger still holds the `capacity` most recently touched keys in order |
| ResultLedger.AbsenceMeansDisplaced | src/olympus/node_agent/agent.py:105-116 | A touched key that is no longer held was displaced by at least `capacity` distinct keys touched since |
| ResultLedger.SuffixIsTouchedSince | src/olympus/node_agent/agent.py:105-116 | Behind a key in recency order stand exactly the keys touched since its last touch |
| NodeSession.SessionObject.DispatchJob | src/olympus/nodes/session.py:362-400 | Refuses a closed session, a duplicate job and an exceeded concurrency bound; otherwise registers the pending job and emits its frame |
| NodeSession.SessionObject.HandleFrame | src/olympus/nodes/session.py:260-302 | Acknowledgements and results touch only the pending job they name, and a result only once and only with matching attempt and key |
| NodeSession.SessionObject.Shutdown | src/olympus/nodes/session.py:497-507 | Closing fails every unsettled job and leaves the settled ones to be collected |
| NodeSession.SettledOnce | src/olympus/nodes/session.py:290-302 | Once a job is settled no later frame changes what its waiter is given |
| Handshake.EstablishedSessionHasPartner | src/olympus/nodes/session.py:159-217 | With the attacker owning the channel, a completed session of a node whose key is not compromised has exactly one run of that node that accepted this session's genuine proof, signed this session's nonce and declared the recorded capabilities; who may be established at all is stated by OnlyEnrolledNodesAreEstablished |
| Handshake.DistinctSessionsDistinctProofs | src/olympus/nodes/session.py:159-217 | Distinct completed sessions have distinct node proofs and distinct partner runs |
| Handshake.OnlyEnrolledNodesAreChallenged | src/olympus/nodes/session.py:159-193 | A session is challenged only by a hello in the right protocol from a node then enrolled and unrevoked, under its registered key |
| Handshake.OnlyEnrolledNodesAreEstablished | src/olympus/nodes/session.py:194-217 | A session becomes established only by an attestation naming it, for a node enrolled and unrevoked in the state before that step |
| Handshake.NoSessionAfterRevocation | src/olympus/nodes/session.py:169-170 | In every run, once a node is revoked no later step establishes a session for it |
| Handshake.SessionsUseRegisteredKeys | src/olympus/nodes/session.py:166-217 | In every run each session checks proofs under the key its node enrolled with |
| Handshake.OnlyGenuineChallengesAreAnswered | src/olympus/node_agent/agent.py:334-391 | A node attests only to a challenge under the pinned key id carrying the control plane's proof over this session and this run's nonce |
| Handshake.UndisturbedHandshakeCompletes | src/olympus/nodes/session.py:159-217 | Whatever went before, hello, challenge and attestation delivered unaltered establish the session and make the two ends partners |
| Handshake.InvariantHolds | src/olympus/node_agent/agent.py:334-391 | In every run each signature of an uncompromised key was made by the end it names, and established and attested ends hold the proofs they checked |
| Authority.InvariantHolds | src/olympus/authority/repository.py:225-567 | Every reachable repository state has one live lease at most, epochs that the log counts and a verifying log |
| Authority.ApplyKeepsInvariant | src/olympus/authority/repository.py:237-468 | Each repository operation keeps that invariant, also where it raises after a partial change |
| AuthorityRuns.AtMostOneLiveLease | src/olympus/authority/repository.py:495-552 | An unrevoked lease is the active one, carries the current authority epoch, and does not exist while frozen |
| AuthorityRuns.NoAdmissionUnderStaleLease | src/olympus/authority/repository.py:408-437 | A fresh admission never cites a lease known before the latest freeze or replacement |
| AuthorityRuns.EpochMovesOnlyWithLeasesAndFreezes | src/olympus/authority/repository.py:439-461 | Across every step the authority epoch moves by the leases issued plus the freezes |
| AuthorityRuns.AdmissionsArePermanent | src/olympus/authority/repository.py:408-437 | A granted admission never changes: repeating it with the same digest returns the same receipt, marked duplicate, and changes nothing |
| AuthorityRuns.ChallengeConsumedAtMostOnce | src/olympus/authority/repository.py:507-522 | Two steps of a run that consume the same challenge are the same step |
| AuthorityRuns.RunContinues | src/olympus/authority/repository.py:237-567 | Between any two points of a run leases only end, challenges are only consumed, admissions and past events stay, epochs never fall |
| AuthorityDecisions.AdmitsExactly | src/olympus/authority/repository.py:408-437 | When an unknown interaction is admitted, field by field, and that only its receipt is stored |
| AuthorityDecisions.RepeatsChangeNothing | src/olympus/authority/repository.py:408-415 | A repeat with the same digest gets the receipt marked duplicate, another digest is denied, and neither changes anything |
| AuthorityDecisions.FreshAdmissionsAreAuthorized | src/olympus/authority/repository.py:408-437 | At every step of every run a fresh grant happens exactly under the live, unexpired lease for that commander, guild and channel scope |
| AuthorityDecisions.CreatesExactly | src/olympus/authority/repository.py:237-246 | A challenge is stored exactly when neither its id nor its digest was seen |
| AuthorityDecisions.ConsumesExactly | src/olympus/authority/repository.py:507-522 | A challenge is consumed exactly when known under that digest, unused and not past its expiry |
| AuthorityDecisions.IssuesExactly | src/olympus/authority/repository.py:524-552 | A lease is issued exactly when not frozen and the id is new; every unrevoked lease ends and the new one carries the requested terms and the next epoch |
| AuthorityDecisions.RegistersExactly | src/olympus/authority/repository.py:290-314 | A credential is enrolled exactly with an open challenge and a new id; an open challenge is spent either way |
| AuthorityDecisions.AuthenticatesExactly | src/olympus/authority/repository.py:316-336 | A lease is issued exactly with an open challenge and a credential whose counter did not go back, while not frozen; challenge and counter move even where issuing fails |
| AuthorityDecisions.RecoversExactly | src/olympus/authority/repository.py:350-406 | A recovery succeeds exactly with an open recovery challenge, the current freeze epoch, a usable credential and a new lease id; it then thaws under a new lease and logs it |
| AuthorityDecisions.FreezesExactly | src/olympus/authority/repository.py:439-461 | A freeze ends every lease, advances both epochs by one and logs it; repeating it changes nothing |
| AuthorityReplay.LogReplaysEpochs | src/olympus/authority/repository.py:439-461 | Both epochs and the number of leases can be recounted from the audit log alone in every reachable state |
| AuthorityReplay.LogReplaysFreezeFlag | src/olympus/authority/repository.py:381-401 | With fresh lease ids the log alone tells whether the authority is frozen, and freezes outnumber recoveries by one exactly while it is |
| AuthorityReplay.FlagReplaysUnlessRecoveryLost | src/olympus/authority/repository.py:362-382 | A step keeps flag and log in agreement if and only if it is not a valid recovery whose lease id is taken |
| AuthorityReplay.ReusedLeaseHidesThaw | src/olympus/authority/repository.py:362-382 | A concrete run with a reused lease id after which the authority is thawed while its log reads frozen |
| AuthorityRepository.Repository.AddChallenge | src/olympus/authority/repository.py:237-246 | Stores a challenge under a new id or refuses, as the operation step says |
| AuthorityRepository.Repository.Consume | src/olympus/authority/repository.py:507-522 | Consumes a known, matching, unexpired, unconsumed challenge or names the reason it does not |
| AuthorityRepository.Repository.AppendAudit | src/olympus/authority/repository.py:554-567 | Appends one event linked to the previous hash |
| AuthorityRepository.Repository.RevokeActiveLease | src/olympus/authority/repository.py:495-505 | Ends the active lease and leaves none active |
| AuthorityRepository.Repository.Issue | src/olympus/authority/repository.py:524-552 | Issues a lease under a new epoch, ending the previous one, unless frozen or the id is taken |
| AuthorityRepository.Repository.Register | src/olympus/authority/repository.py:290-314 | Consumes the challenge, then enrols the credential or raises with the challenge spent |
| AuthorityRepository.Repository.Authenticate | src/olympus/authority/repository.py:316-336 | Consumes the challenge, checks and advances the counter (section 6.1.1 of W3C Web Authentication Level 2), issues a lease |
| AuthorityRepository.Repository.Recover | src/olympus/authority/repository.py:350-406 | Consumes the recovery challenge before anything else can fail and then lifts the freeze |
| AuthorityRepository.Repository.ClearFreeze | src/olympus/authority/repository.py:362-406 | Lifts only the named freeze epoch, with a usable credential, and issues the new lease; the flag stays cleared if that fails |
| AuthorityRepository.Repository.AdmitInteraction | src/olympus/authority/repository.py:408-437 | Returns the stored receipt for a repeat, refuses a conflicting repeat; an unknown interaction is admitted if and only if not frozen and the request names an unrevoked, unexpired lease of the current epoch for the same commander, guild and channels |
| AuthorityRepository.Repository.FreezeAuthority | src/olympus/authority/repository.py:439-461 | Freezes once per epoch: both epochs advance, the active lease ends, a repeat changes nothing |
| AuthorityRepository.Repository.ActiveLease | src/olympus/authority/repository.py:463-468 | Returns the unrevoked lease, which is the only one |
| Ceremonies.RecoveryLiftsOnlyItsOwnFreeze | src/olympus/webauthn/service.py:222-340 | Under any interleaving of ceremonies, freezes and admissions, every lifted freeze was lifted by a recovery begun under that freeze epoch, and no epoch is lifted twice |
| Ceremonies.NoChallengeConsumedTwice | src/olympus/webauthn/service.py:171-340 | Under any interleaving each challenge is consumed at most once |
| Ceremonies.HonestHolds | src/olympus/webauthn/service.py:127-360 | In every interleaving the ceremonies in flight hold stored challenges with the payload they were created with |
| CeremonyOutcomes.LoadsExactly | src/olympus/webauthn/service.py:134-294 | A challenge is taken up exactly for the purpose it was made for, a recovery's only while its stored payload has the stored digest |
| CeremonyOutcomes.AnomalyFreezes | src/olympus/webauthn/service.py:190-312 | An answer from another credential or with a counter that went back freezes the authority and neither issues a lease nor spends the challenge |
| CeremonyOutcomes.EveryLeaseHasServiceTerms | src/olympus/webauthn/service.py:190-340 | In every interleaving a lease no operator issued directly is for the service's commander, guild and channels, for its lifetime, and tied to the credential that answered |
| CeremonyOutcomes.BeginningStoresChallenge | src/olympus/webauthn/service.py:222-267 | Beginning under a freeze stores one open challenge for exactly that freeze epoch, whose payload matches its digest |
| CeremonyOutcomes.CompletingLifts | src/olympus/webauthn/service.py:303-340 | Completing with an open challenge for the current freeze and a usable credential lifts it and grants the service's lease |
| CeremonyOutcomes.UndisturbedRecoveryLifts | src/olympus/webauthn/service.py:222-340 | After any run, a recovery begun under the freeze and answered in time with nothing in between lifts exactly that freeze and leaves a live lease with the service's terms |
| ExportKeys.KeysSortNumerically | src/olympus/audit_export/models.py:57-65 | Below 10^12 the listing order of segment keys is the order of their sequence numbers |
| ExportKeys.KeyOrderExactly | src/olympus/audit_export/models.py:57-65 | For any two segments the earlier one is listed first if and only if its number is at most the leading digits of the later one's |
| ExportKeys.KeyParsesBack | src/olympus/audit_export/exporter.py:106-117 | The high-water mark read from a key is the last sequence the key was built from |
| ExportKeys.SegmentKeyIsNoSidecar | src/olympus/audit_export/exporter.py:96-104 | A segment key never counts as a signature sidecar, a sidecar key always does |
| ExportKeys.OrderBreaksAtTenToTheTwelfth | src/olympus/audit_export/models.py:57-65 | From 10^12 on the documented ordering fails: the segment of event 10^12 is listed before that of event 10^12 - 1 |
| AuditSegments.BuildSegments | src/olympus/audit_export/models.py:86-120 | Selects, sorts, checks for gaps and cuts; errors for a gap, a zero step or an invalid segment |
| AuditSegments.Select | src/olympus/audit_export/models.py:96-96 | Keeps exactly the events after the high-water mark |
| AuditSegments.CheckGaps | src/olympus/audit_export/models.py:101-105 | True exactly when the sequence numbers are consecutive |
| AuditSegments.CutWindows | src/olympus/audit_export/models.py:107-120 | Cuts what is pending into consecutive windows of the given size |
| AuditSegments.SortPermutes | src/olympus/audit_export/models.py:99-99 | Sorting neither loses nor invents an event |
| AuditSegments.PendingIsTail | src/olympus/audit_export/models.py:86-105 | However the events of a gap-free log arrive, what is pending is the tail of the log in order |
| AuditSegments.SegmentsAreProper | src/olympus/audit_export/models.py:47-55 | Every segment built satisfies what the segment type insists on |
| AuditExport.ScheduleArchives | src/olympus/audit_export/exporter.py:119-165 | After any schedule of exports, crashed after any put or not, the store holds consecutive ranges of the log from its start and no other segment of the chain |
| AuditExport.ExportKeepsArchive | src/olympus/audit_export/exporter.py:119-165 | One run, crashed or not, leaves an archive reaching at least as far as before; a completed run reaches the last event it saw and reports it |
| AuditExport.CompletedExportReports | src/olympus/audit_export/exporter.py:136-194 | Where attestations stand only beside their segments, a completed run reports as exported exactly the events between the old high-water mark and its last sequence, writes nothing only if there are none, and adds, beside every segment it wrote, that segment's attestation when signing and no attestation otherwise |
| AuditExport.ExportNeverOverwrites | src/olympus/audit_export/exporter.py:136-157 | Whatever the store held and wherever a run crashes, nothing stored is replaced or removed |
| AuditExport.StoredSegmentIsCompared | src/olympus/audit_export/exporter.py:145-157 | A segment already stored is left as it is, listed as present when equal, and ends the run as rewritten when it differs |
| AuditExport.SignedRunsAttestEverything | src/olympus/audit_export/exporter.py:136-194 | After any schedule of completed signing runs every stored segment of the chain has its attestation beside it |
| AuditExport.ResumesAtHighWater | src/olympus/audit_export/exporter.py:106-117 | Storage alone tells where the last run stopped |
| AuditExport.AddOther | src/olympus/audit_export/exporter.py:167-194 | Sidecars and other chains' objects do not disturb a chain's archive |
| AuditVerification.ExportedChainVerifiesAndRestores | src/olympus/audit_export/exporter.py:238-312 | After every schedule verification reports intact with the event count equal to the last sequence, and restoring returns exactly the exported prefix of the log |
| AuditVerification.IntactMeansUnbroken | src/olympus/audit_export/exporter.py:238-301 | For any store, verification finds no problem if and only if the segments follow one another from sequence 1 and link up; then the event count is the last sequence |
| AuditVerification.UnbrokenEventsLink | src/olympus/audit_export/exporter.py:276-287 | For any store found intact, all stored events together link one to the next from the genesis hash |
| AuditVerification.GatherAll | src/olympus/audit_export/exporter.py:303-312 | Restoring gathers every stored segment's events in listing order |
| AuditExporterObject.WriteOnceStore.PutOnce | src/olympus/audit_export/store.py:64-78 | Stores under a new key or refuses; nothing stored is ever replaced |
| AuditExporterObject.WriteOnceStore.Get | src/olympus/audit_export/store.py:80-81 | Reads an object or reports its absence |
| AuditExporterObject.WriteOnceStore.ListKeys | src/olympus/audit_export/store.py:86-87 | Lists exactly the keys under a prefix, in ascending order |
| AuditExporterObject.AuditExporter.ListSegmentKeys | src/olympus/audit_export/exporter.py:96-104 | The ascending listing of the chain's keys without sidecars |
| AuditExporterObject.AuditExporter.LastExportedSequence | src/olympus/audit_export/exporter.py:106-117 | Zero for an empty chain, otherwise the last sequence the last key names |
| AuditExporterObject.AuditExporter.Export | src/olympus/audit_export/exporter.py:119-165 | One run over any events with a crash after any number of puts; store and report are those of the export step, and nothing stored before is replaced |
| AuditExporterObject.AuditExporter.WriteSegments | src/olympus/audit_export/exporter.py:136-165 | The export loop with its counters, stopped by a crash or by a stored segment that differs |
| AuditExporterObject.AuditExporter.WriteSegment | src/olympus/audit_export/exporter.py:140-157 | Put and, when signing, store the attestation beside it, adding nothing else; or find the object present and compare it |
| AuditExporterObject.AuditExporter.Verify | src/olympus/audit_export/exporter.py:238-301 | Reports intact exactly when the stored chain is unbroken |
| AuditExporterObject.AuditExporter.VerifySegment | src/olympus/audit_export/exporter.py:263-292 | Counts exactly the problems of one segment, including the early stop in its event loop |
| AuditExporterObject.AuditExporter.Restore | src/olympus/audit_export/exporter.py:303-312 | Gathers and sorts the stored events |
| Signing.AuthenticExactlyPrefixes | src/olympus/audit_export/signing.py:541-593 | Given unforgeable signatures and an injective digest, evidence of any origin is judged authentic if and only if it is, item for item, a prefix of the genuine export; its event count then equals its last sequence |
| Signing.RearrangedItemsAreUnforged | src/olympus/audit_export/signing.py:541-593 | Items of one genuine export in any order, with omissions and repeats, are authentic if and only if they form a prefix |
| Signing.VerifyExportedChain | src/olympus/audit_export/signing.py:541-593 | Stops at the first problem; the counted events always equal the last verified sequence |
| Signing.AcceptedFacts | src/olympus/audit_export/signing.py:439-518 | An accepted item has a statement of schema 1 and at most 4096 bytes about exactly this object, these bytes and this place in the chain, signed by a pinned Ed25519 key inside its window and not yet revoked when it signed |
| Signing.AcceptsExactly | src/olympus/audit_export/signing.py:439-518 | An item is accepted if and only if all of that holds, for any of the expectations left open |
| Signing.GenuineAccepted | src/olympus/audit_export/signing.py:439-518 | A genuine item is accepted where its segment belongs |
| Signing.SameAttestationSameItem | src/olympus/audit_export/signing.py:439-518 | An accepted item carrying a genuine attestation is the genuine item |
| Signing.SignedArchiveIsAuthentic | src/olympus/audit_export/exporter.py:196-236 | The signed segments of any archived chain form a genuine export, and every prefix of them is authentic up to its cut |
| Signing.CollectEvidence | src/olympus/audit_export/exporter.py:196-221 | Gathers, in listing order, every stored segment with its sidecar, or fails exactly when one of them is missing |
| Signing.CollectedIsAuthentic | src/olympus/audit_export/exporter.py:196-236 | The evidence collected from an archive whose segments are all attested is complete and judged authentic up to the high-water mark |
| Signing.SignedExportIsAuthentic | src/olympus/audit_export/exporter.py:119-236 | End to end: after any schedule of completed signing runs with an honestly kept key, the evidence can be collected and is judged authentic with as many events as were exported |
| GraphCompiler.TopologicalOrder | src/olympus/graphs/compiler.py:93-105 | Succeeds exactly when the dependency graph is acyclic, and then with the one order by longest dependency chain and node id |
| GraphCompiler.PlaceLayer | src/olympus/graphs/compiler.py:97-102 | Appends the ready nodes in id order |
| GraphCompiler.CompileExecutionGraph | src/olympus/graphs/compiler.py:12-56 | Every refusal in its order, otherwise the canonical order and the digest of the canonical encoding |
| GraphCompiler.ExceedsFanOut | src/olympus/graphs/compiler.py:35-39 | True exactly when some node has more dependents than allowed |
| GraphCompiler.CompilationIgnoresInputOrder | src/olympus/graphs/compiler.py:27-56 | Permuting the submitted nodes changes neither verdict nor order nor digest |
| GraphCompiler.CanonicalOrderUnique | src/olympus/graphs/compiler.py:93-105 | There is only one order by depth and id |
| GraphCompiler.DependenciesComeFirst | src/olympus/graphs/compiler.py:93-105 | In that order every dependency precedes its dependents |
| GraphCompiler.StuckMeansCycle | src/olympus/graphs/compiler.py:96-99 | When no node is ready but some remain, the graph has a cycle |
| GraphCompiler.BoundedChainsMeanAcyclic | src/olympus/graphs/compiler.py:93-105 | A graph whose nodes all got a depth has no cycle |
| HashChain.VerifyChain | src/olympus/authority/repository.py:479-493 | True exactly when numbers, links and hashes all match |
| HashChain.SharedHashMeansSharedHistory | src/olympus/nodes/audit.py:131-142 | Two verifying chains that share an event hash are equal up to that event, for an injective hash |
| HashChain.AppendKeepsChained | src/olympus/nodes/audit.py:157-166 | Appending a linked event keeps a chain verifying |
| MeshStore.VerifyChain | src/olympus/nodes/audit.py:131-142 | True exactly when sequence, links, payload digests and hashes all match |
| MeshStore.SharedEventMeansSharedHistory | src/olympus/nodes/audit.py:98-142 | Two verifying node-mesh chains that share an event hash agree up to that event |
| MeshStore.LinkAllKeepsVerifying | src/olympus/nodes/store.py:134-144 | Sealing any drafts onto a verifying chain extends it to a verifying chain |
| MeshStore.SealsEachDraft | src/olympus/nodes/audit.py:98-128 | Each draft becomes one event, in order, with its payload redacted and the digest taken of what is stored |
| MeshStore.CommitKeepsVerifying | src/olympus/nodes/store.py:128-144 | A commit keeps the chain verifying and its past in place; a transaction that wrote nothing changes nothing |
| MeshStore.Transaction.GetNode | src/olympus/nodes/store.py:93-96 | Reads see the transaction's own writes first |
| MeshStore.Transaction.GetToken | src/olympus/nodes/store.py:80-83 | Reads see the transaction's own writes first |
| MeshStore.Transaction.PutNode | src/olympus/nodes/store.py:98-99 | A write reaches the buffer and not the store |
| MeshStore.Transaction.Finish | src/olympus/nodes/store.py:128-144 | Applies all buffered writes and seals all drafts at once; until then, and if it is never reached, the store is unchanged |
| RegistryRuns.InvariantHolds | src/olympus/nodes/registry.py:172-727 | Every run of serialised transactions keeps records keyed, revoked nodes offline, nodes bound to the tokens they consumed, stored scopes parseable and the audit chain verifying |
| RegistryRuns.RevocationIsPermanent | src/olympus/nodes/registry.py:607-650 | A revoked node stays revoked at the same moment and never holds a session again; key, grant and scopes never change after enrollment |
| RegistryRuns.EnrollmentIsOneToOne | src/olympus/nodes/registry.py:287-361 | Nodes and consumed tokens correspond one to one and a node's identity is its token's grant |
| RegistryRuns.EachFreezeThawedOnce | src/olympus/nodes/registry.py:658-727 | A later successful thaw names a later freeze epoch, so each epoch is thawed at most once |
| RegistryRuns.RunEndures | src/olympus/nodes/registry.py:172-727 | Between any two points of a run nodes, spent tokens and past events stay |
| RegistryRuns.RecoveryIsIdempotent | src/olympus/nodes/registry.py:506-569 | Restart recovery leaves no session and no open job, keeps heartbeats, and a second recovery writes nothing, in whatever order records are listed |
| RegistryDecisions.RedeemsExactly | src/olympus/nodes/registry.py:287-376 | A redemption enrolls exactly when the token is known under that secret, unrevoked, unspent, unexpired and for that name, platform and kind; it adds one offline node bound to the key and the grant and spends that token, otherwise no record changes |
| RegistryDecisions.EveryNodeWasEntitled | src/olympus/nodes/registry.py:363-376 | In every run each node was added by a redemption entitled at that moment and still carries the presented key and that token's grant |
| RegistryDecisions.IssuesExactly | src/olympus/nodes/registry.py:172-252 | A token is stored exactly for a named, dispatchable, properly scoped grant within the lifetime limits while dispatch is open |
| RegistryDecisions.EveryTokenWasGrantable | src/olympus/nodes/registry.py:172-285 | In every run each token was minted from such a grant and still carries it |
| RegistryDecisions.EveryNodeTracesToAGrant | src/olympus/nodes/registry.py:172-376 | End to end: each node's capabilities and scopes are those of an earlier permitted issue, redeemed with its secret before its lifetime was over |
| RegistryDecisions.RevokesTokenExactly | src/olympus/nodes/registry.py:266-285 | Revoking marks a known, unrevoked token with the moment and changes no other record |
| RegistryDecisions.RevokedTokenEnrollsNobody | src/olympus/nodes/registry.py:266-376 | In every run a token revoked at some point enrolls no node from then on |
| RegistryDecisions.NodeAfterStep | src/olympus/nodes/registry.py:403-650 | What any step makes of an enrolled node |
| RegistryDecisions.SessionsMoveExactly | src/olympus/nodes/registry.py:403-569 | Which session a node holds after any step: opened by its own attach, cleared by its own detach, a sweep past the expiry, a restart or a revocation |
| RegistryDecisions.HeartbeatsMoveExactly | src/olympus/nodes/registry.py:403-477 | When a node was last heard from after any step, and what it then declares |
| RegistryDecisions.LifecycleMovesExactly | src/olympus/nodes/registry.py:584-650 | When any step quarantines, restores or revokes a node |
| RegistryDecisions.ControlMovesExactly | src/olympus/nodes/registry.py:658-727 | When any step freezes or thaws dispatch, and the epoch it leaves |
| RegistryDecisions.EveryBeatWasReported | src/olympus/nodes/registry.py:403-477 | In every run a node's last heartbeat was reported by it or is the opening of its own session |
| RegistryDecisions.EverySessionIsStillOpen | src/olympus/nodes/registry.py:403-569 | In every run a node's session was attached for it and since then neither detached nor revoked nor dropped by a restart |
| RegistryObject.NodeRegistry.IssueEnrollmentToken | src/olympus/nodes/registry.py:172-264 | Mints a token exactly for a permitted grant while dispatch is open; when frozen only the denial is recorded |
| RegistryObject.NodeRegistry.RevokeEnrollmentToken | src/olympus/nodes/registry.py:266-285 | Revokes a known token once |
| RegistryObject.NodeRegistry.RedeemEnrollmentToken | src/olympus/nodes/registry.py:287-361 | Succeeds exactly for an entitled redemption or for the key that already spent this token, which gets its own record; every refusal is recorded |
| RegistryObject.NodeRegistry.AttachSession | src/olympus/nodes/registry.py:403-443 | Binds a session to a known, unrevoked node |
| RegistryObject.NodeRegistry.DetachSession | src/olympus/nodes/registry.py:445-461 | Clears only the session that is current |
| RegistryObject.NodeRegistry.RecordHeartbeat | src/olympus/nodes/registry.py:463-477 | Accepts a heartbeat only from the current session |
| RegistryObject.NodeRegistry.SweepExpiredHeartbeats | src/olympus/nodes/registry.py:479-502 | Detaches exactly the sessions that fell silent, one event each |
| RegistryObject.NodeRegistry.RecoverAfterRestart | src/olympus/nodes/registry.py:506-569 | Clears every session and times out every open job |
| RegistryObject.NodeRegistry.ChangeLifecycle | src/olympus/nodes/registry.py:584-650 | Quarantine, restore and revoke; a revoked node is not restored and loses its session |
| RegistryObject.NodeRegistry.FreezeDispatch | src/olympus/nodes/registry.py:658-680 | Freezes under a new epoch; repeating it changes nothing |
| RegistryObject.NodeRegistry.UnfreezeDispatch | src/olympus/nodes/registry.py:682-727 | Thaws only the exact current epoch; a mismatch is recorded and changes nothing else |
| Selection.SelectNode | src/olympus/nodes/registry.py:867-934 | A pinned node is admitted or refused; otherwise the least loaded selectable record, or the failure the first empty filter or the missing approval names; a chosen node is neither revoked nor quarantined, connected, heard from within the expiry, granted and declaring the capability |
| Selection.AdmitsExactly | src/olympus/nodes/registry.py:786-835 | A dispatch is admitted exactly when open and the capability is dispatchable, granted, declared, in scope and approved on an answering node |
| Selection.OnlineIsAnswering | src/olympus/nodes/registry.py:741-750 | A node counts as online exactly when unrevoked, not quarantined, connected and heard from within the expiry |
| Selection.AdmittedNodesWereHeard | src/olympus/nodes/registry.py:741-835 | In every run work is admitted only to a node that attached a session not ended since and reported within the expiry |
| Selection.AppliedScopeIsGranted | src/olympus/nodes/registry.py:863-865 | The scope applied to a dispatch is the one the operator's document builds |
| Selection.FileDispatchStaysInGrant | src/olympus/nodes/scopes.py:258-300 | End to end: in every run a file operation admitted to a POSIX node names a path that normalises below a root an operator granted to that node, strictly below when writing, and asks for no more bytes than granted |
| Selection.SelectionIsLeastAdmissible | src/olympus/nodes/registry.py:867-934 | For a capability without approval the selected node is exactly the least by reported active jobs, none without a report, and then id, among those admission accepts at that instant, and selection fails exactly when there is none, for any listing order |
| Selection.SelectableIsDispatchable | src/olympus/nodes/registry.py:786-835 | Selection and admission accept the same nodes of a reachable mesh |
| Selection.NodeScopesParse | src/olympus/nodes/registry.py:863-865 | In a reachable mesh every node's stored scopes parse on its platform |
| Selection.SortedHeadIsLeast | src/olympus/nodes/registry.py:923-924 | The head of the sorted list is its least element |
| PosixPaths.NormalizePath | src/olympus/nodes/scopes.py:73-132 | Resolves dots with a stack and refuses empty, NUL, relative and root-escaping paths |
| PosixPaths.NormalizesExactly | src/olympus/nodes/scopes.py:73-132 | On POSIX exactly the absolute paths without NUL of which no prefix climbs above the root are accepted; the result is as deep as the components say and keeps exactly two leading slashes apart |
| PosixPaths.ResolvesExactly | src/olympus/nodes/scopes.py:108-130 | Resolving dots fails exactly when some prefix climbs above the start |
| PosixPaths.NormalizeIsIdempotent | src/olympus/nodes/scopes.py:73-132 | A normalised path, written out and normalised again, is itself |
| PosixPaths.NormalizedIsClean | src/olympus/nodes/scopes.py:108-132 | A normalised path is absolute and has no empty, dot or slash component |
| PosixPaths.ParseRender | src/olympus/nodes/scopes.py:132-132 | Writing a clean absolute path out and parsing it gives it back |
| PathWalk.NormalizedReachesSamePlace | src/olympus/nodes/scopes.py:73-132 | Whenever walking the raw path succeeds in a tree without symbolic links, walking the normalised path ends at the same place |
| PathWalk.WalkFollowsResolve | src/olympus/nodes/scopes.py:108-132 | Where a walk succeeds, the place it reaches is the lexical result |
| Scopes.ResolveInScope | src/olympus/nodes/scopes.py:185-194 | The first granted root containing the path decides; a write may not name the root itself |
| Scopes.ContainingRoot | src/olympus/node_agent/file_read.py:300-311 | The node finds a root for a path exactly when the scope has one, and the same one |
| Scopes.AcceptedPathIsBelowRoot | src/olympus/node_agent/file_write.py:127-130 | On POSIX an accepted path is a granted root followed by plain child steps, its root is found again, and a write target has a non-empty relative path |
| Scopes.AcceptsExactly | src/olympus/nodes/scopes.py:185-194 | A path is accepted if and only if it normalises into some granted root and, for writing, is not itself the first such root |
| Scopes.PrefixTest | src/olympus/node_agent/file_read.py:300-311 | Comparing a cut-off prefix and asking for containment are the same test |
| Scopes.EncodeScopes | src/olympus/nodes/registry.py:958-982 | Succeeds exactly when every document builds, and then stores documents that build again |
| Scopes.DocumentRoundTrip | src/olympus/nodes/scopes.py:196-220 | Reading a stored scope back gives the scope that was stored |
| Scopes.CanonicalBuilds | src/olympus/nodes/registry.py:958-988 | Stored scopes parse on the platform they were encoded for, to what was meant |
| AtomicWrite.FileSystem.Write | src/olympus/node_agent/file_write.py:188-221 | Succeeds if and only if the temporary name is free and every call does, and then the target durably holds the new content; if a call up to the rename fails the target looks as before; with a failure or crash at any step it holds its old state or the whole new content; no other file changes and the temporary name is gone unless unlinking failed |
| AtomicWrite.FileSystem.Fill | src/olympus/node_agent/file_write.py:208-212 | Writing in any pieces, flushing and syncing never touches the target and fails only where a call does |
| AtomicWrite.FileSystem.Replace | src/olympus/node_agent/file_write.py:213-213 | The rename shows the new content under the target and leaves every other file as it was |
| AtomicWrite.FileSystem.Settle | src/olympus/node_agent/file_write.py:214-215 | After the directory sync a crash can only leave the new content |
| AtomicWrite.InProgressIsSafe | src/olympus/node_agent/file_write.py:188-221 | The invariant of a write in progress rules out every torn or lost target, after a crash and to a reader |
| AtomicWrite.RenameCompletes | src/olympus/node_agent/file_write.py:213-213 | Renaming a synced file keeps the invariant and names the complete content |
| AtomicWrite.SyncDirectoryCompletes | src/olympus/node_agent/file_write.py:214-215 | After the directory sync a crash can only leave the new content |
| AtomicWrite.UnlinkStays | src/olympus/node_agent/file_write.py:216-221 | The clean-up keeps the invariant wherever the failure happened |
| AtomicWrite.UnsyncedRenameMayTear | src/olympus/node_agent/file_write.py:188-196 | Without the file sync before the rename a crash could leave anything under the target's name |
| Effects.EveryRunAppliesOnce | src/olympus/effects/ledger.py:60-158 | In every run each idempotency key reaches a provider at most once, the two indexes stay inverse, and compensation goes through at most once per effect |
| Effects.EveryStepMovesAsAllowed | src/olympus/effects/ledger.py:94-158 | Every step keeps all receipts and moves states only pending to confirmed or uncertain, uncertain to confirmed or failed, confirmed to compensated |
| Effects.ReceiptsTellWhatTheProviderSaid | src/olympus/effects/ledger.py:120-158 | In every run a receipt is confirmed only when the provider accepted the effect, with the text it gave, failed only when the answer was lost and the lookup found nothing, uncertain only when the answer was lost, pending only when no answer came |
| Effects.EffectExecutor.ReserveIntent | src/olympus/effects/ledger.py:65-86 | Returns the existing receipt for a known key with the same payload, refuses a different payload or a reused effect id, otherwise opens a pending receipt |
| Effects.EffectExecutor.TransitionTo | src/olympus/effects/ledger.py:94-108 | Moves one receipt and keeps a provider receipt already held |
| Effects.EffectExecutor.ExecuteIntent | src/olympus/effects/ledger.py:120-136 | Calls the provider exactly for a new receipt with a known adapter; the receipt is confirmed, uncertain or pending as the answer came, was lost or failed; a known key gets its receipt and changes nothing |
| Effects.EffectExecutor.ReconcileEffect | src/olympus/effects/ledger.py:138-149 | An uncertain effect becomes confirmed with the receipt the lookup found, or failed when it found none; nothing else changes |
| Effects.EffectExecutor.CompensateEffect | src/olympus/effects/ledger.py:151-158 | Compensates exactly a confirmed, compensatable effect whose provider succeeds |
| Authorization.InvariantHolds | src/olympus/governance/authorization.py:229-257 | In every run spending is the summed cost of allowed actions and within the ceiling, allowed privileged actions match approvals one to one, are untainted and bear the approved digest, and the audit log verifies |
| Authorization.OneActionPerApproval | src/olympus/governance/authorization.py:265-284 | No approval ever allows two privileged actions |
| Authorization.AllowedExactly | src/olympus/governance/authorization.py:229-321 | The ordered checks allow a request exactly when it is within the ceiling, its schedule is genuine, current, covers kind and payload and has runs left, and a privileged action has trusted inputs only and an unused, genuine, current approval of exactly that action |
| Authorization.EveryAllowedRequestWasCovered | src/olympus/governance/authorization.py:259-305 | In every run each allowed request that named a schedule had a genuine, current one covering its kind and payload, and each privileged one its own genuine approval and trusted inputs |
| Authorization.ScheduleLimitHolds | src/olympus/governance/authorization.py:286-305 | A schedule id used with one fixed limit is allowed at most that many times |
| Authorization.DenialChangesOnlyTheAudit | src/olympus/governance/authorization.py:252-254 | A denial appends one audit event and changes nothing else |
| Authorization.AuthorizationEngine.AuthorizeAction | src/olympus/governance/authorization.py:229-257 | Allows exactly what is permitted, by the first failing check in order; the new state is the decision step and stays valid |
| Authorization.AuthorizationEngine.Reserve | src/olympus/governance/authorization.py:208-213 | Reserves an amount exactly when the ceiling allows it |

## Left out

- Windows path rules: they enter as function parameters; the POSIX results do not extend to them.
- Progress and artifact frames, redaction and output bounding: they do not affect which result settles a job; a frame too large to encode is a lost frame here.
- Recency of the result ledger across agent restarts: a replay changes the order in memory but is not persisted, so recency is counted from what a restart loads.
- Liveness of the agent: an outbox overflow loses a frame, as in the code, and nothing is proved about progress.
- A freeze racing a dispatch: the steps after the re-check in `run_job` can interleave with a freeze.
- Concurrent exporters on one chain, and the presence of a sidecar after a crash between segment and signature.
- A gap directly after the exported high-water mark: `build_segments` starts from the first pending event, so schedules hand it a whole prefix of the chain.
- Stored JSON is taken as typed: a segment document, JSON of another shape, or no JSON at all.
- Signing.CollectEvidence: treats a stored object that is not a segment document like a missing one; the code would hand its bytes to the verifier.
- NodeAgent.CancelMarksExactly: needs every waiting job on record; AcceptKeepsIndexed says when a dispatch keeps that, CancelMarksAWaitedTask holds without it.
- AuthorityReplay.LogReplaysFreezeFlag: needs fresh lease ids; FlagReplaysUnlessRecoveryLost gives the exact condition without them.
- RegistryRuns.InvariantHolds: needs fresh token and node ids, which the code draws as UUIDs; a reused node id would replace the old record.
- The PostgreSQL store, S3, KMS and Temporal adapters: only the serialised transaction and the write-once map are modelled; the PostgreSQL store reads nodes without a row lock, so the registry results are not claimed for it.
- Approval verification for dispatches: the verdict on an approval is a parameter of selection and admission.
- AtomicWrite.FileSystem.Write: does not model other processes creating or replacing files in the directory during the write.
- The bounded read loop and directory listing of the file capabilities, and the handle walk below a root: they would only add easy members.
- Authorization amounts are reals: the 28-digit rounding of Python decimals is not modelled.
- HTTP and WebSocket routes, settings, consoles, burst and capacity planning, policy kernel and ownership registry.
