# A verified model of the credential-rotation system

This project models a client/proxy/server system whose identities rotate their signing and
encryption keys through a three-version window (VALIDATING, ACTIVE, FALLBACK), and proves what its
rotation protocol, replay protection, object transfer and wire format guarantee. Run
`dafny verify dfyconfig.toml` to check it.

The model follows the source's shape. Classes with mutable fields stand for the source's classes
(`Engine`, `CredentialRegistry`, `ServerCredential`, `Identity`, `Session`, `ReplayCache`,
`EnvelopeAuthenticator`, `Store`, `Client`, `Encoder`, `Decoder`, `Socket`); each method is proved to
do what a function of the old state says, and the theorems are about those functions over whole runs.
The `Outcomes` files say of each operation, in terms of the state alone, which refusal comes first,
every field of what is written and what is handed back.

| file | models |
|---|---|
| `Basics`, `Credentials`, `Owner` | options, results, credential records, timing parameters, key pairs |
| `RotationEngine` | the rotation state machine as a class over an insertion-ordered dictionary |
| `RotationRuns` | runs of the engine over records, the window invariant, and the proof that the dictionary's order never matters |
| `RotationOutcomes` | what each transition refuses, writes and returns |
| `RotationTheorems` | fallback period, bounded life, no resurrection, eager expiry, signer chain |
| `Registry`, `RegistryOutcomes`, `RegistryTheorems` | the credential table, atomic steps, enrollment and recovery |
| `ServerIdentity`, `ServerOutcomes`, `ServerLiveness` | the server's own rotation by periodic ticks, and when it never lapses |
| `ClientIdentity`, `ClientOutcomes`, `ClientSession`, `ClientServer`, `ClientServerLag`, `ClientServerCalls`, `ClientServerProgress`, `ControlHandlers`, `ControlOutcomes` | the client's mirror of the engine, its three exchanges, and both sides running together |
| `Replay`, `Authenticator` | the bounded replay cache, the authentication checks and who passes them |
| `ObjectStore`, `ObjectTransfer`, `ObjectOutcomes` | the append-only self-finalizing store and the upload and download loops |
| `Codec`, `TextEncoding`, `Envelopes`, `Protocol`, `Snapshots`, `Framing`, `WireLayout` | the canonical encoding, text, envelopes, messages, registry snapshots, frames over a stream, and where each byte sits |

## What is assumed

- Ed25519 is two uninterpreted functions, sign and verify. Only what has to succeed assumes that a key
  pair verifies what it signed (section 5.1 of RFC 8032): the liveness of a server's own rotation, a
  client's proposal, the completing of a rotation, an honest envelope. No theorem needs
  unforgeability: where it matters (authentication, the signer chain) the statement is that the
  signature verified. X25519 is an uninterpreted pairing of private and public keys.
- SHA-256 is an uninterpreted function to 64 hexadecimal digits. Encryption is not modelled: handlers
  receive the plaintext that opening undoes sealing to.
- Clocks are arguments. "Forward" runs assume a clock that never goes back; nothing assumes that two
  machines' clocks agree.
- A database transaction is one atomic update, a file a byte sequence, the network a choice of which
  requests and answers are lost, delayed or delivered.

## Where the code and its documentation differ

The model follows the code. Each point is a lemma below.

- "Exactly one ACTIVE" (SR-04, `credential_state.py:5`) is at most one: `LosesActiveIff` gives the two
  ways to lose it.
- "Never enters FALLBACK unless its validity covers the whole fallback period" (SR-14,
  `credential_state.py:12`) is met by extending the expiry, not by refusing: `CheckpointIff`. The
  extension is why a credential can live up to 2T - 2 seconds instead of 1.5 T: `BoundedLife`,
  `LongestLife`.
- The second WINDOW_FULL check can never decide anything: `WindowNeverFull`.
- A client proposes ACTIVE + 1 while the engine asks for newest + 1, so one rollback ends a client's
  rotation for good: `RollbackEndsRotation`, `EngineWouldGoOn`. So does a lost answer to a successful
  checkpoint, or one read when the client's own engine would not promote: `CatchUpIff`,
  `LostAnswerLeavesBehind`. Once the server is ahead and no unread answer would let the client follow,
  it never does (`LagIsPermanent`), and `LagEndsIff` is the exact condition. A client does not match
  answers to requests, so one that gave up on an answer reads it in its next call on that connection;
  the runs of all these theorems include that.
- The client and the registry stay within one version as long as the local checkpoint at the end of
  `rotate` does not promote a successor that the server has not promoted: `NeverDrifts`. The condition
  is exact step by step (`KeptIffTimely`, `LateRotateDrifts`), and it is met when every `rotate` hears
  its answer less than T/2 after it began (`PromptNeverDrifts`).
- Which objects are finalized is exact only while handlers do not overlap: between the append that
  reaches the declared size and its finalizing, another handler sees a whole file without a digest:
  `HandlersComplete`, `IncompleteInBetween`.
- The registry never persists a checkpoint's EXPIRED marking, so a VALIDATING credential past its
  expiry blocks its identity: `StuckValidating`, `CheckpointForgets`.
- Enrollment commits in two transactions. A recovery that meets a VALIDATING credential revokes
  everything, spends its token and then fails (`RecoveryWhileValidating`); an enrollment with a wrong
  version spends its token too, and bars the identity under the same kind (`WrongVersionBurns`).
- `request_chunk` documents an empty chunk for an index past the end; the server answers with an error
  instead, so an unfinished object cannot be read: `PartialNeverRead`, `ReadOfSound`.

## Model

| member | source | states |
|---|---|---|
| RotationEngine.Engine.Load | shared/sih_shared/credential_state.py:91-97 | the engine holds the records in the order they were listed, a later record replacing an earlier one of its version |
| RotationEngine.Engine.All | shared/sih_shared/credential_state.py:106-107 | every record exactly, by strictly ascending version |
| RotationEngine.Engine.VersionsInWindow | shared/sih_shared/credential_state.py:109-110 | the number of records in a window status |
| RotationEngine.Engine.ByStatus | shared/sih_shared/credential_state.py:121-125 | the first record in insertion order that has the status |
| RotationEngine.Engine.ProvisionInitial | shared/sih_shared/credential_state.py:131-158 | the whole new dictionary or the exact exception, with FALLBACK not looked at |
| RotationEngine.Engine.SubmitSuccessor | shared/sih_shared/credential_state.py:160-212 | the whole new dictionary or the exact exception in the source's order of checks, signature over the canonical payload |
| RotationEngine.Engine.Checkpoint | shared/sih_shared/credential_state.py:214-251 | the whole new dictionary, also when it raises after marking V3 EXPIRED, and the changed records in order |
| RotationEngine.Engine.Rollback | shared/sih_shared/credential_state.py:253-259 | terminates the VALIDATING record and nothing else |
| RotationEngine.Engine.Revoke | shared/sih_shared/credential_state.py:261-267 | revokes that version and nothing else, or reports it unknown |
| RotationEngine.Engine.ExpireAll | shared/sih_shared/credential_state.py:269-279 | marks exactly the expired ACTIVE and FALLBACK records and returns exactly those |
| RotationEngine.Engine.CredentialForAuth | shared/sih_shared/credential_state.py:285-297 | the record if it is ACTIVE or FALLBACK and unexpired, else nothing |
| RotationOutcomes.ProvisionOutcome | shared/sih_shared/credential_state.py:131-158 | the first of three refusals, or one ACTIVE record with every field named |
| RotationOutcomes.SubmitOutcome | shared/sih_shared/credential_state.py:160-212 | the first of seven refusals, or one VALIDATING record with every field named, under a signature that the ACTIVE public key verifies |
| RotationOutcomes.CheckpointOutcome | shared/sih_shared/credential_state.py:214-236 | which of five refusals comes first, and when there is none |
| RotationOutcomes.RefusedCheckpoint | shared/sih_shared/credential_state.py:224-226 | a refused checkpoint changes nothing but, for one reason, the successor to EXPIRED |
| RotationOutcomes.CheckpointReturns | shared/sih_shared/credential_state.py:237-251 | the returned records are exactly the changed rows by ascending version, the promoted one last |
| RotationOutcomes.DemotedOutcome | shared/sih_shared/credential_state.py:242-245 | the demoted record keeps its expiry or gets T/2 from now, whichever is later |
| RotationOutcomes.RollbackOutcome | shared/sih_shared/credential_state.py:253-259 | what is VALIDATING is terminated and returned, the rest stays |
| RotationOutcomes.RevokeOutcome | shared/sih_shared/credential_state.py:261-267 | that version is revoked and returned, the rest stays |
| RotationOutcomes.SweepOutcome | shared/sih_shared/credential_state.py:269-278 | exactly ACTIVE and FALLBACK records whose expiry has come are marked |
| RotationOutcomes.SweepReturns | shared/sih_shared/credential_state.py:271-279 | exactly the changed records are returned, in the order of the dictionary |
| RotationOutcomes.AuthOutcome | shared/sih_shared/credential_state.py:285-297 | a record authenticates if and only if it is ACTIVE or FALLBACK and its expiry is to come |
| RotationOutcomes.FirstByStatus | shared/sih_shared/credential_state.py:121-125 | the record found is the first in insertion order |
| RotationOutcomes.WindowCount | shared/sih_shared/credential_state.py:109-110 | the count is the number of VALIDATING, ACTIVE and FALLBACK versions |
| RotationOutcomes.PutPlace | shared/sih_shared/credential_state.py:91-97 | a version that is there keeps its place, a new one goes last |
| RotationRuns.WindowInvariant | shared/sih_shared/credential_state.py:131-279 | in every reachable state versions are contiguous and at most one is VALIDATING, ACTIVE, FALLBACK each, FALLBACK < ACTIVE < VALIDATING = newest |
| RotationRuns.VersionsNeverRewritten | shared/sih_shared/credential_state.py:131-320 | over every run identity, keys and creation time of a version never change and its status only moves forward |
| RotationRuns.WindowNeverFull | shared/sih_shared/credential_state.py:177-187 | with nothing VALIDATING at most two versions are in the window, so the second WINDOW_FULL check is unreachable |
| RotationRuns.LookupRefines | shared/sih_shared/credential_state.py:112-125 | the first record in insertion order is the only one |
| RotationRuns.ProvisionRefines | shared/sih_shared/credential_state.py:131-158 | provisioning depends on the records only, not on their order |
| RotationRuns.SubmitRefines | shared/sih_shared/credential_state.py:160-212 | submission depends on the records only, not on their order |
| RotationRuns.EndingsRefine | shared/sih_shared/credential_state.py:214-279 | checkpoint, rollback, revocation and expiry depend on the records only |
| RotationRuns.RunRefines | shared/sih_shared/credential_state.py:84-297 | a run of the ordered dictionary is the run of its records, with the same authentication answers |
| RotationRuns.LoadInAnyOrder | shared/sih_shared/credential_state.py:91-97 | loading the records in any order gives exactly those records |
| RotationRuns.LoadOrderInvisible | client/sih_client/identity.py:101-117 | engines loaded in two orders, such as by version as text, run alike for ever |
| RotationTheorems.FullFallback | shared/sih_shared/credential_state.py:209-251 | SR-14 over runs: a version demoted at c authenticates throughout [c, c + T/2) unless revoked, and no checkpoint succeeds in that interval |
| RotationTheorems.CheckpointIff | shared/sih_shared/credential_state.py:214-245 | exactly when a checkpoint succeeds, and that the demoted expiry moves exactly when less than T/2 is left |
| RotationTheorems.LosesActiveIff | shared/sih_shared/credential_state.py:261-279 | the ACTIVE credential is lost without a successor exactly by its revocation or a sweep after its expiry |
| RotationTheorems.BoundedLife | shared/sih_shared/config.py:29-48 | no version is accepted at or after creation + 2T, for every run and T >= 0 |
| RotationTheorems.LongestLife | shared/sih_shared/credential_state.py:242-245 | that bound is reached up to its last second, by a run from no records at all |
| RotationTheorems.NoResurrection | shared/sih_shared/credential_state.py:214-297 | a version once accepted and later refused is refused for ever |
| RotationTheorems.EagerExpiryInvisible | shared/sih_shared/credential_state.py:269-297 | removing every sweep from a run changes no later authentication answer |
| RotationTheorems.ProvisioningSeesSweep | shared/sih_shared/credential_state.py:137-140 | the one step to which a sweep is visible: provisioning answers differently after it if and only if an ACTIVE credential has expired and nothing is VALIDATING |
| RotationTheorems.SignerChain | shared/sih_shared/credential_state.py:172-212 | every version of every run is provisioned or was admitted by a smaller signer of the same identity whose signature covers identity, both versions, both keys and metadata |
| RotationTheorems.DemotesItsSigner | shared/sih_shared/credential_state.py:228-250 | what a checkpoint demotes is what signed the version it promotes |
| RotationTheorems.EveryVersionHasRoot | shared/sih_shared/credential_state.py:131-212 | every version descends through strictly smaller signers to a provisioned one |
| Registry.SavePublic | server/sih_server/registry.py:74-95 | saving every record leaves exactly those rows for the identity |
| Registry.CredentialRegistry.LoadEngine | server/sih_server/registry.py:47-58 | an engine with exactly the identity's rows, or none when there are none |
| Registry.CredentialRegistry.Apply | server/sih_server/registry.py:156-176 | the table after a successful step is the engine's step on that identity's rows; a step that raises changes nothing |
| Registry.CredentialRegistry.SubmitSuccessor | server/sih_server/registry.py:263-291 | atomic submission with its record or its error |
| Registry.CredentialRegistry.Checkpoint | server/sih_server/registry.py:293-299 | atomic checkpoint; its in-memory EXPIRED marking is not persisted |
| Registry.CredentialRegistry.Rollback | server/sih_server/registry.py:301-306 | atomic rollback |
| Registry.CredentialRegistry.Revoke | server/sih_server/registry.py:308-313 | atomic revocation |
| Registry.CredentialRegistry.ExpireAll | server/sih_server/registry.py:315-327 | every identity's expired records are marked, nothing else changes, and exactly those are reported, each once |
| Registry.CredentialRegistry.CredentialForAuth | server/sih_server/registry.py:122-127 | the engine's answer on the persisted rows |
| Registry.CredentialRegistry.IdentityKind | server/sih_server/registry.py:364-380 | clients before proxies |
| Registry.CredentialRegistry.Claim | server/sih_server/registry.py:188-234 | the checks in order and the whole effect of the first transaction, for tokens of any purpose |
| Registry.CredentialRegistry.Enroll | server/sih_server/registry.py:178-261 | the whole store after both transactions, and the error |
| RegistryTheorems.CommittedIsRun | server/sih_server/registry.py:156-176 | the persisted rows are those of the engine run of the committed steps |
| RegistryTheorems.CommittedFallback | server/sih_server/registry.py:156-176 | SR-14 of the persisted rows: a version demoted by a committed checkpoint at c authenticates throughout [c, c + T/2) unless revoked, and no checkpoint is committed in that interval |
| RegistryTheorems.CommittedLife | server/sih_server/registry.py:122-176 | no persisted version is accepted at or after creation + 2T |
| RegistryTheorems.RegistrySweepsInvisible | server/sih_server/registry.py:315-327 | removing every sweep from a registry run, whatever it commits or refuses, changes no later authentication answer, provided no provisioning meets an expired ACTIVE credential with nothing VALIDATING |
| RegistryTheorems.SweptSame | server/sih_server/registry.py:156-176 | for the same steps succeed with the sweeps as without them |
| RegistryTheorems.Isolation | server/sih_server/registry.py:156-176 | under any interleaving of calls each identity's rows are those of its own run |
| RegistryTheorems.StuckValidating | server/sih_server/registry.py:169-175 | past the expiry of a persisted VALIDATING record no submission, checkpoint or provisioning ever succeeds until a rollback or its revocation, which do |
| RegistryTheorems.CheckpointForgets | shared/sih_shared/credential_state.py:224-226 | the failed checkpoint leaves rows and engine in different states |
| RegistryOutcomes.EnrollIff | server/sih_server/registry.py:178-261 | success if and only if the token is there, unused and unexpired, the identity is entitled to it, and the version fits: 1 for an enrollment, the next one with nothing VALIDATING for a recovery |
| RegistryOutcomes.ClaimRefusal | server/sih_server/registry.py:190-228 | which refusal of the first transaction comes first, and when there is none |
| RegistryOutcomes.EnrollFailure | server/sih_server/registry.py:236-251 | which failure after the claim comes first, and when there is none |
| RegistryOutcomes.RefusedLeavesAll | server/sih_server/registry.py:190-228 | a token that is spent, past its expiry, or not for this identity leaves the whole store as it was |
| RegistryOutcomes.ClaimedAlways | server/sih_server/registry.py:229-234 | an accepted claim spends exactly that token and lists exactly that identity under that kind, and touches no other rows |
| RegistryOutcomes.EnrolledRows | server/sih_server/registry.py:215-251 | after a success the new version is ACTIVE with every field named, what could authenticate before is REVOKED, the rest unchanged |
| RegistryTheorems.EnrollInterleaved | server/sih_server/registry.py:190-251 | whatever is called between the two transactions, the second provisions what that left, succeeds exactly when nothing ACTIVE or VALIDATING is there and the version fits, and does not notice sweeps or calls for other identities |
| RegistryTheorems.RecoveryOutcome | server/sih_server/registry.py:215-251 | after a recovery exactly the new version authenticates, or nothing does; the token is spent either way and other identities are untouched |
| RegistryTheorems.RecoveryWhileValidating | server/sih_server/registry.py:217-251 | the failing case: everything revoked, and in every run that follows nothing authenticates and no submission, checkpoint or provisioning succeeds until a rollback or the revocation of the successor |
| RegistryTheorems.WrongVersionBurns | server/sih_server/registry.py:233-239 | a wrong first version spends the token, and no token enrolls or recovers the identity under that kind any more; under the other kind every other token does what it did before |
| RegistryTheorems.WithdrawnIsRun | server/sih_server/registry.py:217-226 | recovery's revocations are at most two revoke steps of the engine |
| ServerIdentity.ServerCredential.EnsureLoaded | server/sih_server/identity.py:70-101 | provisioned on an empty disk, else memory is what the disk holds, whatever that is, or the missing key file is reported |
| ServerIdentity.ServerCredential.Provision | server/sih_server/identity.py:103-124 | version 1 is ACTIVE, its keys are held, and both are on disk |
| ServerIdentity.ServerCredential.OwnSubmit | server/sih_server/identity.py:237-269 | the new version and its private keys are added and persisted, or nothing changes |
| ServerIdentity.ServerCredential.MaybeRotate | server/sih_server/identity.py:202-235 | memory, disk and error path after one tick |
| ServerOutcomes.TickAttempts | server/sih_server/identity.py:202-231 | exactly when a tick tries a submission, exactly when a checkpoint, and that it stops after a failed submission |
| ServerOutcomes.TickPersists | server/sih_server/identity.py:220-231 | what a tick writes to disk, and that keys are added only with a submission |
| ServerOutcomes.SubmitEscapes | server/sih_server/identity.py:237-250 | the two exceptions that escape a tick, exactly when, with nothing changed |
| ServerOutcomes.TicksHoldKeys | server/sih_server/identity.py:263 | over all ticks every version the server records keeps both private keys, belonging to its public ones |
| ServerOutcomes.StartOutcome | server/sih_server/identity.py:70-124 | the first start makes version 1 and its keys, a later one loads, failing exactly without a key file |
| ServerLiveness.Simulates | server/sih_server/identity.py:202-269 | a tick does to the server what a three-case automaton on integers does to its phase |
| ServerLiveness.NeverLapses | server/sih_server/identity.py:202-269 | below the bound no tick takes an error path, an unexpired ACTIVE credential with its private keys exists until the next tick, versions keep up with time, memory equals disk; for as long as versions fit 32 bits |
| ServerLiveness.RotationBound | shared/sih_shared/config.py:29-48 | ticks at most d apart keep the server serving in every run whose versions fit 32 bits if and only if 3d <= (T+1)/2 + 1 |
| ServerLiveness.FitsForAges | server/sih_server/identity.py:202-269 | a run shorter than 2^32 - 1 times half of T, rounded up, has versions that fit, however many ticks it has |
| ServerLiveness.SomeRunLapses | server/sih_server/identity.py:214-234 | above the bound some run of at most thirteen ticks leaves the server without an unexpired ACTIVE credential |
| ServerLiveness.LapsedForever | server/sih_server/identity.py:211-229 | what has lapsed never comes back |
| ServerLiveness.RestartInvisible | server/sih_server/identity.py:70-101 | restarting between two ticks changes nothing |
| ClientIdentity.Identity.Load | client/sih_client/identity.py:93-126 | memory is what the file holds, whatever its records are and whatever their order |
| ClientIdentity.Identity.EnsureLoaded | client/sih_client/identity.py:55-91 | loads the file or makes and saves the first credential |
| ClientIdentity.Identity.Save | client/sih_client/identity.py:128-155 | the file holds exactly what is in memory |
| ClientIdentity.Identity.MarkEnrolled | client/sih_client/identity.py:176-178 | the flag is set and everything in memory is saved |
| ClientIdentity.Identity.GenerateSuccessor | client/sih_client/identity.py:184-218 | the proposal, the new state and file, or the exact failure with nothing changed |
| ClientIdentity.Identity.Checkpoint | client/sih_client/identity.py:220-232 | promotes and saves, or swallows the refusal without saving |
| ClientIdentity.Identity.Rollback | client/sih_client/identity.py:234-237 | terminates and saves, or reports that nothing is VALIDATING |
| ClientIdentity.Identity.ShouldRotate | client/sih_client/identity.py:239-248 | whether the rotation point of the ACTIVE credential has passed |
| ClientIdentity.GenerateIff | client/sih_client/identity.py:184-218 | with honest keys a proposal succeeds if and only if ACTIVE exists, is unexpired, is the newest version and nothing is VALIDATING |
| ClientOutcomes.GenerateRefusal | client/sih_client/identity.py:184-218 | why an honest proposal is refused, in the order of the checks |
| ClientOutcomes.GenerateOutcome | client/sih_client/identity.py:198-218 | the new record with every field named, both its private keys, all of it saved, and what is handed out |
| ClientIdentity.KeysStayHeld | client/sih_client/identity.py:184-237 | over every sequence of moves and restarts the client holds, in memory and file, both private keys of every version, belonging to its public ones |
| ClientOutcomes.StartOutcome | client/sih_client/identity.py:55-126 | the first start makes and saves version 1, a later one takes over the file, failing exactly without keys |
| ClientOutcomes.EndingsSave | client/sih_client/identity.py:220-237 | local checkpoint and rollback save exactly when the engine agreed |
| ClientOutcomes.SignOutcome | client/sih_client/session.py:424-468 | a request can be signed if and only if there is an ACTIVE version whose private keys are there |
| ClientIdentity.RollbackEndsRotation | client/sih_client/identity.py:198-237 | after a local rollback no sequence of moves or restarts makes a proposal succeed again |
| ClientIdentity.EngineWouldGoOn | shared/sih_shared/credential_state.py:179-183 | the engine itself accepts the version the client never proposes |
| ClientSession.Session.Rotate | client/sih_client/session.py:184-202 | the identity's state and the outcome for every reply or none |
| ClientSession.Session.CheckpointRotation | client/sih_client/session.py:204-225 | the identity's state and the outcome for every reply or none |
| ClientSession.Session.RollbackRotation | client/sih_client/session.py:227-247 | the identity's state and the outcome for every reply or none |
| ClientServerCalls.RotateIsSteps | client/sih_client/session.py:184-202 | what `Session.Rotate` leaves the client with is the beginning of a rotation, anything the server serves meanwhile, and then hearing the next answer or giving up |
| ClientServerCalls.AskingIsSteps | client/sih_client/session.py:204-247 | likewise for the other two calls |
| ClientServerCalls.CheckpointReturnsAnswer | client/sih_client/session.py:204-225 | checkpoint_rotation is true if and only if the answer read says that the step succeeded, false if and only if that it failed |
| ClientServerCalls.RollbackReturnsAnswer | client/sih_client/session.py:227-247 | when rollback_rotation returns, and which error it raises otherwise |
| ClientServerCalls.RotateReturnsAnswer | client/sih_client/session.py:184-202 | when rotate returns, and which error it raises otherwise |
| ClientServerCalls.RunHoldsKeys | client/sih_client/session.py:184-247 | in every two-sided run the client holds both private keys of every version |
| ControlHandlers.HandleRotateSubmit | server/sih_server/tunnel2.py:269-292 | the step tried on the registry, or the refusal with nothing changed |
| ControlHandlers.HandleRotateAction | server/sih_server/tunnel2.py:294-316 | the step tried on the registry for each action |
| ControlHandlers.RequestArrives | client/sih_client/session.py:187-190 | what the client signed and sent is exactly the submission the server tries |
| ControlOutcomes.HandlersServe | server/sih_server/tunnel2.py:269-316 | in every run the step the handlers try for a request in flight is the one the run serves, with the same rows and answer |
| ControlOutcomes.ActionOutcome | server/sih_server/tunnel2.py:305-316 | what each action does to every row, and exactly when it succeeds |
| ControlOutcomes.ActionMalformed | server/sih_server/tunnel2.py:309-313 | only a revocation of fewer than four bytes is malformed |
| ControlOutcomes.AskedForItself | server/sih_server/tunnel2.py:269-282 | a submission asked for is the sender's own, signed by the last 64 bytes |
| ControlOutcomes.PayloadAsksFor | server/sih_server/tunnel2.py:270-291 | a payload for another identity is refused whatever its signature; one for the sender asks for exactly the version, keys and metadata it names |
| ClientServer.NeverDrifts | client/sih_client/session.py:184-247 | over all interleavings, losses and delays, late answers read by later calls included, with both clocks arbitrary, the client's ACTIVE version is the server's ACTIVE or FALLBACK one with identical keys, at most one version behind, while no local checkpoint of rotate promotes what the server has not |
| ClientServerProgress.RotateCompletes | client/sih_client/session.py:184-202 | from rest, a rotate whose request and answer arrive leaves the successor VALIDATING on both sides, each with its own clock's deadline |
| ClientServerProgress.PromotionCompletes | client/sih_client/session.py:204-225 | with nothing outstanding on the connection, a checkpoint_rotation that arrives in both clocks' windows brings both sides to the next version, at rest there with its private keys |
| ClientServerProgress.RoundsComplete | client/sih_client/session.py:184-225 | any number of delivered rotations, each in time by both clocks, brings both sides through as many versions |
| ClientServer.LateRotateDrifts | client/sih_client/session.py:196-202 | hearing that its submission was accepted, the client promotes a version not ACTIVE at the server if and only if it is ripe by its own clock and the server has not promoted it |
| ClientServer.KeptIffTimely | client/sih_client/session.py:184-247 | so that condition is exact: a step keeps the invariant if and only if it is timely |
| ClientServerCalls.PromptNeverDrifts | client/sih_client/session.py:184-202 | no drift in any run in which every rotate that hears its answer does so less than T/2 after it began |
| ClientServerLag.CatchUpIff | client/sih_client/session.py:196-225 | reading that its checkpoint or its submission was accepted, a client one version behind follows if and only if its own engine would promote at that time; otherwise it is left behind |
| ClientServerLag.LostAnswerLeavesBehind | client/sih_client/session.py:204-265 | reconnecting, giving up on the answer to the submission, or reading the answer to the checkpoint in another call leaves it behind; giving up on the answer to the checkpoint does not |
| ClientServerLag.LagIsPermanent | client/sih_client/session.py:222-225 | once left one version behind, no later step at any time of either clock moves the client on |
| ClientServerLag.LagEndsIff | client/sih_client/session.py:204-265 | some continuation moves a client one version behind on if and only if an unread answer would let it promote and there is a time at which its engine would |
| Replay.ReplayCache.CheckAndAdd | shared/sih_shared/replay.py:24-32 | False if and only if the key occurred and fewer than max distinct other keys occurred since; the size never exceeds max |
| Replay.LastIsRecent | shared/sih_shared/replay.py:15-32 | the last max keys by recency are exactly those within stack distance max |
| Replay.NewCache | shared/sih_shared/replay.py:18-22 | a size that is not positive is refused |
| Replay.ReplayKeyInjective | shared/sih_shared/replay.py:43-47 | two envelopes share a replay key exactly when sender and nonce agree, whatever the request id |
| Authenticator.EnvelopeAuthenticator.Authenticate | server/sih_server/auth.py:49-98 | authenticated if and only if the timestamp is in the window, the key was not seen recently, the named version is ACTIVE or FALLBACK and unexpired, its public key verifies the signature, and the sender is listed; the order of refusals, and that the cache is touched exactly inside the window |
| Authenticator.EnvelopeAuthenticator.Judge | server/sih_server/auth.py:74-106 | the checks after the cache, with the exact condition for passing them |
| Authenticator.VerdictIff | server/sih_server/auth.py:74-106 | what passes, and with which kind and record |
| Authenticator.VerdictRefusal | server/sih_server/auth.py:74-106 | which refusal comes first |
| Authenticator.HonestIsVouched | server/sih_server/auth.py:85-93 | what the key pair of an accepted version signed is vouched for |
| Authenticator.VouchedIsAlive | server/sih_server/auth.py:74-93 | over all registry runs nothing is authenticated under a version 2T after its creation or after its revocation |
| Authenticator.NeverTwice | server/sih_server/auth.py:49-98 | with at most max distinct keys in any span of twice the window nothing is authenticated whose sender, nonce and timestamp arrived inside the window before, authenticated or not |
| Authenticator.ReplayedIff | shared/sih_shared/replay.py:24-32 | a repeated key passes again if and only if max distinct others reached the cache in between |
| ObjectStore.Store.Create | server/sih_server/objects.py:51-77 | a new unfinalized row, or a refusal |
| ObjectStore.Store.WriteChunk | server/sih_server/objects.py:102-116 | appends whatever the index says, unless finalized |
| ObjectStore.Store.ReadChunk | server/sih_server/objects.py:118-128 | the bytes at that index, none past the end, an OS error without a file |
| ObjectStore.Store.Finalize | server/sih_server/objects.py:130-152 | sets the digest exactly when the size is the declared one |
| ObjectStore.Store.Delete | server/sih_server/objects.py:154-163 | row and file are gone, nothing else changes |
| ObjectStore.HandleWrite | server/sih_server/tunnel2.py:448-465 | the refusals in order, else creation |
| ObjectStore.HandleObjChunk | server/sih_server/tunnel2.py:420-434 | append, then finalize at or past the declared size, answering with the row as it was before |
| ObjectStore.HandleRead | server/sih_server/tunnel2.py:467-477 | the row or the refusal |
| ObjectStore.HandleReadChunk | server/sih_server/tunnel2.py:479-495 | a chunk past the end is an error |
| ObjectOutcomes.CreateOutcome | server/sih_server/objects.py:51-77 | exactly one new row with every field named, or a refusal |
| ObjectOutcomes.ChunkOutcome | server/sih_server/tunnel2.py:420-434 | which refusal comes first, that a chunk too long is refused only after it was appended, when the object is finalized, and that the answer does not show it |
| ObjectOutcomes.FinalizeOutcome | server/sih_server/objects.py:130-152 | which refusal comes first, and the digest of the whole file otherwise |
| ObjectOutcomes.ChunkBytes | server/sih_server/objects.py:118-128 | which bytes of the file a chunk is |
| ObjectOutcomes.DeleteOutcome | server/sih_server/objects.py:154-163 | row and file are gone and every other object is the same |
| ObjectStore.StoreInvariant | server/sih_server/objects.py:51-163 | under any interleaving of the store's operations files exist only with their rows, a file is its accepted chunks in order of arrival, and a finalized object's file has the declared size and digest |
| ObjectStore.HandlersComplete | server/sih_server/tunnel2.py:420-465 | while handlers do not overlap, an object is moreover finalized exactly when its file has the declared size |
| ObjectStore.IncompleteInBetween | server/sih_server/tunnel2.py:427-433 | when they overlap, that fails after exactly the append that reaches the declared size, until it is finalized |
| ObjectStore.FinalizedIsFrozen | server/sih_server/objects.py:108-110 | a finalized object does not change until deleted, under any interleaving of the store's operations |
| ObjectStore.OvershootNeverFinalizes | server/sih_server/objects.py:138-143 | an object that overshot is never finalized until deleted, under any interleaving of the store's operations |
| ObjectTransfer.Client.WriteObject | client/sih_client/api.py:16-40 | the store and the outcome from any state: creation, then chunks until the first refused one |
| ObjectTransfer.Client.ReadObject | client/sih_client/api.py:43-71 | the outcome from any state of the store |
| ObjectTransfer.Client.RequestChunk | client/sih_client/session.py:352-402 | the chunk, an error past the end, a lost connection without a file; an answer of another object or index is refused and never comes |
| ObjectTransfer.UploadStates | server/sih_server/tunnel2.py:420-434 | after k chunks the file is the first k chunks, and only the last one finalizes |
| ObjectTransfer.UploadThenRead | client/sih_client/api.py:16-71 | for every byte string what was uploaded is what is read, under a row with every field named; finalized with the last chunk, never for empty data; row and file of every other object are the same |
| ObjectTransfer.PartialNeverRead | client/sih_client/api.py:56-61 | before its last chunk an object cannot be read at all |
| ObjectTransfer.ReadOfSound | client/sih_client/api.py:43-71 | what reading gives for empty, finalized, unfinished and overshot objects |
| ObjectOutcomes.ReadVerified | client/sih_client/api.py:63-71 | SR-21: from any store, content that the object's digest does not match is never returned, and a mismatch is reported if and only if there is one |
| ObjectOutcomes.UploadIff | client/sih_client/api.py:16-40 | in a sound store an upload succeeds if and only if permitted and the identifier is free, and leaves no trace otherwise |
| ObjectOutcomes.ForbiddenDoesNothing | server/sih_server/tunnel2.py:425-427 | without permission nothing gets in or out |
| Codec.FieldRoundTrip | shared/sih_shared/codec.py:28-108 | reading a written field gives it back and leaves the rest |
| Codec.PrefixFree | shared/sih_shared/codec.py:24-111 | any list of fields followed by anything decodes to itself and exactly what followed |
| Codec.EncodingInjective | shared/sih_shared/codec.py:24-64 | equal encodings, even as prefixes, mean equal fields |
| Codec.Canonical | shared/sih_shared/codec.py:67-111 | decoded bytes re-encode to themselves if and only if every identifier is spelled the encoder's way |
| WireLayout.ByteOf | shared/sih_shared/codec.py:32-46 | integers are big-endian |
| WireLayout.TwosComplement | shared/sih_shared/codec.py:44-46 | signed integers are their value modulo 2^64 |
| WireLayout.ReadRefusal | shared/sih_shared/codec.py:76-108 | how reading a field of each kind fails |
| TextEncoding.Utf8Iff | shared/sih_shared/codec.py:101-102 | text is accepted if and only if it is the UTF-8 encoding of some string |
| Codec.Encoder.Blob | shared/sih_shared/codec.py:48-51 | appends the length-prefixed field or refuses a length over 32 bits |
| Codec.Encoder.Text | shared/sih_shared/codec.py:53-54 | appends the length-prefixed UTF-8 bytes or refuses a length over 32 bits |
| Codec.Encoder.Id | shared/sih_shared/codec.py:56-61 | appends the identifier field, absent or present |
| Codec.Encoder.Finish | shared/sih_shared/codec.py:63-64 | the bytes are the encoding of the fields written |
| Codec.Decoder.Take | shared/sih_shared/codec.py:76-82 | the next bytes, or truncation with nothing consumed |
| Codec.Decoder.Blob | shared/sih_shared/codec.py:98-99 | the next field of the decoding, or its error for every longer reading |
| Codec.Decoder.Text | shared/sih_shared/codec.py:101-102 | the next field of the decoding, or its error; bytes that are not UTF-8 are refused |
| Codec.Decoder.Id | shared/sih_shared/codec.py:104-108 | the next field of the decoding; any non-zero flag means present |
| Codec.Decoder.Eof | shared/sih_shared/codec.py:110-111 | true exactly when the fields read used up the data |
| Envelopes.ParseEncode | shared/sih_shared/protocol.py:149-223 | parse undoes encode if and only if version is 1, the nonce 12 and the signature 64 bytes |
| Envelopes.EncodeParse | shared/sih_shared/protocol.py:149-223 | encode undoes parse on every accepted byte string |
| Envelopes.ShortcutsAgree | shared/sih_shared/protocol.py:226-236 | the routing shortcuts agree with the full parse |
| Envelopes.SignatureBinds | shared/sih_shared/protocol.py:136-150 | equal signed bytes mean equal envelopes but for the signature, and signing does not change them |
| WireLayout.SignedLayout | shared/sih_shared/protocol.py:136-165 | where each part of an envelope sits |
| WireLayout.NoncePart | shared/sih_shared/protocol.py:153-165 | a short nonce is padded with zeros, a long one cut |
| Envelopes.ParseRefusal | shared/sih_shared/protocol.py:190-212 | why bytes are no envelope, in the order of the checks |
| Protocol.Parse | shared/sih_shared/protocol.py:266-638 | the message, or the error of the first field that fails, text that is not UTF-8 included |
| Protocol.MessageRoundTrip | shared/sih_shared/protocol.py:254-638 | for every kind of message parsing an encoding followed by anything gives it back; the two encrypted wrappers refuse what follows |
| Protocol.MessageInjective | shared/sih_shared/protocol.py:95-116 | equal encodings mean equal messages, so AAD and successor payloads bind every field |
| Protocol.MessageCanonical | shared/sih_shared/protocol.py:266-638 | accepted bytes re-encode to themselves exactly when identifiers are spelled the encoder's way and required ones are present |
| Protocol.RolesDisjoint | shared/sih_shared/credential_state.py:28-59 | envelope bytes, AAD and successor payloads never coincide, not even as prefixes |
| WireLayout.MessageLayout | shared/sih_shared/protocol.py:95-638 | every message is its parts in this order and with these widths |
| WireLayout.PartAt | shared/sih_shared/codec.py:24-64 | each part begins where the ones before it end |
| Protocol.ParseRefusal | shared/sih_shared/protocol.py:266-638 | why bytes are no message of a kind |
| Snapshots.BuildSnapshot | shared/sih_shared/protocol.py:403-407 | the encoding of any list of entries, or the refusal |
| Snapshots.ReadSnapshot | shared/sih_shared/protocol.py:410-418 | the entries, or the first error, trailing bytes included |
| Snapshots.SnapshotRoundTrip | shared/sih_shared/protocol.py:403-418 | snapshots of any length round trip, and with anything behind them are refused |
| WireLayout.SnapshotLayout | shared/sih_shared/protocol.py:403-407 | the count, then each entry with its length in front |
| Framing.SendFrame | shared/sih_shared/framing.py:29-35 | the whole frame, a refusal, or a failure after a part of it |
| Framing.RecvExact | shared/sih_shared/framing.py:38-50 | exactly the next n bytes however recv splits them |
| Framing.RecvFrame | shared/sih_shared/framing.py:53-60 | the first frame of the remaining bytes, or their error |
| WireLayout.FrameLayout | shared/sih_shared/framing.py:29-35 | channel byte, length, payload |
| WireLayout.FrameRefusal | shared/sih_shared/framing.py:53-60 | why bytes do not begin with a frame |
| Framing.CutStream | shared/sih_shared/framing.py:29-60 | a stream cut anywhere gives exactly the frames that end before the cut, then an error, never a partial frame |
| Framing.StreamRoundTrip | shared/sih_shared/framing.py:29-60 | successive reads give exactly the frames sent |
| Framing.Pump | proxy/sih_proxy/tunnel.py:81-97 | the destination receives a prefix of the source's frames, all of them on reliable connections |
| Framing.ChainDeliversPrefix | proxy/sih_proxy/tunnel.py:81-97 | through any number of hops what arrives is a prefix of what was sent, in order |

## Left out

- Cryptography: Ed25519, X25519, HKDF and AES-GCM are abstract, and the errors malformed keys raise
  inside them are not modelled.
- TLS, threads, accept loops and time-outs other than as a failing receive.
- SQL, JSON and directories: corrupt files, failing disks, rows deleted by hand, and the gap between
  the server's database commit and its key file.
- Text is its UTF-8 bytes; strings that have none, and the hexadecimal and textual forms of identifiers
  and digests, are not modelled.
- Registry.CredentialRegistry.Enroll: the method runs both transactions without interruption; what happens
  between them is `EnrollInterleaved`. The issuing of tokens and the client's own enrollment exchange are
  not modelled.
- Registry.CredentialRegistry.ExpireAll: the order in which identities are swept is any order.
- Authenticator.NeverTwice: one server process; the replay cache is only in memory, so a restart empties
  it and an envelope still inside the timestamp window could then pass again.
- ClientServer.NeverDrifts: revocations, sweeps and recoveries do not occur. The client's other calls appear
  only as reading an answer away.
- ServerLiveness.NeverLapses: the registry's sweep of the server's own rows on disk; below the bound it
  can touch only FALLBACK rows, which the next save overwrites.
- Protocol.Parse: one loop over the fields of a message kind stands for the straight-line parsers.
- Envelopes.SignatureBinds: the envelope is a value, so signing returns the signed envelope instead of
  setting its field.
- ObjectStore.StoreInvariant: creating, appending a chunk, finalizing and deleting are one atomic step each;
  what another thread or a crash does inside one of them (between the check and the append, between the
  digest, the size and the row, between removing a file and its row) is not modelled.
- ObjectTransfer.Client.RequestChunk: the channel and the encryption of the answer.
- ObjectTransfer.UploadThenRead: one writer and one reader, and no lost connection in between.
- Permissions are an allow/deny argument; the proxy's validator and registry cache, audit records, the
  admin API, the web demo and start-up configuration are not modelled.
- Numeric codes of kinds and statuses, and the conversion of a record to a snapshot entry, in which an
  absent time becomes 0.
- The adoption of a server key announced in a response: no response of this code carries one.
