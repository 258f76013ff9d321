# Agent hub: verified model

A Dafny model of the stateful core of an agent hub, with proofs about every input, every run or every
reachable state. Six areas are modelled:

- **Profiles and credentials.** The profile table with one default per provider, the HTTP routes that
  change it, and per-profile credentials whose stored rows and in-memory registry must agree across
  minting, rotation, revocation, deletion, expiry, crash and restart.
- **Cursor protocols.** The orchestrator peer that relays between two channels while messages are still
  streaming, and the subscription that reconnects and resumes.
- **Stream processing.** Newline splitting of a byte stream and the bounded-window search of
  `sessions.wait`, both independent of how the bytes are cut up.
- **Subprocess transports.** The ACP client (JSON-RPC 2.0 correlation, write queue, backpressure) and the
  Antigravity stream client (write conservation).
- **Supervision and publication.** Rebuild and restart of the backend, and concurrent publication of
  content-addressed payloads.
- **Analytics.** Idle time, response latency percentiles, retention downsampling.

`dafny verify dfyconfig.toml` checks everything.

## How it is built

Protocols are state machines: a `Next` function over events (or steps of interleaved writers), an
invariant kept by each event, and theorems by induction over every sequence of events. Where the program
keeps its state in an object, a class with the same fields has one method per call or event, each proved
to make exactly the machine's step, so the theorems speak about the class too. Loops are methods with
invariants, proved against a reference that has no loop state (the split of the whole text, the verdict
on the whole output, the texts due on a stretch of a channel).

Safety alone would be met by code that does nothing, so beside each invariant stand lemmas from the
caller's side: what a call, request or event brings about, and what it leaves alone.

The environment is a parameter: chunks, frames, pages, outcomes of writes and posts, clocks, random ids,
and whether a connection or the database fails. What a theorem assumes of it is spelled out in a predicate
(`ChannelSubscribe.Trusted`, `PeerRelay.Legal`, `BackendSupervisor.Possible`, `Retention.FreshIds`).
Text decoding is any incremental decoder, so the results hold for UTF-8 in particular.

| file | contents |
|---|---|
| `ProfileTable`, `ProfileInvariants`, `AgentProfileStore` | profile rows, what each operation keeps, the store |
| `ProfileEffects` | what each request brings about |
| `ProfileRouter`, `AgentProfileRouter` | routes as functions with theorems over runs, and the handlers |
| `ProfileCredentials`, `CredentialService` | the credential machine and the service |
| `OrchestratorPeer`, `PeerRelay` | the peer's code, and both directions of relaying as a machine |
| `Ndjson`, `SessionsWait` | line streaming, bounded-window search |
| `ChannelSubscribe`, `SubscribeProgress` | the subscription and its safety; when it resumes, when it ends and what arrives |
| `SubscribeWitness` | a codec that meets the assumptions about the hub |
| `AcpClient`, `AcpTransport` | ACP machine and object |
| `AntigravityClient`, `AntigravityStream` | Antigravity machine and object |
| `BackendSupervisor`, `AttachmentPublication` | supervision, publication |
| `EngagementMetrics`, `Retention` | analytics |
| `Streams`, `Sorting`, `Wrappers` | decoders and text, sorting, options |

## Properties that do not hold, and when they do

Each has a lemma exhibiting the failure and, where there is a condition, an if-and-only-if.

- A write to stdout that fails without ending a subscription loses its rows: the cursor has moved and the
  stream resumes behind them (`ChannelSubscribe.FailedWriteSkipsRows`, `FailedWriteLosesRows`). What was
  offered to stdout is always without a gap; what was written is exactly if no row was written after a
  refused one (`WrittenInOrderIff`), a resumption names the last row written exactly if no row had been
  refused (`ResumptionNamesLastWrittenIff`), and both hold whenever every refused write ends the run
  (`ReaderSeesNoGap`).
- After a thrown write discards the ACP queue, a later accepted line leaves a gap on the wire
  (`AcpClient.ThrownWriteLeavesGap`); what was written is a prefix of what was queued exactly without such
  a line (`AcpClient.PrefixExactlyWithoutLateWrite`), and a write breaks the prefix exactly if lines were
  discarded before it (`AcpClient.WriteBreaksPrefixIff`).
- A response queued while no ACP child lives goes to the next child, ahead of `initialize`
  (`AcpClient.AnswerWithoutChildReachesNextChild`).
- Antigravity teardown that gives up after the kill wait strands queued writes
  (`AntigravityClient.TeardownCanStrand` is such a run); a write never settles exactly if it is queued and
  the child has not closed when teardown ends (`AntigravityClient.TeardownStrandsIff`).
- A source change reported with an empty path is lost if it has to queue
  (`BackendSupervisor.QueuedChangeIsBuiltUnlessUnnamed`).
- A payload file of the right size but wrong content is trusted, and where a rename does not replace, two
  writers can unlink a completed payload; a row implies the payload exactly from the safe starts
  (`AttachmentPublication.RowImpliesPayloadExactlyFromSafeStarts`).
- The store on its own lets a user-chosen default be deleted (`ProfileInvariants.StoreDeleteLosesDefaultIff`);
  the delete route does not.
- If the rows of a deleted profile cannot be read for the registry sweep, its working tokens, and only
  those, work until the next restart (`ProfileCredentials.UnreadableSweepLeaks`, `UnreadableSweepLeaksIff`);
  every other token still agrees with its row.
- Earlier retention cleanups leave no trace in a later one exactly when no hour has snapshots on both sides
  of the thirty-day mark (`Retention.EarlierCleanupsAbsorbedIff`).

## Model

| member | source | states |
|---|---|---|
| `ProfileCredentials.StepKeeps` | server/agent-profile-credentials.ts:159-382 | Every step of mint, rotation, revocation, deletion, expiry, crash and restart keeps rows and registry in step and one unrevoked row per existing profile |
| `ProfileCredentials.RunKeeps` | server/agent-profile-credentials.ts:159-382 | So does every run |
| `ProfileCredentials.WorksExactlyWhileStored` | server/agent-profile-credentials.ts:159-382 | In every run, between operations a token authenticates exactly when its row is stored, unrevoked and unexpired, apart from entries of an unreadable sweep, which have no such row |
| `ProfileCredentials.NoLeakWithoutUnreadableSweep` | server/agent-profile-credentials.ts:267-291 | Only an unreadable sweep leaks entries |
| `ProfileCredentials.OneWorkingToken` | server/agent-profile-store.ts:749-789 | At most one token that did not leak speaks for a profile between operations, and that profile exists |
| `ProfileCredentials.RecoveryKeepsRows` | server/agent-profile-credentials.ts:323-382 | Crashes, restarts and time change no unexpired row |
| `ProfileCredentials.RestartRestoresStored` | server/agent-profile-credentials.ts:323-382 | After a crash at any point, even inside an operation or an earlier recovery, the idle hub accepts exactly the stored tokens not expired meanwhile |
| `ProfileCredentials.RestartRestoresWorking` | server/agent-profile-credentials.ts:323-382 | From between operations, a restart restores exactly the tokens that worked, did not leak and have not expired |
| `ProfileCredentials.RevocationIsFinal` | shared/scoped-actor-credentials.ts:622-650 | A token that does not work between operations never works again, at any step of any run, unless issued anew |
| `ProfileCredentials.WorksUntilExpiry` | shared/scoped-actor-credentials.ts:532-585 | A working token works exactly until its expiry, over restarts and whatever happens to other profiles, unless it is revoked, rotated or its profile deleted |
| `ProfileCredentials.SpentStays` | server/agent-profile-store.ts:918-944 | A token neither working, stored nor being minted stays so until issued |
| `ProfileCredentials.ActiveMeansWorking` | shared/agent-profile-credential.ts:72-78 | The status of the newest row, unrevoked before revoked and then latest issued, is active exactly when some token that did not leak speaks for the profile |
| `ProfileCredentials.UnreadableSweepLeaks` | server/agent-profile-credentials.ts:267-291 | An unreadable sweep leaks exactly the working tokens of the deleted profile, and nobody else's |
| `ProfileCredentials.UnreadableSweepLeaksIff` | server/agent-profile-credentials.ts:267-291 | Failing to read a deleted profile's rows breaks agreement exactly if it had a working token |
| `CredentialService.Lifetime` | server/agent-profile-credentials.ts:161-168 | A positive request up to the ceiling is honoured; absent, not positive or above it, the lifetime is the ceiling |
| `CredentialService.Service.RevokeLiveCredentials` | server/agent-profile-store.ts:918-944 | The loop revokes exactly the unrevoked rows of the profile and returns their ids |
| `CredentialService.Service.RevokeInRegistry` | server/agent-profile-credentials.ts:142-156 | Exactly the named entries are revoked, unknown ids tolerated |
| `CredentialService.Service.Mint` | server/agent-profile-credentials.ts:159-235 | New rows and registry for success, id collision and failed storage; a minted token is stored for the profile with the expiry its request and the ceiling give, and authenticates at once if the ceiling is positive |
| `CredentialService.Service.Revoke` | server/agent-profile-credentials.ts:237-260 | Rows and registry after revoking, and whether there was anything to revoke |
| `CredentialService.Service.DeleteProfile` | server/agent-profile-store.ts:726-745 | Profile, rows and registry after a deletion and its sweep |
| `CredentialService.Service.RevokeForDeletedProfile` | server/agent-profile-credentials.ts:267-291 | The sweep cuts off exactly the unexpired rows of the profile; an unreadable store leaves the registry as it is |
| `CredentialService.Service.Rehydrate` | server/agent-profile-credentials.ts:323-382 | Pruned rows, restored registry, and the three counts returned |
| `CredentialService.Service.ImportRows` | server/agent-profile-credentials.ts:339-381 | The loop imports each listed row once, skips entries already there, and counts the new ones and the revoked among them |
| `CredentialService.Service.PruneExpired` | server/agent-profile-store.ts:832-834 | Exactly the expired rows go, and their number is returned |
| `CredentialService.MintIsRun` | server/agent-profile-credentials.ts:159-235 | Minting is a run of the machine, so a crash between its steps is covered |
| `CredentialService.RevokeIsRun` | server/agent-profile-credentials.ts:237-260 | So is revoking |
| `CredentialService.DeleteIsRun` | server/agent-profile-credentials.ts:267-291 | So is deleting with its sweep |
| `CredentialService.RehydrateIsRun` | server/agent-profile-credentials.ts:323-382 | So is rehydrating, by recovery steps only |
| `CredentialService.MintLeavesOneToken` | server/agent-profile-credentials.ts:203-235 | After a mint the new token is the only one speaking for the profile, others are unaffected; a failed mint changes nobody's tokens |
| `CredentialService.MintedTokenLives` | server/agent-profile-credentials.ts:159-235 | In every run a mint under a positive ceiling leaves row and entry expiring after the request, or after the ceiling where the request is absent, not positive or above it; the token then works exactly until that moment in every continuation that does not revoke, rotate or delete it |
| `CredentialService.RevokeSilences` | server/agent-profile-credentials.ts:237-260 | Revoking silences that profile and nobody else |
| `CredentialService.DeleteSilences` | server/agent-profile-credentials.ts:267-291 | Deleting silences that profile and nobody else, apart from what an unreadable sweep leaks |
| `CredentialService.RehydrateAgain` | server/agent-profile-credentials.ts:342-343 | Rehydrating a running hub changes nobody's tokens |
| `CredentialService.RehydrateRestores` | server/agent-profile-credentials.ts:323-382 | After a crash, rehydrating brings back exactly the unexpired tokens |
| `ProfileTable.BuiltInIdInjective` | shared/agent-profile.ts:140-142 | Built-in ids determine their provider |
| `ProfileTable.GeneratedIsNotBuiltIn` | server/agent-profile-store.ts:1172-1175 | A generated id is never a built-in id, whatever the provider ids |
| `ProfileTable.NormalizeSecret` | server/agent-profile-store.ts:1007-1022 | Whatever it accepts is a well-formed key or nothing |
| `ProfileTable.Overlaid` | server/agent-profile-store.ts:1123-1151 | Each overlay field is as patched, else kept, and the gateway binding is dropped on a move |
| `ProfileInvariants.PromoteKeeps` | server/agent-profile-store.ts:610-643 | Writing a default row after demoting its provider's default keeps all table invariants and every provider's default |
| `ProfileInvariants.CreateKeeps` | server/agent-profile-store.ts:496-538 | Creation keeps the invariants and all defaults |
| `ProfileInvariants.UpdateRow` | server/agent-profile-store.ts:540-650 | What a successful update writes: provider, flags, key, overlay, and which rows it touches |
| `ProfileInvariants.UpdateKeeps` | server/agent-profile-store.ts:540-650 | Updating keeps the invariants and all defaults |
| `ProfileInvariants.SetDefaultKeeps` | server/agent-profile-store.ts:691-724 | Flipping the default keeps the invariants and all defaults |
| `ProfileInvariants.DeleteKeeps` | server/agent-profile-store.ts:726-745 | Deleting a non-default row keeps the invariants and all defaults |
| `ProfileInvariants.StoreDeleteLosesDefaultIff` | server/agent-profile-store.ts:726-745 | The store's delete loses a provider's default exactly for a default that is not built in |
| `ProfileInvariants.SeedKeeps` | server/agent-profile-store.ts:840-905 | Seeding succeeds, changes no existing row, gives every listed provider a default and counts its inserts |
| `ProfileInvariants.SeedIsIdempotent` | server/agent-profile-store.ts:840-905 | A second seeding inserts and changes nothing |
| `ProfileEffects.SeedInserts` | server/agent-profile-store.ts:858-899 | A listed provider without a default gets exactly the thin built-in default row at its stable id: no name, key or overlay |
| `ProfileEffects.StoreCreatesDefault` | server/agent-profile-store.ts:496-538 | Creating a default for a provider without one puts exactly that row at the built-in id |
| `ProfileEffects.UpdateTakes` | server/agent-profile-store.ts:540-650 | An update that violates none of the guards goes through |
| `AgentProfileStore.ApplyProfilePatch` | server/agent-profile-store.ts:1111-1170 | The field loop computes the declarative overlay |
| `AgentProfileStore.DemoteCurrent` | server/agent-profile-store.ts:614-628 | Selecting and demoting one row clears the provider's default, by uniqueness |
| `AgentProfileStore.Store.Create` | server/agent-profile-store.ts:496-538 | New table and reply, errors included |
| `AgentProfileStore.Store.Update` | server/agent-profile-store.ts:540-650 | New table and reply, errors included |
| `AgentProfileStore.Store.SetDefault` | server/agent-profile-store.ts:691-724 | New table and reply, errors included |
| `AgentProfileStore.Store.Delete` | server/agent-profile-store.ts:726-745 | New table and reply; the built-in default is refused |
| `AgentProfileStore.Store.SeedBuiltIns` | server/agent-profile-store.ts:840-905 | The transaction loop seeds as specified, or leaves the table alone when the index objects |
| `ProfileRouter.ConfiguredProvider` | server/agent-profile-router.ts:183-210 | An accepted provider is trimmed, non-empty and configured |
| `ProfileRouter.HandleKeeps` | server/agent-profile-router.ts:591-791 | Every request keeps the invariants and every provider's default |
| `ProfileRouter.RunKeeps` | server/agent-profile-router.ts:591-791 | In every run from an empty store: at most one default per provider, every owner of a row has one, built-in ids belong to their provider, blobs agree with columns, keys only where declared |
| `ProfileRouter.DefaultNeverLost` | server/agent-profile-router.ts:651-791 | A provider that ever had a default has exactly one after any further requests |
| `ProfileRouter.SeedingAfterAnyRun` | server/agent-profile-router.ts:162-181 | After any run, seeding settles the listed providers, changes no row, and a second time does nothing |
| `ProfileRouter.OthersAtMostDemoted` | server/agent-profile-router.ts:591-791 | A request does nothing to other profiles except take the default from one |
| `ProfileRouter.NothingFollowsAMove` | server/agent-profile-router.ts:651-745 | A row changes provider only through its own patch, and then has exactly the key and gateway binding that patch supplies, no model and no effort |
| `ProfileEffects.DefaultRouteFlips` | server/agent-profile-router.ts:783-791 | The target becomes the only default of its provider, in column and blob, the previous one is demoted, nothing else of any row changes, and the response is the promoted profile |
| `ProfileEffects.UnknownDefaultRefused` | server/agent-profile-router.ts:783-791 | An unknown target is refused and nothing changes |
| `ProfileEffects.DeleteRemoves` | server/agent-profile-router.ts:747-781 | A non-default row is gone and nothing else changes; each refusal has its own reason and changes nothing |
| `ProfileEffects.ListShowsAll` | server/agent-profile-router.ts:492-534 | The list holds exactly the profiles of the seeded table |
| `ProfileEffects.PostCreates` | server/agent-profile-router.ts:591-649 | A well-formed body adds one row, at the generated id, that carries the posted provider, name, key and overlay fields, and the response is that profile |
| `ProfileEffects.PostDefaultRefused` | server/agent-profile-router.ts:591-649 | Posting a second default is refused; the table is the seeded one |
| `ProfileEffects.PatchApplies` | server/agent-profile-router.ts:651-745 | An admissible body leaves the row as patched, field by field, and the response is that profile |
| `AgentProfileRouter.Router.ConfiguredAndSeeded` | server/agent-profile-router.ts:162-181 | Table and answer after the catalog is read and seeded |
| `AgentProfileRouter.Router.ListProfiles` | server/agent-profile-router.ts:492-534 | Table and listed profiles of the list route |
| `AgentProfileRouter.Router.PostProfile` | server/agent-profile-router.ts:591-649 | Table and response of the create route |
| `AgentProfileRouter.Router.PatchProfile` | server/agent-profile-router.ts:651-745 | Table and response of the patch route, the profile being read before seeding |
| `AgentProfileRouter.Router.DeleteProfile` | server/agent-profile-router.ts:747-781 | Table and response of the delete route |
| `AgentProfileRouter.Router.PostDefault` | server/agent-profile-router.ts:783-791 | Table and response of the default route |
| `OrchestratorPeer.HoldsAtFirstUnsettled` | scripts/orchestrator-peer.ts:160-180 | The hold is at the first message of another sender still streaming, and everything before is settled |
| `OrchestratorPeer.AscendingIsSorted` | scripts/orchestrator-peer.ts:148-158 | A page in order is its own unseen, sorted list |
| `OrchestratorPeer.AcksSource` | scripts/orchestrator-peer.ts:160-185 | Every due text is the text built for a complete or truncated message of somebody else |
| `OrchestratorPeer.FinishedIsOwed` | scripts/orchestrator-peer.ts:178-184 | Every complete or truncated message of somebody else has its text due |
| `OrchestratorPeer.OneTextEach` | scripts/orchestrator-peer.ts:178-184 | One text is due per such message |
| `OrchestratorPeer.SelectionSelects` | scripts/orchestrator-peer.ts:148-188 | What the selection means, by sender and status, for every page |
| `OrchestratorPeer.SelectNewMessages` | scripts/orchestrator-peer.ts:148-188 | The loop selects one text for each complete or truncated message of others before the first one still streaming, in order and no others; the cursor is the highest number before it |
| `OrchestratorPeer.ScanUnseen` | scripts/orchestrator-peer.ts:160-187 | The scan over sorted messages does so |
| `OrchestratorPeer.Peer.RelayChannel` | scripts/orchestrator-peer.ts:533-612 | Posts are a prefix of the due texts up to the first failure; the cursor is handed back only after all |
| `OrchestratorPeer.Peer.PollOnce` | scripts/orchestrator-peer.ts:614-659 | Each cursor moves only past a page whose every due text was posted, posting stops only at a failing post, and a failed product relay never polls impl |
| `PeerRelay.AcksAscend` | scripts/orchestrator-peer.ts:148-188 | Due texts ascend by message, so none is due twice |
| `PeerRelay.SelectionOfAscending` | scripts/orchestrator-peer.ts:148-188 | The machine's fetch step is what the selection code computes on a hub page |
| `PeerRelay.StepKeepsInv` | scripts/orchestrator-peer.ts:533-656 | Cursor, selection and channel order survive every step, failures included |
| `PeerRelay.StepKeepsExact` | scripts/orchestrator-peer.ts:533-656 | While posts succeed, the posting history stays exactly what is due |
| `PeerRelay.StepKeepsCovered` | scripts/orchestrator-peer.ts:533-656 | With failing posts, nothing due below the cursor is missing and nothing partial was posted |
| `PeerRelay.PollScheduleIndependence` | scripts/orchestrator-peer.ts:533-656 | In every failure-free run, every complete or truncated message of others up to the cursor has its text posted, every post is the text of such a message already read, posts ascend without repeats, and between polls they are exactly those up to the cursor |
| `PeerRelay.CursorNeverPassesUnposted` | scripts/orchestrator-peer.ts:533-656 | In every run, failing posts included, every complete or truncated message of others at or below a cursor has had its text posted, and nothing but such texts was |
| `PeerRelay.NoEchoAmplification` | scripts/orchestrator-peer.ts:565-656 | Whatever the channels held at the start, the rows the peer adds to one number exactly the other channel's complete and truncated messages of others up to its cursor, plus those of the page at hand |
| `PeerRelay.PostsArriveInOrder` | scripts/orchestrator-peer.ts:565-612 | In every run, the peer's rows in a channel are those it had there followed by the texts posted, in order and unchanged |
| `PeerRelay.PollCatchesUp` | scripts/orchestrator-peer.ts:533-612 | From between polls, polling without failures brings the cursor to the end of the channel or to the first message of others still streaming |
| `Ndjson.SplitJoins` | bin/relay-ide.ts:7876-7908 | The reference split has newline-free pieces that join back to the text |
| `Ndjson.LinesAppend` | bin/relay-ide.ts:7886-7897 | Splitting a growing text: finished lines stay, the tail is completed |
| `Ndjson.FirstLine` | bin/relay-ide.ts:7888-7893 | Taking a line off the buffer takes the first line off the split |
| `Ndjson.FeedAppend` | bin/relay-ide.ts:7888-7897 | The callback sees a longer list as the shorter one until it stops |
| `Ndjson.DrainBuffer` | bin/relay-ide.ts:7888-7897 | The inner loop hands on exactly the complete lines |
| `Ndjson.StreamLines` | bin/relay-ide.ts:7876-7908 | For every cutting into chunks the callback gets the trimmed newline-split of the whole text, cut after the first line it stops at |
| `Ndjson.LastPiece` | bin/relay-ide.ts:7897-7900 | At a clean end the rest of the buffer and of the decoder is the last line |
| `Ndjson.StoppedEarly` | bin/relay-ide.ts:7894-7896 | Chunks never read cannot change what was handed on |
| `Ndjson.CallbackSeesTrimmedLines` | bin/relay-ide.ts:7888-7893 | The callback gets the trimmed lines in order, each once, up to and with the first it does not continue on |
| `ChannelSubscribe.BackoffGrows` | bin/relay-ide.ts:7761-7770 | Delays lie between 50 and 1000 ms and never decrease |
| `ChannelSubscribe.TotalBackoffBound` | bin/relay-ide.ts:7761-7770 | All delays of a run add up to at most 6550 ms |
| `ChannelSubscribe.WirePrefix` | bin/relay-ide.ts:7876-7908 | A text cut anywhere is whole frames and a prefix of the next |
| `ChannelSubscribe.FeedKeepsSeamless` | bin/relay-ide.ts:7999-8052 | Handing on frames keeps what is offered to stdout without gap or duplicate, whatever stdout does with it |
| `ChannelSubscribe.ConnectionKeepsSeamless` | bin/relay-ide.ts:7996-8063 | A connection whose bytes break off anywhere, even inside a line or a character, does too |
| `ChannelSubscribe.FeedKeepsBudget` | bin/relay-ide.ts:7999-8052 | The event budget holds however lines arrive |
| `ChannelSubscribe.ReadConnection` | bin/relay-ide.ts:7996-8065 | The reading loop gives the session and the wish to resume that the reference gives for the whole connection |
| `ChannelSubscribe.WriteResumed` | bin/relay-ide.ts:8070-8092 | The resumption notice names the last row offered; a refused notice leaves the log alone |
| `ChannelSubscribe.ConnectOnce` | bin/relay-ide.ts:7968-8097 | One connection makes one round of the run: retry, stop, or announce and resume |
| `ChannelSubscribe.Subscribe` | bin/relay-ide.ts:7910-8124 | The loop is the run function, with at most 11 connections, 6550 ms of sleep and `maxEvents` events |
| `ChannelSubscribe.RunKeepsBounds` | bin/relay-ide.ts:7962-8099 | Every run keeps the connection and event bounds, and a refused write that ends the run is the last entry |
| `ChannelSubscribe.ResumeSafety` | bin/relay-ide.ts:7927-8097 | With an honest hub and any stdout, the rows offered over all reconnects are consecutive from the starting point, the rows written are consecutive exactly if none was written after a refused one, and both this and the resumption notices are right whenever every refused write ends the run |
| `SubscribeProgress.ResumeAskedIff` | bin/relay-ide.ts:8024-8035 | With attempts left, reading lines asks for a resumption exactly if a retryable `closed` frame was handed on |
| `SubscribeProgress.BreakIsFollowed` | bin/relay-ide.ts:8054-8096 | With attempts left, unaborted and within the budget, a connection that breaks or hands on a retryable `closed` frame is announced and followed by another from the last durable number |
| `SubscribeProgress.RefusalIsFollowed` | bin/relay-ide.ts:7980-7991 | With attempts left, a retryable refusal is followed by another connection from the same number |
| `SubscribeProgress.RunEndsOnlyIf` | bin/relay-ide.ts:7962-8099 | A run ends only aborted, closed normally, with its attempts used up, refused without retry, with its event budget used up, with its resumption notice refused by stdout, or after a connection that ended cleanly without a retryable `closed` frame |
| `SubscribeProgress.EverythingArrives` | bin/relay-ide.ts:7962-8099 | From any point of a run with at most ten interruptions, wherever in the bytes they fall, exactly the rows up to the target are written, in order, and each resumption names the last one |
| `SubscribeProgress.SubscriptionGetsEverything` | bin/relay-ide.ts:7910-8099 | The same for a whole subscription |
| `ChannelSubscribe.WrittenInOrderIff` | bin/relay-ide.ts:7999-8052 | For every stdout: the rows written have no gap exactly if no row was written after a refused one |
| `ChannelSubscribe.ResumptionNamesLastWrittenIff` | bin/relay-ide.ts:8070-8092 | A resumption names the last row written exactly if no row had been refused before it |
| `ChannelSubscribe.ReaderSeesNoGap` | bin/relay-ide.ts:8037-8063 | While every refused write ends the run (closed pipe, or a failure that aborts), the reader sees no gap and every resumption names its last row |
| `ChannelSubscribe.FailedWriteSkipsRows` | bin/relay-ide.ts:8007-8063 | A write that fails without ending the run throws after the cursor has moved: the stream resumes behind rows that were not written |
| `ChannelSubscribe.FailedWriteLosesRows` | bin/relay-ide.ts:8007-8063 | The next row written then leaves a gap |
| `SubscribeWitness.CodecCanBeMet` | bin/relay-ide.ts:7999-8006 | A codec, decoder and transcoding that meet the assumptions of the resume guarantee |
| `SessionsWait.RetainSuffix` | shared/cli-gateway-sessions-wait.ts:1-6 | The retained suffix is as long as the predicate needs, less one, and no longer |
| `SessionsWait.WindowFindsTheSame` | bin/relay-ide.ts:3796-3804 | The window finds a new match exactly when the whole text has one |
| `SessionsWait.ObserveFrame` | bin/relay-ide.ts:3779-3813 | One frame's verdict is the verdict on everything received; counted bytes stop at the budget |
| `SessionsWait.HandleEvent` | bin/relay-ide.ts:3779-3852 | Each event decides as the reference says |
| `SessionsWait.Wait` | bin/relay-ide.ts:3694-3852 | At most one envelope, the first verdict over all prefixes; observed bytes are those received until then and within the budget |
| `SessionsWait.VerdictIsStable` | bin/relay-ide.ts:3779-3813 | More output cannot change a verdict |
| `SessionsWait.CutIndependence` | bin/relay-ide.ts:3779-3813 | However output is cut into frames: matched exactly if the first `maxBytes` bytes contain the text, else over budget exactly if longer |
| `SessionsWait.OutputDecides` | bin/relay-ide.ts:3779-3813 | The envelope for output alone: matched, over budget or none yet, decided by the concatenated bytes |
| `SessionsWait.OtherOutcomes` | bin/relay-ide.ts:3815-3852 | While undecided, the timeout, the close and the error each give their own outcome, and the idle timer gives idle exactly if idleness was asked for |
| `SessionsWait.FirstVerdictStands` | bin/relay-ide.ts:3716-3768 | Once decided, no later event changes outcome or byte count |
| `SessionsWait.BytesCounted` | bin/relay-ide.ts:3785-3794 | While undecided the count is the bytes received; a further event counts up to the budget |
| `AcpClient.NextKeepsCalls` | server/acp-client.ts:146-189 | Every event keeps calls, timers and numbering in agreement |
| `AcpClient.CorrelationSafety` | server/acp-client.ts:265-312 | In every run, an answered call was answered by the child it was sent to under its number, and each call is open, resolved or rejected, open exactly while pending |
| `AcpClient.NothingPendingAfterEnd` | server/acp-client.ts:297-312 | After stop or the live child's close no call is open and no timer armed |
| `AcpClient.ResponseSettles` | server/acp-client.ts:430-478 | In every run, a response of the live child to an open call resolves it, or rejects it for an error object; its number and timer are gone and no other call, number or timer changes |
| `AcpClient.OtherRecordsSettleNothing` | server/acp-client.ts:392-449 | Any other record leaves the client alone |
| `AcpClient.TimeoutRejects` | server/acp-client.ts:274-281 | In every run, an armed timer rejects its call and no other |
| `AcpClient.ErrorRejectsAll` | server/acp-client.ts:176-179 | In every run, a child error rejects exactly the open calls |
| `AcpClient.EndRejectsAll` | server/acp-client.ts:297-312 | Stop and the live child's close forget the child and reject exactly the open calls |
| `AcpClient.RequestGoesOut` | server/acp-client.ts:265-295 | With a stdin that accepts, a request opens one call under the next number, arms its timer if asked and writes its line last |
| `AcpClient.NotifyGoesOut` | server/acp-client.ts:246-254 | A notification writes its line last and opens no call |
| `AcpClient.RespondGoesOut` | server/acp-client.ts:256-263 | With a child, a response does what a notification does |
| `AcpClient.StartBringsUpChild` | server/acp-client.ts:146-189 | Start spawns a child and opens a timed `initialize` call to it |
| `AcpClient.DrainResumes` | server/acp-client.ts:503-507 | A drain writes the waiting lines to the live child in order |
| `AcpClient.FullStdinWaits` | server/acp-client.ts:501-511 | A full stdin takes its line, and the next one waits |
| `AcpClient.ThrownWriteRejects` | server/acp-client.ts:490-500 | A thrown write empties the queue and rejects every open call, the new one included |
| `AcpClient.WireOrder` | server/acp-client.ts:480-514 | In every run lines are written in the order queued and without repeats, and with a live child and no drain pending nothing waits |
| `AcpClient.PrefixExactlyWithoutLateWrite` | server/acp-client.ts:485-514 | What was written since the last reset is a prefix of what was queued exactly without a line accepted after a thrown write |
| `AcpClient.PrefixIff` | server/acp-client.ts:485-514 | The same for one state |
| `AcpClient.WriteBreaksPrefixIff` | server/acp-client.ts:485-514 | From a state of any run that still has the prefix property, an event that writes breaks it exactly if lines were discarded before |
| `AcpClient.ThrownWriteLeavesGap` | server/acp-client.ts:489-500 | A thrown write followed by an accepted one leaves a gap |
| `AcpClient.AnswerWithoutChildReachesNextChild` | server/acp-client.ts:256-263 | An answer queued without a child goes to the next one, right before its `initialize` |
| `AcpClient.NoWriteWhileDraining` | server/acp-client.ts:485-498 | Nothing is written while stdin is full |
| `AcpClient.FlushAll` | server/acp-client.ts:485-514 | A stdin that accepts everything gets the whole queue in order |
| `AcpTransport.Transport.RejectPending` | server/acp-client.ts:531-537 | The loop rejects every pending promise and clears its timer |
| `AcpTransport.Transport.Flush` | server/acp-client.ts:485-514 | The write loop makes the machine's flush, for every sequence of outcomes |
| `AcpTransport.Transport.Enqueue` | server/acp-client.ts:480-483 | Queue, then flush |
| `AcpTransport.Transport.Start` | server/acp-client.ts:146-189 | Refused while a child lives or stops; else spawn and send `initialize` |
| `AcpTransport.Transport.Request` | server/acp-client.ts:265-295 | A new promise under the next number, or rejection without a child |
| `AcpTransport.Transport.Notify` | server/acp-client.ts:246-254 | A line without a call |
| `AcpTransport.Transport.Respond` | server/acp-client.ts:256-263 | A line queued even without a child |
| `AcpTransport.Transport.HandleLine` | server/acp-client.ts:392-449 | Requests, notifications, responses and malformed records, each to its place |
| `AcpTransport.Transport.Settle` | server/acp-client.ts:451-478 | The pending call with that number settles once; unknown numbers change nothing |
| `AcpTransport.Transport.OnTimeout` | server/acp-client.ts:274-284 | An armed timer rejects its own call |
| `AcpTransport.Transport.OnDrain` | server/acp-client.ts:503-507 | The queue goes on |
| `AcpTransport.Transport.ResetTransport` | server/acp-client.ts:539-547 | Calls rejected, queue empty, numbering restarted, no drain pending |
| `AcpTransport.Transport.OnClose` | server/acp-client.ts:180-189 | The child is forgotten and everything open rejected |
| `AcpTransport.Transport.Stop` | server/acp-client.ts:297-312 | Idempotent; the child is forgotten and everything open rejected |
| `AntigravityClient.NextKeeps` | server/antigravity-stream-client.ts:155-265 | Every event keeps writes conserved, in order, and closing consistent |
| `AntigravityClient.WriteConservation` | server/antigravity-stream-client.ts:155-265 | In every run each accepted write is exactly one of queued, in flight or settled; lines reach stdin in call order once each; close is emitted at most once and, unless teardown gave up, leaves nothing unsettled |
| `AntigravityClient.NoSendWhileDraining` | server/antigravity-stream-client.ts:205-242 | Nothing is handed to stdin while it asked to wait |
| `AntigravityClient.CallbackSettles` | server/antigravity-stream-client.ts:215-224 | In every run, a successful callback fulfils exactly its own promise |
| `AntigravityClient.FailureRejectsAll` | server/antigravity-stream-client.ts:244-265 | In every run, a stdin error or child close closes once and rejects exactly the open promises |
| `AntigravityClient.WriteGoesOut` | server/antigravity-stream-client.ts:174-194 | With a stdin that accepts, a write is sent after the ones waiting and is in flight |
| `AntigravityClient.WriteWithoutChildRefused` | server/antigravity-stream-client.ts:174-180 | Without a child or after the close a write is not accepted |
| `AntigravityClient.DrainResumes` | server/antigravity-stream-client.ts:234-238 | A drain sends the waiting lines in order |
| `AntigravityClient.FullStdinWaits` | server/antigravity-stream-client.ts:232-240 | A full stdin takes its line, and the next one waits |
| `AntigravityClient.ThrownWriteRejects` | server/antigravity-stream-client.ts:225-231 | In every run, a thrown write closes once and leaves no promise open |
| `AntigravityClient.StartBringsUpChild` | server/antigravity-stream-client.ts:123-168 | The first start has a child, or is closed if the spawn failed |
| `AntigravityClient.StopOutcome` | server/antigravity-stream-client.ts:304-351 | Stop begins teardown of a live child and otherwise detaches; teardown ends closed and detached, given up exactly if the child had not closed |
| `AntigravityClient.GivingUpStrandsTheQueue` | server/antigravity-stream-client.ts:315-379 | After teardown gave up, no later event settles a queued write |
| `AntigravityClient.TeardownStrandsIff` | server/antigravity-stream-client.ts:315-379 | In every run, when teardown ends a write never settles in any continuation exactly if the child has not closed and the write is still queued |
| `AntigravityClient.TeardownCanStrand` | server/antigravity-stream-client.ts:315-379 | A run that gets there |
| `AntigravityStream.Stream.Start` | server/antigravity-stream-client.ts:123-168 | New state, or the spawn failure |
| `AntigravityStream.Stream.WriteAccepted` | server/antigravity-stream-client.ts:174-194 | Queue and flush, or reject at once |
| `AntigravityStream.Stream.Flush` | server/antigravity-stream-client.ts:205-242 | The loop makes the machine's flush, for every sequence of outcomes |
| `AntigravityStream.Stream.OnWriteCallback` | server/antigravity-stream-client.ts:215-224 | The write leaves flight and settles once |
| `AntigravityStream.Stream.OnStdinError` | server/antigravity-stream-client.ts:244-258 | Everything outstanding is rejected, once |
| `AntigravityStream.Stream.RejectPendingWrites` | server/antigravity-stream-client.ts:260-265 | The loops reject every queued and flying write |
| `AntigravityStream.Stream.OnChildClose` | server/antigravity-stream-client.ts:155-168 | Outstanding writes rejected and close emitted once |
| `AntigravityStream.Stream.Stop` | server/antigravity-stream-client.ts:304-313 | Idempotent start of teardown |
| `AntigravityStream.Stream.OnTeardownEnds` | server/antigravity-stream-client.ts:315-351 | Detached, closed or given up |
| `BackendSupervisor.NextKeeps` | scripts/dev-supervisor.ts:50-145 | Every event keeps the process fields true |
| `BackendSupervisor.FreshnessAndNoLostChange` | scripts/dev-supervisor.ts:50-145 | In every run before stop: at most one live build and backend, a queued change has a running build in front, and a backend with no restart pending is no older than the last successful build |
| `BackendSupervisor.QueuedChangeIsBuiltUnlessUnnamed` | scripts/dev-supervisor.ts:99-133 | A queued change is built when the running build ends, exactly if its path is not empty |
| `BackendSupervisor.NothingSpawnsAfterStop` | scripts/dev-supervisor.ts:62-66 | After stop nothing spawns until start |
| `BackendSupervisor.ChangeIsBuilt` | scripts/dev-supervisor.ts:55-60 | A change starts a build, or is queued behind the running one |
| `BackendSupervisor.BuildOutcome` | scripts/dev-supervisor.ts:111-125 | A good build starts the backend or signals the running one for a restart; a failed build leaves the backend alone |
| `BackendSupervisor.BuildErrorOutcome` | scripts/dev-supervisor.ts:126-132 | A build that cannot run leaves the backend alone and a queued named change is built |
| `BackendSupervisor.BackendOutcome` | scripts/dev-supervisor.ts:75-91 | A backend that exits is replaced if a restart was asked for, else its exit is fatal |
| `BackendSupervisor.BackendErrorOutcome` | scripts/dev-supervisor.ts:92-96 | A backend error is fatal and starts nothing |
| `BackendSupervisor.StartSpawns` | scripts/dev-supervisor.ts:50-53 | Start spawns a backend unless there is one |
| `BackendSupervisor.StopSignals` | scripts/dev-supervisor.ts:62-66 | Stop signals build and backend |
| `BackendSupervisor.ChangeReachesBackend` | scripts/dev-supervisor.ts:55-145 | After a change, its good build and the exit of the old backend, a live backend started after the change, and no change is left unbuilt |
| `BackendSupervisor.Process.Begin` | scripts/dev-supervisor.ts:50-53 | Start makes the machine's step |
| `BackendSupervisor.Process.RequestRestart` | scripts/dev-supervisor.ts:55-60 | A change makes the machine's step |
| `BackendSupervisor.Process.End` | scripts/dev-supervisor.ts:62-66 | Stop makes the machine's step |
| `BackendSupervisor.Process.BackendExited` | scripts/dev-supervisor.ts:68-97 | The exit handler makes the machine's step |
| `BackendSupervisor.Process.BuildExited` | scripts/dev-supervisor.ts:99-133 | The build exit handler makes the machine's step |
| `AttachmentPublication.PublicationIsSafe` | server/channel-attachments.ts:336-406 | From a safe start, with any writers and crashes, the path holds nothing, the old wrong-sized file or the complete bytes; complete stays complete; a row implies complete |
| `AttachmentPublication.LoneWriterPublishes` | server/channel-attachments.ts:336-406 | From any disk a writer left alone inserts its row, with the complete payload in place unless a file of that size was there |
| `AttachmentPublication.SameSizeIsTrusted` | server/channel-attachments.ts:352-353 | Wrong bytes of the right size get a row |
| `AttachmentPublication.UnlinkRaceLosesPayload` | server/channel-attachments.ts:354-367 | Where renames do not replace, a completed payload can be unlinked under its row |
| `AttachmentPublication.RowImpliesPayloadExactlyFromSafeStarts` | server/channel-attachments.ts:336-406 | A row implies a complete payload in every run exactly from the safe starts |
| `AttachmentPublication.IngestMany` | server/channel-attachments.ts:417-441 | Too many inputs or one bad image persist nothing; otherwise all are persisted in order, up to the first that cannot be |
| `EngagementMetrics.FindLastAgentStopTime` | server/analytics.ts:627-637 | The backward scan finds the most recent stop |
| `EngagementMetrics.CarriedStopAgrees` | server/analytics.ts:627-637 | It agrees with one pass that carries the stop |
| `EngagementMetrics.ComputeAgentIdlePercent` | server/analytics.ts:650-681 | The loop sums the stretches of waiting of the one-pass reference |
| `EngagementMetrics.WaitsAreDisjoint` | server/analytics.ts:650-681 | For ordered events the stretches are disjoint and inside the session |
| `EngagementMetrics.PromptEndsWait` | server/analytics.ts:666-674 | A prompt with an agent stop before it ends the wait that began at the latest one |
| `EngagementMetrics.WaitHasPrompt` | server/analytics.ts:666-674 | There are no other waits |
| `EngagementMetrics.WaitCounts` | server/analytics.ts:639-648 | A wait counts in full, or not at all if a rate limit fell into it |
| `EngagementMetrics.IdleAccountingBound` | server/analytics.ts:639-681 | So the idle percentage is between 0 and 100 |
| `EngagementMetrics.PercentIsShare` | server/analytics.ts:678-680 | The percentage is 100 times the idle share of the session, rounded to a tenth |
| `EngagementMetrics.LatencySamples` | server/analytics.ts:585-608 | The loop collects the samples of the backward-looking reference |
| `EngagementMetrics.LatenciesNonNegative` | server/analytics.ts:585-608 | For ordered events no sample is negative |
| `EngagementMetrics.PromptGivesSample` | server/analytics.ts:594-607 | A prompt after a notification of the current stop gives the time between as a sample |
| `EngagementMetrics.OneSampleEach` | server/analytics.ts:594-607 | One sample per such prompt |
| `EngagementMetrics.NearestRank` | server/analytics.ts:553-557 | The percentile is the least sample that at least p percent of the samples do not exceed |
| `EngagementMetrics.LatencyPercentilesInOrder` | server/analytics.ts:610-624 | Over the sorted samples 0 <= min <= p50 <= p95 <= max |
| `Retention.Analytics.RunRetentionCleanup` | server/analytics.ts:737-780 | New tables: old events gone, snapshots thinned hourly, then daily |
| `Retention.CleanupKeeps` | server/analytics.ts:756-779 | A cleanup keeps exactly the rows of the last 7 days and of each older hour or day its lowest-id row, unchanged |
| `Retention.OnePerSlot` | server/analytics.ts:756-779 | Every older hour and day that had a row keeps exactly one, its lowest |
| `Retention.CleanupIsIdempotent` | server/analytics.ts:756-779 | Repeating at the same time changes nothing |
| `Retention.EarlierCleanupsAbsorbedIff` | server/analytics.ts:756-779 | An earlier cleanup leaves no trace in a later one exactly when no hour straddles the later thirty-day mark |
| `Retention.StraddledHourLosesARow` | server/analytics.ts:756-779 | A straddled hour, and the earlier cleanup that makes a difference |
| `Retention.ScheduleIndependence` | server/analytics.ts:737-780 | However cleanups and inserts interleaved, the last cleanup leaves what one cleanup of everything ever inserted would |
| `Retention.FirstOfDaySurvives` | server/analytics.ts:737-780 | In every history each day that ever had a snapshot still has its first one |

## Left out

- HTTP, WebSocket, argument parsing, printing, exit codes, authentication and process plumbing around the modelled code.
- Cryptography and hashing: a secret's hash is an opaque value; registry capabilities, scopes, audiences and audit are not modelled, nor credentials of other kinds in the same registry.
- Corrupt credential rows and writes by a second process; the swap of the registry when the configured ceiling changes.
- `noteUsed` and its debounce map: last-used stamps authenticate nothing.
- AgentProfileStore.ApplyProfilePatch: leaves out the fields that no guard relates to another (avatar, environment variables, name pool, respond-to and its allowlist) and the timestamps of profile rows.
- AgentProfileRouter.Router.ListProfiles: lists the profiles as a set, without the order of the query and the availability a binder adds.
- AgentProfileRouter.Router.DeleteProfile: does not drive the credential sweep, which is `CredentialService.Service.DeleteProfile`.
- CredentialService.Service.ImportRows: stored rows are well formed, so an import that throws and is skipped does not occur.
- Refusals of unknown, managed and ill-typed fields are modelled, but not which field name the error reports, nor their order within one body.
- CredentialService.Service: the clock stands still during one call; the machine lets it advance between any two steps.
- CredentialService.Service.Revoke: the per-row updates of a plain revoke are one step, since the unique index leaves at most one.
- OrchestratorPeer.Peer.PollOnce: receipts, delivery states, token refresh and delays are not modelled; the awaits inside a poll are the steps of `PeerRelay`.
- PeerRelay.PollScheduleIndependence: assumes of the hub that sequence numbers ascend, pages are lowest-first and finished messages do not change.
- ChannelSubscribe.ResumeSafety: assumes an honest hub, a faithful transcoding and a codec in which no line cut short parses (`ChannelSubscribe.Trusted`); the bounds and the reasons to end assume nothing of the hub.
- SubscribeProgress.EverythingArrives: stated for a stdout that accepts writes and a run without an event budget.
- SessionsWait.Wait: timers fire as events; elapsed times in the envelope are not modelled.
- The stop ladders of both clients appear only by their end states: terminated, or given up.
- Standard error rings, line framing of child output and stderr tails of the transports.
- AttachmentPublication.PublicationIsSafe: files are modelled by the stated steps (write, sync, stat, rename, unlink), temp-file cleanup and image decoding are not; writers are steps of a machine rather than code on a real file system.
- EngagementMetrics.ComputeAgentIdlePercent: arithmetic is over reals, so floating-point rounding of the ratio is not modelled.
- The average latency, tool and rate-limit counts: sums and filters.
- Retention.Analytics.RunRetentionCleanup: the clock is read once for all statements.
