# swiyu-issuer: models and proofs

This project models the parts of swiyu-issuer that share database rows between
concurrent requests and background workers, and proves what every run of them
guarantees. `dafny verify dfyconfig.toml` checks everything.

Two forms are used together:

- *Rows and handlers.* Objects and tables that the program updates in place are
  classes (`StatusListTable`, `StatusService`, `OfferStore`, `InvitationStore`,
  `OAuth2TokenProvider`, `TaskTable`, `JwksCache`, ...). Their methods follow the
  program's branches and are proved against functions on row values.
- *Interleavings.* A state machine per protocol (`StatusPipeline`,
  `OfferProtocol`, `InvitationProtocol`, `TokenProtocol`, `TaskWorker`,
  `ValidatorCache`, `Jwks`) takes one SQL statement, lock, remote call or record as
  one step and uses the same row functions. Statements inside a transaction see
  committed rows and their own writes (READ COMMITTED); an UPDATE, a `FOR UPDATE`
  read or a conflicting INSERT waits; writes become visible at the commit; any
  transaction may roll back and any process may crash between steps. Theorems are
  about every state of every run, for any number of requests. For each handler a
  lemma says that its undisturbed call is one sequence of the machine's steps with
  the same effect (`Undisturbed` defines the sequence).

The components:

1. **Credential status** (`StatusBits`, `StatusLists`, `IssuedCredentials`,
   `StatusPipeline`, `StatusTheorems`, `StatusPublication`, `StatusCounterexamples`,
   `StatusService`): packed two-bit slots, index allocation, suspend, unsuspend and
   revoke, and the publisher, up to what the public registry shows.
2. **Offer redemption** (`Offers`, `OfferProtocol`, `OfferTheorems`, `OfferHandlers`).
3. **Invitation linking** (`Invitations`, `InvitationProtocol`, `InvitationTheorems`,
   `InvitationHandlers`).
4. **OAuth2 token provider** (`TokenProvider`, `TokenProtocol`, `TokenTheorems`).
5. **Operation-task worker** (`Backoff`, `OperationTasks`, `TaskWorker`, `TaskTheorems`).
6. **Smaller components**: `Paging` and `Cursors`, `SdJwt` over `Base64Url` and
   `Text`, `DidLog`, `ValidatorCache`, `Jwks`.

Properties a reader might expect that do not hold are shown failing in a concrete
run of the model and stated with the exact condition under which they hold:

- Revoked is not final under interleaving: a lifecycle call reads the credential
  without a lock (`StaleReadLeavesRevoked`). What a call's commit does is decided by
  the row it finds when its row lock comes (`CommitIsLegalExactlyWhenPermitted`), and
  Revoked is left in a run if and only if a call commits that found the credential
  Revoked then and writes another state (`RevokedIsFinalUnlessAStaleCallCommits`).
- The registry can hide a newer status although nothing is pending: a stalled
  publisher's PUT lands late (`LatePutHidesSuspension`), it lands between another's
  PUT and its record (`OvertakingPutHidesSuspension`), or, with one publisher, a PUT
  that timed out lands after its retry (`TimedOutPutHidesSuspension`). Every entry stays
  between the published and the committed version if and only if no PUT lands older
  than what is recorded as published and every success that is recorded finds the
  entry at its own version or newer (`RegistryIsRecentExactlyInOrder`). Rounds that
  do not overlap, as with one publisher, and PUTs that land within their round ensure
  it (`DisjointRoundsAreInOrder`, `SolePublisherIsDisjoint`).
- A refresh token is presented again after a grant that failed
  (`FailedGrantPresentsAgain`): two grants present the same token if and only if no
  grant was committed in between (`PresentedAgainExactlyUntilACommit`). The stored token
  is usable if and only if no rotation was lost (`StoredTokenIsCurrentUnlessLost`).
- An expired invitation still blocks a new one at the very instant of its expiry:
  the clearing UPDATE uses `<`, the observed state `>=`
  (`ExpiredInvitationBlocksItsSuccessor`, `ExpiredBlocksOnlyAtItsInstant`).
- The offer state filter disagrees with the observed state for a row stored as
  `expired`; no reachable row is (`FilterAgreesUnlessStoredExpired`).

Where the code and its comments differ, the model follows the code:

- `OperationTask` documents `attempts` as zero during the first attempt of a step.
  That is so for the first step only; after an advance the row is still in progress
  and the first claim of the new step already counts one
  (api/src/domain/operation_task.rs:288-302). The saturation at 2^32 - 1 is never
  reached: the `as i32` cast makes the stored counter negative at 2^31, and the row
  no longer decodes.
- The bulk cancel says that expired offers are left alone and, two lines later,
  that they are not. The UPDATE cancels them (api/src/persistence/credential_offers.rs:202-225).

## Model

| member | source | states |
|---|---|---|
| StatusBits.SlotLaw | api/src/persistence/status_lists.rs:205-222 | Writing one two-bit slot changes that slot and no other, within its byte or elsewhere |
| StatusBits.SlotWireFormat | api/src/persistence/status_lists.rs:177-185 | Slot i is the pair of bits 2 (i mod 4) of byte i div 4; 0, 1 and 2 stand for valid, revoked and suspended |
| StatusBits.WithSlotRefines | api/src/persistence/status_lists.rs:205-222 | The byte edit is the update of one element in the list of status values |
| StatusBits.SlotsInjective | api/src/persistence/status_lists.rs:177-185 | The packed bytes and the list of status values determine each other |
| StatusBits.SetAt | api/src/persistence/status_lists.rs:218-222 | In-place edit of the buffer: one slot changes; an index out of range is reported and changes nothing |
| StatusLists.StatusListTable.ProvisionForIssuer | api/src/persistence/status_lists.rs:35-66 | Inserts a zero-filled list with its registry entry, then re-points the issuer; an unknown issuer changes nothing, a failed second statement leaves the list behind |
| StatusLists.StatusListTable.CurrentForIssuerWithUrl | api/src/persistence/status_lists.rs:116-140 | The issuer's current list with its URL, None for an unknown issuer and for one without a list |
| StatusLists.StatusListTable.AllocateIndex | api/src/persistence/status_lists.rs:156-175 | Hands out the old allocation count and bumps the version; a full or unknown list gives None and no write |
| StatusLists.StatusListTable.WriteBit | api/src/persistence/status_lists.rs:186-238 | Rewrites the whole bitstring with one slot changed and bumps the version; every error leaves all rows alone |
| StatusLists.StatusListTable.RecordPublishSuccess | api/src/persistence/status_lists.rs:250-276 | Wins exactly when the published version is below the target; a lost guard changes nothing |
| StatusLists.StatusListTable.RecordPublishFailure | api/src/persistence/status_lists.rs:286-310 | Records error, retry time and one more attempt, and leaves both versions alone |
| StatusLists.StatusListTable.AcquireNextDirty | api/src/persistence/status_lists.rs:330-361 | Leases the first runnable unlocked row in the documented order, None exactly when there is none |
| IssuedCredentials.VerbsRealiseTheTransitions | api/src/domain/issued_credential.rs:174-216 | A verb is accepted exactly where its target is a legal next state, and the handler's bit is that target's public status |
| IssuedCredentials.IssuedCredential.TrySuspend | api/src/domain/issued_credential.rs:174-182 | Active becomes Suspended, anything else is refused unchanged |
| IssuedCredentials.IssuedCredential.TryUnsuspend | api/src/domain/issued_credential.rs:190-198 | Suspended becomes Active, anything else is refused unchanged |
| IssuedCredentials.IssuedCredential.TryRevoke | api/src/domain/issued_credential.rs:207-215 | Active and Suspended become Revoked, Revoked is refused |
| StatusPipeline.InvHolds | api/src/persistence/status_lists.rs:156-361 | In every reachable state rows, slots, locks, open transactions, version history and publish rounds agree |
| StatusPipeline.LifecycleSlots | api/src/api_management/issued_credentials.rs:249-262 | A lifecycle commit keeps every slot equal to its row's state, although it writes a whole bitstring |
| StatusPipeline.LocksKept | api/src/api_management/issued_credentials.rs:249-275 | Two open transactions never hold the same credential or list row |
| StatusPipeline.IssuanceOwners | api/src/api_oidc/credential.rs:242-288 | An issuance commit keeps indices unique and every allocated index taken |
| StatusTheorems.SlotEncodesState | api/src/api_management/issued_credentials.rs:227-275 | In every interleaving each committed credential's slot encodes its committed state |
| StatusTheorems.IndicesAreDense | api/src/persistence/status_lists.rs:156-175 | Credentials of a list sit one-to-one on the indices below its allocation count, within capacity, and all higher slots are zero |
| StatusTheorems.EveryIndexIsTaken | api/src/api_oidc/credential.rs:242-288 | Every allocated index has its credential, so a rolled-back issuance leaves no gap |
| StatusTheorems.InsertNeverCollides | api/src/persistence/issued_credentials.rs:11-46 | The insert of an issuance never meets the unique constraint on list and index |
| StatusTheorems.CommitRewritesOneSlot | api/src/persistence/status_lists.rs:186-238 | No lost update: a lifecycle commit replaces one slot of one list and leaves every other list alone |
| StatusTheorems.CommitIsLegalExactlyWhenPermitted | api/src/api_management/issued_credentials.rs:237-262 | A call's commit is a documented transition if and only if its verb was permitted of the row when the row lock came, and leaves Revoked if and only if the row was Revoked then and the verb another |
| StatusTheorems.RowHeldSinceItsLock | api/src/api_management/issued_credentials.rs:249-275 | From the UPDATE of the state to its end a call holds its row, and the row stays as it was found |
| StatusTheorems.RevokedIsFinalUnlessAStaleCallCommits | api/src/api_management/issued_credentials.rs:227-275 | Over a whole run Revoked is left if and only if a call commits that found the credential Revoked under its lock and writes another state |
| StatusTheorems.StaleCallOf | api/src/api_management/issued_credentials.rs:227-275 | For a step out of Revoked, the call and the moment of its row lock at which it found the credential Revoked |
| StatusTheorems.GoodReadsMakeRevokedFinal | api/src/domain/issued_credential.rs:200-216 | Where each read is still good at its lock, every state change is a documented transition, so Revoked is never left |
| StatusPublication.HistoryIsTheRecord | api/src/persistence/status_lists.rs:224-238 | A version number names the same bitstring forever |
| StatusPublication.PublishedIsMonotone | api/src/persistence/status_lists.rs:250-276 | For any number of publishers the published version never decreases and never passes the committed one |
| StatusPublication.AcquisitionsAreALeaseApart | api/src/persistence/status_lists.rs:312-361 | Two successive acquisitions without an outcome in between lie at least the lease apart |
| StatusPublication.AcquisitionsAreDue | api/src/persistence/status_lists.rs:330-361 | In every run a list is acquired only while dirty and due, and its lease runs from that moment |
| StatusPublication.SuccessLeavesDirtyExactlyAfterAnEdit | api/src/persistence/status_lists.rs:240-276 | A recorded success leaves its list dirty if and only if a commit on that list landed after the round acquired it |
| StatusPublication.EntriesShowTheirVersion | api/src/worker/status_list_publisher.rs:167-273 | For any number of publishers an entry is the bitstring of one version of the issuer's list, no newer than the committed one |
| StatusPublication.RegistryIsRecentExactlyInOrder | api/src/worker/status_list_publisher.rs:167-273 | Over a whole run every entry lies between published and committed if and only if no PUT lands older than published and every recorded success finds the entry at its version or newer |
| StatusPublication.RegistryShowsARecentVersion | api/src/worker/status_list_publisher.rs:167-273 | In such a run the registry shows a version between published and committed, across crashes and PUTs applied though reported failed |
| StatusPublication.PublicStatusAgrees | api/src/worker/status_list_publisher.rs:167-273 | Once published and nothing pending, every credential's public slot is its row's state |
| StatusPublication.SolePublisherIsDisjoint | api/src/worker/status_list_publisher.rs:121-153 | With one publisher, rounds never overlap |
| StatusPublication.DisjointRoundsAreInOrder | api/src/worker/status_list_publisher.rs:121-273 | Rounds that do not overlap and PUTs that land within their round make a run such a run |
| StatusCounterexamples.StaleReadLeavesRevoked | api/src/api_management/issued_credentials.rs:237-255 | A concrete run in which a stale suspend takes a credential out of Revoked |
| StatusCounterexamples.LatePutHidesSuspension | api/src/persistence/status_lists.rs:318-327 | A concrete run of two publishers after which the registry shows Valid for a suspended credential with nothing pending |
| StatusCounterexamples.OvertakingPutHidesSuspension | api/src/worker/status_list_publisher.rs:205-225 | The same when the late PUT lands between the other publisher's PUT and its record |
| StatusCounterexamples.TimedOutPutHidesSuspension | api/src/worker/status_list_publisher.rs:234-268 | The same with one publisher whose timed-out PUT lands after its retry |
| StatusService.StatusService.RunLifecycleOp | api/src/api_management/issued_credentials.rs:215-278 | Credential and list row change together or not at all; which error for which cause |
| StatusService.StatusService.AllocateStatusSlot | api/src/api_oidc/credential.rs:305-345 | Succeeds exactly when a current list with URL and room exists, with the next index |
| StatusService.StatusService.Issue | api/src/api_oidc/credential.rs:238-290 | A failed signature or commit leaves no slot allocated and no credential |
| StatusService.StatusService.RunRound | api/src/worker/status_list_publisher.rs:167-273 | Missing issuer, tenant or entry records nothing; a failed build and a refusal wait an hour, a failure worth retrying any part of the backoff; what a success and an applied PUT leave |
| StatusService.LifecycleIsOneTransaction | api/src/api_management/issued_credentials.rs:215-278 | The handler's effect is that of one undisturbed transaction of the interleaving model |
| StatusService.IssuanceIsOneTransaction | api/src/api_oidc/credential.rs:238-290 | The same for an issuance |
| StatusService.RoundIsPutThenRecord | api/src/worker/status_list_publisher.rs:187-273 | The same for a publish round: a PUT, if any, then one record |
| Backoff.DelayRange | api/src/worker/backoff.rs:27-36 | The delay never exceeds one minute times 2^attempts nor one hour, and every value up to that is drawn |
| Backoff.DelayCeilings | api/src/worker/backoff.rs:27-36 | The ceilings in milliseconds, attempt by attempt, each reached by some draw and never passed |
| Backoff.NoShiftOverflow | api/src/worker/backoff.rs:28-31 | The 64-bit shift loses no bit for any attempt count |
| Offers.CredentialOffer.TryIssue | api/src/domain/credential_offer.rs:218-228 | Succeeds exactly while observed pending; stamps the time and drops the code |
| Offers.CredentialOffer.TryCancel | api/src/domain/credential_offer.rs:250-260 | Succeeds exactly while stored pending, expired or not; stamps the time and drops the code |
| Offers.OfferStore.Token | api/src/api_oidc/token.rs:39-138 | Exchanges only an observably pending offer without a token for its code; refuses only when the code names none or one that is not; exactly so when codes are distinct |
| Offers.OfferStore.Credential | api/src/api_oidc/credential.rs:55-293 | Each check has its error and all must hold; a failed check leaves the nonces alone, later the nonce is consumed; offer, token and credential change together or not at all |
| Offers.OfferStore.CancelOffer | api/src/api_management/credential_offers.rs:216-273 | Cancels a pending offer, is idempotent on a cancelled one and conflicts otherwise |
| Offers.OfferStore.CancelAllPendingForIssuer | api/src/persistence/credential_offers.rs:202-225 | Cancels exactly the issuer's stored-pending offers and counts them |
| OfferProtocol.InvHolds | api/src/api_oidc/credential.rs:184-288 | In every reachable state offers, credentials, row locks, tokens, nonces and bulk cancels agree |
| OfferProtocol.CommitKeepsMatch | api/src/api_oidc/credential.rs:264-288 | An issuance commit keeps Issued offers and credentials in one-to-one correspondence |
| OfferProtocol.RowsForward | api/src/persistence/credential_offers.rs:138-176 | A step leaves a row that is no longer Pending exactly as it is |
| OfferProtocol.NoncesKept | api/src/persistence/oidc/nonces.rs:44-74 | A consumed nonce sits in at most one request or credential and was minted for its offer |
| OfferTheorems.CredentialsAndIssuedOffersCorrespond | api/src/api_oidc/credential.rs:207-288 | Issued offers and credentials correspond one to one, and issuance precedes expiry |
| OfferTheorems.CodeLivesWhilePending | api/src/domain/credential_offer.rs:148-166 | The pre-authorised code is stored exactly while the offer is stored Pending; the stamps name the outcome |
| OfferTheorems.TerminalRowsNeverChange | api/src/persistence/credential_offers.rs:138-176 | Once issued or cancelled a row never changes, so no offer is ever both |
| OfferTheorems.SecretsBelongToTheOffer | api/src/api_oidc/credential.rs:170-190 | Nonce and token behind a credential were minted for its own offer; the nonce backs nothing else |
| OfferTheorems.SecretsAreLiveWhenPresented | api/src/api_oidc/credential.rs:86-190 | In every run a code, token or nonce is accepted only unexpired and for its own issuer, and an offer gets a token only if it has none |
| OfferTheorems.InsertNeverCollides | api/migrations/20260430_000001_init.sql:344-360 | A request that holds the offer lock never violates the unique constraint on the credential's offer |
| OfferTheorems.BulkCancelLeavesNonePending | api/src/persistence/credential_offers.rs:178-225 | After a bulk cancel no offer pending at its start is pending; its count is what it changed itself |
| OfferHandlers.TokenIsThreeSteps | api/src/api_oidc/token.rs:74-128 | An undisturbed token request is its three steps with the handler's effect |
| OfferHandlers.CredentialIsSixSteps | api/src/api_oidc/credential.rs:86-288 | The same for a credential request |
| OfferHandlers.CancelIsTwoSteps | api/src/api_management/credential_offers.rs:233-261 | The same for a cancel |
| OfferHandlers.BulkCancelIsItsSteps | api/src/persistence/credential_offers.rs:202-225 | The same for a bulk cancel, row by row |
| Invitations.CreateFitsExactlyPastExpiry | api/src/persistence/user_account_invitations.rs:202-226 | A new invitation fits if and only if the account's pending rows are strictly past their expiry |
| Invitations.ExpiredBlocksOnlyAtItsInstant | api/src/api_management/invitations.rs:224-230 | An observably expired row blocks its successor if and only if now is its expiry |
| Invitations.InvitationStore.Accept | api/src/api_management/linking.rs:32-112 | Account linked and invitation spent together or not at all; exactly when |
| Invitations.InvitationStore.Create | api/src/api_management/invitations.rs:38-99 | Exactly when an account can be invited, with the due row expired and the new one inserted, or nothing |
| Invitations.InvitationStore.Revoke | api/src/api_management/invitations.rs:152-194 | Revokes exactly an observably pending invitation of the tenant |
| InvitationProtocol.InvHolds | api/src/api_management/linking.rs:56-110 | In every reachable state the unique indices hold, locked rows are pending and open transactions match the rows |
| InvitationProtocol.LinkedElsewhere | api/src/api_management/linking.rs:61-90 | If the account was linked after a transaction read it unlinked, that transaction's invitation is already spent |
| InvitationProtocol.CommitterUnlinked | api/src/api_management/linking.rs:91-101 | An acceptance about to commit still has an unlinked account |
| InvitationTheorems.LinkedByExactlyOneInvitation | api/src/api_management/linking.rs:56-110 | An account is linked exactly when one of its invitations was accepted, never by two |
| InvitationTheorems.InvitationRows | api/src/persistence/user_account_invitations.rs:151-226 | The hash is stored exactly while pending, one pending row per account, acceptance precedes expiry |
| InvitationTheorems.InvitationsAreLiveWhenPresented | api/src/api_management/linking.rs:56-75 | In every run an invitation is resolved only by its code, pending and before its expiry |
| InvitationTheorems.IdentitiesStayUnique | api/src/api_management/linking.rs:89-99 | No identity is linked to two accounts of one tenant |
| InvitationTheorems.IdentityNeverChanges | api/src/persistence/user_accounts.rs:160-200 | A committed identity never changes although the linking UPDATE is unguarded |
| InvitationTheorems.SpentInvitationsNeverChange | api/src/persistence/user_account_invitations.rs:146-226 | Accepted, revoked and expired are final |
| InvitationTheorems.LateAcceptanceRollsBack | api/src/persistence/user_account_invitations.rs:148-174 | An acceptance of an account linked meanwhile is turned away by its guarded UPDATE |
| InvitationTheorems.ExpiredInvitationBlocksItsSuccessor | api/src/persistence/user_account_invitations.rs:208-226 | A concrete run at the instant of expiry in which the create that cleared nothing can never insert |
| InvitationHandlers.AcceptIsOneTransaction | api/src/api_management/linking.rs:56-110 | An undisturbed acceptance is one transaction with the handler's effect |
| InvitationHandlers.CreateIsOneTransaction | api/src/api_management/invitations.rs:49-88 | The same for a create; at most one row is due |
| InvitationHandlers.RevokeIsOneTransaction | api/src/api_management/invitations.rs:152-194 | The same for a revoke |
| TokenProvider.OAuth2TokenProvider.RefreshAndCache | api/src/domain/oauth2/oauth2_provider.rs:107-157 | A fresh token answers; otherwise one grant whose refresh token is stored; a failure changes nothing |
| TokenProvider.OAuth2TokenProvider.Get | api/src/domain/oauth2/oauth2_provider.rs:210-219 | A fresh cached token answers without a grant, at either check; otherwise exactly when a grant succeeds and what it stores; a failure changes nothing |
| TokenProvider.OAuth2TokenProvider.Invalidate | api/src/domain/oauth2/oauth2_provider.rs:221-233 | Only a new grant answers, and a failure leaves the cache empty |
| TokenProtocol.InvHolds | api/src/domain/oauth2/oauth2_provider.rs:95-157 | In every reachable state locks, tokens in flight, caches and rotation agree |
| TokenProtocol.RotationKept | api/src/persistence/tenants.rs:206-297 | A step keeps the stored token the accepted one unless it loses a rotation |
| TokenTheorems.InvalidateReturnsAnUnseenToken | api/src/domain/oauth2/oauth2_provider.rs:221-233 | The token invalidate returns had not been handed out when that call cleared the cache |
| TokenTheorems.GrantsAreSerialised | api/src/domain/oauth2/oauth2_provider.rs:107-125 | One call per instance past the single-flight lock, one in all holding the tenant row |
| TokenTheorems.AnotherGrantNeedsAReason | api/src/domain/oauth2/oauth2_provider.rs:95-114 | Without a clear or a refill, a provider's next grant follows a check that found the cached token within the safety margin |
| TokenTheorems.GrantsPresentTheStoredToken | api/src/persistence/tenants.rs:206-297 | Each grant presents the token the last committed grant stored, whichever instance made it |
| TokenTheorems.StoredTokenIsCurrentUnlessLost | api/src/domain/oauth2/oauth2_provider.rs:127-141 | Between grants the stored token is the accepted one if and only if no rotation was lost |
| TokenTheorems.NoGrantAfterALostRotation | api/src/domain/oauth2/oauth2_provider.rs:127-141 | After a lost rotation no grant succeeds again |
| TokenTheorems.PresentedAgainExactlyUntilACommit | api/src/domain/oauth2/oauth2_provider.rs:116-141 | Two grants of any instances present the same refresh token if and only if no grant was committed in between |
| TokenTheorems.FailedGrantPresentsAgain | api/src/domain/oauth2/oauth2_provider.rs:127-133 | A concrete run in which the call after a failed grant presents its token again |
| TokenTheorems.GetIsItsSteps | api/src/domain/oauth2/oauth2_provider.rs:107-219 | An undisturbed get that refreshes is its steps with the handler's effect |
| TokenTheorems.InvalidateIsItsSteps | api/src/domain/oauth2/oauth2_provider.rs:107-233 | The same for an invalidate |
| OperationTasks.OperationTask.TryAcquire | api/src/domain/operation_task.rs:288-302 | Succeeds exactly on open tasks; the first claim leaves the counter, later ones add one |
| OperationTasks.OperationTask.TryComplete | api/src/domain/operation_task.rs:230-243 | Completes exactly a task in progress and clears retry time and error |
| OperationTasks.OperationTask.TryFail | api/src/domain/operation_task.rs:252-271 | Fails exactly a task in progress and records the error |
| OperationTasks.DispatchFollowsTheChain | api/src/worker/runner.rs:223-291 | Following the worker's dispatch from the first step walks the documented chain and ends with it |
| OperationTasks.TaskTable.FindNextAcquirable | api/src/persistence/operation_tasks.rs:123-147 | The first unlocked row that is pending or in progress and not put off, never-put-off rows first, then by due time and age; None exactly when there is none |
| OperationTasks.TaskTable.AcquireNext | api/src/worker/runner.rs:179-197 | Claims that row and what it stores, or answers None exactly when no unlocked row is open and due; an undecodable row in front stops the claim |
| OperationTasks.TaskTable.AdvanceStep | api/src/persistence/operation_tasks.rs:188-236 | Merges the patch key by key over the stored object, or over nothing if it is no object, resets the counter and moves on |
| OperationTasks.TaskTable.ScheduleRetry | api/src/persistence/operation_tasks.rs:246-277 | Stores retry time and error and leaves state, step and counter alone |
| OperationTasks.TaskTable.SetTerminalState | api/src/persistence/operation_tasks.rs:292-325 | Stores the terminal columns of the aggregate |
| OperationTasks.TaskTable.Apply | api/src/worker/outcome.rs:96-141 | Advance, retry or fail by outcome and age |
| OperationTasks.TaskTable.FailThroughAggregate | api/src/worker/outcome.rs:144-157 | Fails the row through the aggregate or reports that it was not in progress |
| OperationTasks.TaskTable.Execute | api/src/worker/runner.rs:223-348 | Dispatch on the step name; the last step's Done completes the task |
| TaskWorker.InvHolds | api/src/worker/runner.rs:179-348 | In every reachable state each task's progress, data, times and counter agree and the worker's copy is its row |
| TaskWorker.ExecuteDone | api/src/worker/runner.rs:330-345 | A finished step extends the chain prefix by one and keeps the stored data merged |
| TaskWorker.ExecuteNotDone | api/src/worker/outcome.rs:109-141 | A retry or failure forgets no step; a terminal outcome or a retry of a day-old task ends it |
| TaskTheorems.StepsFollowTheChain | api/src/worker/runner.rs:223-291 | The steps done are a prefix of the chain, all of it exactly when Completed, and an open task is at the next step |
| TaskTheorems.GuardsNeverFail | api/src/worker/outcome.rs:144-157 | No claim and no recorded outcome is ever refused by the aggregate, and no step name is unknown |
| TaskTheorems.TasksOnlyMoveForward | api/src/domain/operation_task.rs:215-302 | Completed and Failed are final, done steps are never forgotten |
| TaskTheorems.LastWriterWins | api/src/persistence/operation_tasks.rs:195-211 | Merging patches in order keeps for each key the value of the last patch that has it |
| TaskTheorems.StateDataIsTheMergedPatches | api/src/persistence/operation_tasks.rs:188-236 | Stored data hold, for each key, what the last done step but the final one wrote |
| TaskTheorems.NextAttemptWithin25Hours | api/src/worker/outcome.rs:109-135 | No open task is put off to 25 hours after its creation or later |
| TaskTheorems.RetriesAreWaitedFor | api/src/persistence/operation_tasks.rs:136-137 | After a retry, no claim of the task comes before the stored time until another outcome of it is recorded |
| TaskTheorems.ClaimsAreDue | api/src/persistence/operation_tasks.rs:133-139 | Every claim takes an open row that is not put off beyond its time |
| TaskTheorems.DeactivationRunsThrough | api/src/worker/runner.rs:389-416 | A concrete run of a deactivation to Completed |
| TaskTheorems.DayOldTasksEndSoon | api/src/worker/outcome.rs:109-141 | A day-old task has at most 7, 3 or 4 recorded executions left |
| TaskTheorems.LateExecutionsUseUpTheChain | api/src/worker/outcome.rs:109-141 | Each of them advances the step or ends the task |
| TaskTheorems.AttemptsCountClaims | api/src/domain/operation_task.rs:288-302 | k claims show k - 1 attempts on the first step and k on later ones, until the stored counter wraps and blocks the row |
| TaskTheorems.RetryDelayIsBounded | api/src/worker/outcome.rs:116-135 | The retry delay lies within one minute times 2^(attempts + 1) and one hour |
| TaskTheorems.ClaimIsAcquireNext | api/src/worker/runner.rs:179-197 | A claim of the model is enabled and acts exactly as AcquireNext does |
| TaskTheorems.ExecutionIsExecute | api/src/worker/runner.rs:223-348 | Recording an outcome changes the rows as Execute does |
| Paging.List | api/src/persistence/credential_offers.rs:85-136 | One page: rows past the cursor, newest first and the higher id on a tie, no shown row behind one left out, up to the limit, and whether any is left |
| Paging.WalkIsDescending | api/src/persistence/issuers.rs:301-343 | Whatever changes between the fetches, rows come strictly descending, none twice |
| Paging.StayingRowsAreShownOnce | api/src/persistence/issuers.rs:301-343 | A row present and matching throughout a finished walk is shown exactly once |
| Paging.UnchangedTableIsListed | api/src/persistence/issuers.rs:301-343 | Over an unchanging table the walk ends and shows exactly the matching rows, newest first, the higher id on a tie |
| Paging.FilterAgreesUnlessStoredExpired | api/src/persistence/credential_offers.rs:105-111 | The WHERE clause selects by observed state if and only if the row is not stored as Expired |
| Paging.FilterSelectsByObservedState | api/src/persistence/credential_offers.rs:105-111 | In every reachable state of the offer protocol the filter selects exactly by the observed state |
| Cursors.DecodeUndoesEncode | api/src/api_management/cursor.rs:21-48 | An issued cursor decodes to its position, refused exactly when the id is of another family |
| Cursors.EncodeIsInjective | api/src/api_management/cursor.rs:21-24 | Different positions give different cursors |
| Base64Url.DecodeUndoesEncode | api/src/api_oidc/credential.rs:695-700 | Unpadded base64url decodes back and contains neither '.' nor '~' |
| Base64Url.AlphabetIsTheTable | api/src/api_oidc/credential.rs:695-700 | The characters are those of table 2 of RFC 4648, in order |
| Base64Url.GroupIsOneNumber | api/src/api_oidc/credential.rs:695-700 | Three bytes and their four characters are one number to the bases 256 and 64 |
| SdJwt.BuildSdJwtVc | api/src/api_oidc/credential.rs:651-713 | Fails exactly when signing its first two segments does; otherwise its segments, one by one, and what it reads back as; `_sd` holds the disclosures' digests in order |
| SdJwt.ParseUndoesCompact | api/examples/credential_lifecycle_smoke.rs:866-882 | Splitting on '~' and '.' gives back exactly the parts |
| SdJwt.CompactSegments | api/src/api_oidc/credential.rs:703-712 | Between the '~' lie the signed part, each disclosure in order, and nothing |
| SdJwt.CompactIsInjective | api/src/api_oidc/credential.rs:703-712 | Distinct parts never serialise alike |
| SdJwt.DigestsIdentifyDisclosures | api/src/api_oidc/credential.rs:681-692 | With a collision-free digest each `_sd` entry identifies the disclosure at its own position and no other |
| DidLog.BuildUpdatedDidlog | api/src/worker/registry_facades.rs:54-61 | The body is the old one without trailing newlines, a newline if needed, and the new line |
| DidLog.UpdateAppendsOneEntry | api/src/worker/registry_facades.rs:50-61 | An update keeps every entry verbatim and adds the new one last |
| DidLog.TrailingNewlinesDoNotMatter | api/src/worker/registry_facades.rs:55 | Trailing newlines of the fetched body make no difference |
| DidLog.LogIsAppendOnly | api/src/worker/registry_facades.rs:50-61 | Over any sequence of updates the entries are the old ones followed by the new ones in order |
| ValidatorCache.ValidatorCache.GetOrCompile | api/src/state/validators.rs:56-95 | Answers the compilation of the schema passed; a failed compile changes no entry |
| ValidatorCache.EveryCallerGetsItsOwnSchema | api/src/state/validators.rs:56-95 | In every interleaving, also with outdated timestamps, each caller is answered with its own schema's validator |
| ValidatorCache.FirstUsesCompileOnce | api/src/state/validators.rs:45-50 | Concurrent first uses of one schema version compile once |
| Jwks.JwksCache.ReadKid | api/src/api_management/token_validator.rs:455-465 | The cached key with whether it is stale |
| Jwks.JwksCache.RefreshIfDue | api/src/api_management/token_validator.rs:475-499 | Attempts a fetch exactly when none was made in the last 30 seconds; a failed one changes no key |
| Jwks.JwksCache.JwkForKid | api/src/api_management/token_validator.rs:430-452 | A cached key is served even when stale; a miss, or keys 600 seconds old, attempts a fetch exactly after the cooldown, and a miss is answered from what it brings; the two errors tell an empty cache from an unknown key |
| Jwks.AttemptsAreSpaced | api/src/api_management/token_validator.rs:475-487 | n fetch attempts span at least n - 1 cooldowns under concurrency |
| Jwks.FetchIsClaimedExactlyAfterTheCooldown | api/src/api_management/token_validator.rs:475-487 | In every reachable state a fetch may start if and only if none was attempted in the last 30 seconds |
| Jwks.CachedKeysAreTheLatest | api/src/api_management/token_validator.rs:39-47 | Fetches never overlap; the cached keys are those of the successful fetch that started last |
| Jwks.RefreshIsItsSteps | api/src/api_management/token_validator.rs:475-499 | An undisturbed due refresh is its steps with the handler's effect |

## Left out

- Each issuer has one registry entry. A crash between provisioning a list and pointing the issuer at it can leave an orphan list for the same entry; the model keeps such lists but only the current one ever moves.
- The schedule is otherwise arbitrary: liveness and fairness of workers and locks are not modelled, nor deadlock detection by the database.
- Tenant scoping of lookups, path and body parsing, audit records and response rendering.
- Cryptography, JSON, JSON Schema, RFC 3339, base58 and the crates swiyu_core and swiyu_registries, which are not part of this model: they are parameters with stated laws. Random secrets are new values.
- The step executors of the tasks, whose outcomes are arbitrary, and writes to the task row other than the worker's.
- Integer columns of the status lists are unbounded, as are the publisher's attempts; the delay does not depend on attempts beyond six.
- Ids compare as numbers in pages; the database compares text, in some total order as well.
- Jwks.CachedKeysAreTheLatest: takes it that a fetch is over, and its keys stored, within the HTTP timeout of its start.
- Offers.OfferStore.Token: with two offers that share a code, which no index rules out, either may be the one looked up.
- The operator's own writes of OAuth2 credentials, which would end the state after a lost rotation.
- StatusTheorems.GoodReadsMakeRevokedFinal: one direction only; StatusTheorems.RevokedIsFinalUnlessAStaleCallCommits has both.
- StatusPublication.RegistryShowsARecentVersion: holds of the runs that StatusPublication.RegistryIsRecentExactlyInOrder characterises, not of all.
- The mapping of registry errors to step outcomes, the single retry after a 401, which the publisher's model allows as another PUT, and the polling loops around a claim and its execution.
- What the key rotation and DID steps compute, the creation, editing and deactivation of accounts, the refresh of names at login, and the filters of the remaining list endpoints.
