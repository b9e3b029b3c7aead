# Entitlement server and SDKs: a Dafny model

This project models the hard parts of the entitlement system and proves what they guarantee. Each service has specification functions on values and, where the original changes rows, maps or fields step by step, methods on classes that are proved equal to those functions. The theorems are about the functions, over every input or every run.

- **The protocol.** `Rows` holds the tables, the signed lease tokens and the clock. `LeaseService`, `DeviceService`, `LicenseService` and `LicenseApi` model the services behind `activate`, `verify`, `heartbeat` and `deactivate`. `Runs` makes them, the admin actions and the passing of time the atomic steps of a state machine. `LeaseHistory`, `ConcurrencyCap`, `DeviceCap` and `Renewal` prove what every run keeps, `LeaseEnds` why a lease stops being active, `LastSeen` what `lastSeenAt` means over runs. `ApiContract` says on the rows alone, with their numbers spelled out, what each endpoint accepts, answers and writes. `Shortfalls` holds inputs and runs at which the protocol gives less than one might expect. Whatever the database or the random generator may pick (a fresh token id, which of two equally old devices goes) is recorded in the event, and every pick the original could make is covered.
- **The same protocol with its awaits.** `Interleaving` makes every database statement of a request a step of its own under `deny_new`; a request that nothing interrupts adds up to the atomic step. `CardRedemption` does the same for redeeming card keys.
- **The client.** `SdkClient` closes the system: the Electron client with its cache, feature gate, state and heartbeat timer runs against the server model. `SdkOutcomes` says on the server rows what the client shows after each call and when its timer stops.
- **The guards.** `RateLimit` and `NonceReplay`, over runs with a non-decreasing clock.
- **The signed text.** `Json`, `StableStringify` and `JsonParser` for the canonical form; `CppSdk` for the text the C++ SDK writes and reads by hand.
- **Smaller pieces.** `CascadeDelete`, `CardPlans`, `VersionService`, `AuditRedaction`, `Metrics`.

Verify with `dafny verify dfyconfig.toml`.

## What turned out not to hold

In these places the code gives less than one might expect. The model keeps the code as it is. Each line names a member with a failing input or run, and one with the exact condition.

- Card keys and licenses may use a plan of another product, because the admin endpoints do not compare the two. Adding one such row blocks the deletion of the plan's product: `CascadeDelete.AddingKeepsRemovableIff`. A deletion succeeds exactly when nothing of another product leans on this one: `CascadeDelete.Store.Remove`.
- A signed request can be accepted three times, because a nonce is kept for five minutes while the timestamp window is ten minutes wide and closed at both ends: `NonceReplay.ThreeAcceptances`. The next copy is accepted exactly when it comes a retention later and inside the window (`NonceReplay.ReplayIff`), so three acceptances happen only at both edges and the middle of the window: `NonceReplay.ThreeTimes`.
- With `k` requests in flight either cap can be exceeded by `k - 1`: `Interleaving.OvershootReached`, `Interleaving.LiveOvershootReached`. That is the most, and `k = 1` keeps both caps: `Interleaving.OvershootFromIdle`.
- Turning a device active again checks no cap: `Shortfalls.ReenablingExceedsCaps` is a run that leaves both caps, and the number of accepted tokens, exceeded by one. It adds an active device always (`DeviceCap.ReenabledActive`) and a live one exactly when the device still holds an unexpired lease (`ConcurrencyCap.ReenabledLiveIff`).
- The status of a device has no influence on whether its heartbeats succeed, so a banned device goes on rotating its lease: `Shortfalls.HeartbeatIgnoresStatus`. The new token is accepted exactly when the device is active: `SdkClient.TickedIsAcceptedIff`.
- `activate` answers every version alike (`Shortfalls.ActivateIgnoresVersion`), so a client too old for the policy gets a lease it cannot use: `SdkClient.ActivatedIsAcceptedIff`.
- A denied issue has already revoked the device's own lease. A client whose re-activation is denied keeps reporting `active` on a dead token: `Shortfalls.DeniedActivationStrandsClient`, exactly when `SdkClient.DeniedActivationIff`. For an unexpired lease this takes a license that is over its limit.
- `deactivate` with the key of another license succeeds without doing anything, and the client forgets its lease all the same: `Shortfalls.WrongKeyKeepsLease`, exactly when `SdkClient.ClearedFreesDeviceIff`.
- Sanitising a log payload twice differs from once exactly when something was blanked out whole: `AuditRedaction.SanitizeTwiceIff`.
- The C++ escape agrees with JSON only on text whose control characters are newline, return and tab, and the C++ reader turns escaped control characters into letters: `CppSdk.EscapesAgreeIff`, `CppSdk.ExtractReadsReplyIff`.
- The C++ reader takes the next quoted text after the key, so for a value that is no string it answers with a key or value behind it: `CppSdk.ExtractStrays`, and where it reads in general `CppSdk.ExtractInGeneral`.
- The C++ `deactivate` body carries no `appVersion` although the server requires one (server/src/license/dto/license.dto.ts:85-87): `CppSdk.DeactivateBodyLacksVersion`.

## Model

| member | source | states |
|---|---|---|
| LeaseService.RevokeActiveByDevice | server/src/lease/lease.service.ts:83-85 | the same leases remain, none of the device is active, those that were are revoked, every other row is as before |
| LeaseService.EnforceConcurrencyLimit | server/src/lease/lease.service.ts:87-117 | the grouping loop counts exactly the active devices that hold an unexpired active lease; below the limit nothing happens, at the limit it refuses or evicts one of the least recently seen of them |
| LeaseService.LiveByLease | server/src/lease/lease.service.ts:99-107 | grouping the unexpired leases by device yields exactly the devices that hold a live lease |
| LeaseService.IssueLease | server/src/lease/lease.service.ts:21-56 | rows and answer of issuing: own leases revoked first, then the limit, then one new active lease whose signed token repeats its fields |
| LeaseService.ValidateLease | server/src/lease/lease.service.ts:58-77 | the error order of validation, and that an expired active lease is marked expired |
| DeviceService.GetOrCreateDevice | server/src/device/device.service.ts:25-75 | touch, refuse, create, or kick one least recently seen device and create, with the exact rows afterwards |
| LicenseService.FindLicenseByKey | server/src/license/license.service.ts:56-65 | a license is found exactly when one carries a hash of the key, and by the legacy hash only if none carries the current one |
| LicenseService.RedeemCardKey | server/src/license/license.service.ts:67-109 | rows and answer of redeeming a card key when nothing interferes, every refusal included |
| LicenseService.EnsureValidLicenseRecord | server/src/license/license.service.ts:119-144 | passes exactly an existing, active, unexpired license of that product whose product and plan are active; not found exactly when there is none, banned only for a banned one |
| LicenseService.ValidateLicenseKey | server/src/license/license.service.ts:17-22 | lookup, else redemption, then validation, which may fail after the card was redeemed |
| LicenseApi.ActivateDevice | server/src/license/activation.service.ts:23-52 | rows and reply of an activation for every input and every pick of the database, with what each failure leaves behind |
| LicenseApi.EnsureVersionAllowed | server/src/version/version.service.ts:29-35 | refused exactly for an inactive product or a forced upgrade of an older version |
| LicenseApi.FindActiveByCode | server/src/device/device.service.ts:14-23 | succeeds exactly for a known device that is active |
| LicenseApi.VerifyDevice | server/src/license/verify-heartbeat.service.ts:21-42 | answer of a verification, which changes nothing but a lease found expired |
| LicenseApi.HeartbeatDevice | server/src/license/verify-heartbeat.service.ts:44-68 | rows and reply of a heartbeat: touch, revoke, issue |
| LicenseApi.DeactivateDevice | server/src/license/verify-heartbeat.service.ts:70-82 | removal and revocation, or success without effect for a device of another license |
| ApiContract.LimitsOnRows | server/src/license/license.service.ts:40-54 | both limits are the override of the license if it has one, else the number of its plan; the policy is to kick exactly when the flags of the plan say so |
| ApiContract.BindAnswer | server/src/device/device.service.ts:25-75 | under the number read off the rows: a device already known binds exactly when it is active and of this license, a new one is refused exactly when that many are bound and none can be kicked; what binds is marked as seen now with the version sent |
| ApiContract.IssueAnswer | server/src/lease/lease.service.ts:21-56 | under the number read off the rows: denied exactly when it is positive, the plan does not kick, and that many other devices hold a live lease; otherwise one new active lease with the version sent and its token, both for one lifetime from now |
| ApiContract.CapOverRuns | server/src/license/license.service.ts:40-42 | over every run the bound devices of a license stay within the larger of the start and the override, or the plan number where there is none, plus the re-enabled devices |
| ApiContract.TokensOverRuns | server/src/license/license.service.ts:44-46 | over every run from no live device the accepted tokens of a license stay within its override, or the plan number where there is none, plus the re-enabled devices |
| ApiContract.LicenseAnswer | server/src/license/license.service.ts:119-144 | each of the five refusals of an existing license holds exactly on its own rows, and passing exactly on the remaining ones |
| ApiContract.AllowedAnswer | server/src/version/version.service.ts:29-35 | refused for the product exactly when it is unknown or inactive, for the version exactly when an open product forces the upgrade and the version is lexicographically less |
| ApiContract.TokenAnswer | server/src/lease/lease.service.ts:58-77 | a token is good, late or invalid exactly by the rows, and only a late one writes, and then one status |
| ApiContract.FlagsOnRows | server/src/plan/plan.service.ts:17-22 | the flags of a license: its override first, the plan for every other key, and no further key |
| ApiContract.VerifyAnswer | server/src/license/verify-heartbeat.service.ts:21-42 | on the rows: when verification succeeds, the refusals for the device and the version, what it writes, and in the reply the merged flags and a refresh wanted exactly below 1800000 ms |
| ApiContract.VerifyCodes | server/src/license/verify-heartbeat.service.ts:21-42 | for a good token each of the seven refusals holds exactly on its own rows |
| ApiContract.HeartbeatGateAnswer | server/src/license/verify-heartbeat.service.ts:45-47 | the checks of a heartbeat pass exactly on these rows, the device status not among them |
| ApiContract.HeartbeatAnswer | server/src/license/verify-heartbeat.service.ts:44-68 | on the rows: when a heartbeat succeeds, and in the reply the new token for one lifetime and the merged flags |
| ApiContract.HeartbeatCodes | server/src/license/verify-heartbeat.service.ts:44-50 | for a good token each of the seven refusals holds exactly on its own rows |
| ApiContract.KeyAnswer | server/src/license/license.service.ts:56-65 | the license found for a key, by the legacy hash only without the current one |
| ApiContract.RedeemAnswer | server/src/license/license.service.ts:74-92 | each refusal of a card key without a license holds exactly on its own rows, a card past its own expiry among them |
| ApiContract.RedeemWrites | server/src/license/license.service.ts:93-117 | a redemption writes one license with the product and plan of the card and an expiry of now plus 1000 ms for each positive `durationSeconds`, else 86400000 ms for each of the days, links the card to it and writes nothing else |
| ApiContract.ValidateKeyAnswer | server/src/license/license.service.ts:17-22 | an existing license is judged as it stands, a card key is redeemed or followed only without one, and without either there is no license |
| ApiContract.ActivateAnswer | server/src/license/activation.service.ts:23-52 | on the rows before: when an activation succeeds, when it is refused for the device and for either limit, and in the reply the token for one lifetime and the merged flags |
| ApiContract.DeactivateAnswer | server/src/license/verify-heartbeat.service.ts:70-82 | on the rows: when a deactivation succeeds, and exactly the device row and leases it then changes |
| Runs.StepKeepsInv | server/src/license/verify-heartbeat.service.ts:21-82 | every API call, admin action and clock step keeps the foreign keys, at most one active lease per device, a lease's license equal to its device's, and signed tokens equal to their rows |
| Runs.RunKeepsInv | server/src/lease/lease.service.ts:21-56 | the same over every run |
| LeaseHistory.StepEvolves | server/src/lease/lease.service.ts:21-85 | a step never deletes a lease and changes one only by taking its active status away; new tokens get new ids |
| LeaseHistory.RunEvolves | server/src/lease/lease.service.ts:21-85 | the same over every run |
| LeaseHistory.DeadIsRefused | server/src/lease/lease.service.ts:58-77 | a token whose lease is inactive or expired is refused by verify and heartbeat |
| LeaseHistory.DeadTokenStaysDead | server/src/lease/lease.service.ts:65-74 | a superseded, evicted or expired token is refused in every later state |
| LeaseHistory.HeartbeatKills | server/src/license/verify-heartbeat.service.ts:48-50 | a heartbeat that passes its checks revokes the old lease for good, even if issuing the new one is then denied |
| LeaseHistory.HeartbeatSupersedes | server/src/license/verify-heartbeat.service.ts:44-50 | after a successful heartbeat the old token is invalid in every later state |
| LeaseHistory.QuietTtlFreesAll | server/src/lease/lease.service.ts:87-107 | after one TTL without a new lease no device is live and the next issue passes, whatever the limit |
| LeaseHistory.ActivationStamped | server/src/license/activation.service.ts:30-32 | a successful activation leaves the time of the license's first activation, now if there was none |
| LeaseHistory.RunKeepsFirst | server/src/license/activation.service.ts:30-32 | over every run the expiry of a license and the time of its first activation never change once set |
| LeaseEnds.IssueEnds | server/src/lease/lease.service.ts:21-25 | issuing ends an active lease exactly if it is the device's own, or its device is the one evicted at the full limit |
| LeaseEnds.BindEnds | server/src/device/device.service.ts:40-59 | binding ends an active lease exactly if its device is the one kicked at the full cap |
| LeaseEnds.ValidateEnds | server/src/lease/lease.service.ts:58-74 | validation ends an active lease exactly if its own matching token is presented after its expiry |
| LeaseEnds.StepEndsIff | server/src/license/verify-heartbeat.service.ts:21-82 | a step ends an active lease exactly for one of five causes read off the rows before: replaced by the device's own call, evicted, kicked, deactivated with a key of its license, or found expired |
| LeaseEnds.ActiveUntilEnded | server/src/lease/lease.service.ts:21-117 | over every run an active lease stays active exactly as long as none of these causes applies |
| ConcurrencyCap.StepLive | server/src/lease/lease.service.ts:22-25 | one step lifts the number of live devices of a license at most to its limit, or by one when an admin re-enables a device |
| ConcurrencyCap.ReenabledLiveIff | server/src/admin/devices/devices.controller.ts:71-77 | turning a device active again adds it to the live devices exactly when it holds an unexpired active lease |
| ConcurrencyCap.LiveDevicesBounded | server/src/lease/lease.service.ts:87-117 | over every run live devices stay within the larger of the start and the limit, plus the re-enabled devices |
| ConcurrencyCap.OneTokenPerDevice | server/src/lease/lease.service.ts:22-22 | two signed tokens of one device with active leases are the same token |
| ConcurrencyCap.AcceptedBounded | server/src/license/verify-heartbeat.service.ts:21-25 | the server accepts at most as many tokens of a license as it has live devices |
| ConcurrencyCap.AcceptedTokensBounded | server/src/license/verify-heartbeat.service.ts:21-50 | in every reachable state the distinct tokens verify would accept for a license number at most its concurrency limit, plus the re-enabled devices |
| DeviceCap.BindActive | server/src/device/device.service.ts:40-62 | binding never lifts a license above its cap, nor further when it is above |
| DeviceCap.ReenabledActive | server/src/admin/devices/devices.controller.ts:71-77 | turning a device active again adds one active device, whatever the cap |
| DeviceCap.ActiveDevicesBounded | server/src/device/device.service.ts:25-75 | over every run active devices stay within the larger of the start and the cap, plus the re-enabled devices |
| DeviceCap.KickSwapsOldest | server/src/device/device.service.ts:45-62 | a kick swaps exactly one device of minimal last-seen time for the new one, revokes its leases and touches no other row |
| DeviceCap.RemovalIsFinal | server/src/license/verify-heartbeat.service.ts:70-82 | in runs of the public API a removed device stays the same row, holds no active lease, and exactly the removed devices have been unbound, once each |
| DeviceCap.UnbindAlertSilent | server/src/risk/risk.service.ts:48-53 | hence the alert on frequent unbinding never sounds in such runs |
| LastSeen.StepShows | server/src/device/device.service.ts:34-37 | an activation that binds and a heartbeat that passes its checks mark the device as seen now with the version sent; no other step and no other row changes the two fields |
| LastSeen.StepSeen | server/src/device/device.service.ts:77-82 | after a step a device was last seen now if the step was such a call of it, else when it was before |
| LastSeen.RunSeen | server/src/device/device.service.ts:34-37 | over every run a device was last seen at the time of its last such call |
| LastSeen.KickTakesLongestSilent | server/src/device/device.service.ts:45-62 | after any run a kick removes an active device whose last such call is longest ago, and no other |
| LastSeen.EvictionTakesLongestSilent | server/src/lease/lease.service.ts:99-116 | after any run an issue at the full limit evicts a live device whose last such call is longest ago |
| Renewal.IssueDeniedIff | server/src/lease/lease.service.ts:22-25 | an issue is denied exactly when the limit is on, the policy is not to kick, and the other live devices fill it |
| Renewal.DeniedIssueKeepsLive | server/src/lease/lease.service.ts:22-25 | a denied issue keeps the live leases exactly when the device was not live, hence always while the license is within its limit |
| Renewal.IssueWithRoom | server/src/lease/lease.service.ts:87-116 | with room among the others an issue succeeds and touches only the device's own leases |
| Renewal.HeartbeatNeverDenied | server/src/license/verify-heartbeat.service.ts:48-50 | within the limit, renewing from an active device is never denied and revokes nobody else's lease |
| Renewal.ReactivationNeverDenied | server/src/license/activation.service.ts:24-28 | the same for activating again from a device with a live lease |
| Renewal.BannedDeviceIsRefused | server/src/license/verify-heartbeat.service.ts:24-24 | verify accepts no token of a device that is not active |
| Shortfalls.HeartbeatOkIff | server/src/license/verify-heartbeat.service.ts:44-50 | a heartbeat succeeds exactly when its checks pass and the other live devices leave room or the policy makes it |
| Shortfalls.HeartbeatIgnoresStatus | server/src/license/verify-heartbeat.service.ts:45-50 | the status of the device does not change whether its heartbeat succeeds |
| Shortfalls.ActivateIgnoresVersion | server/src/license/activation.service.ts:24-28 | an activation answers every application version alike |
| Shortfalls.ReenablingExceedsCaps | server/src/admin/devices/devices.controller.ts:74-74 | a run from within both caps that leaves active devices, live devices and accepted tokens one above |
| Shortfalls.DeniedActivationStrandsClient | server/src/lease/lease.service.ts:22-24 | a denied re-activation after which the client still reports active on a lease the server has revoked |
| Shortfalls.WrongKeyKeepsLease | server/src/license/verify-heartbeat.service.ts:71-76 | a deactivation with another license's key that succeeds, clears the client and leaves device and lease |
| Interleaving.ActivationAlone | server/src/license/activation.service.ts:24-32 | under `deny_new` the uninterrupted statements of an activation, between validation and the activation stamp, give the rows of the atomic step, for every version |
| Interleaving.HeartbeatAlone | server/src/license/verify-heartbeat.service.ts:45-50 | after its checks the uninterrupted statements of a heartbeat give the rows of the atomic step |
| Interleaving.DeactivationAlone | server/src/license/verify-heartbeat.service.ts:71-78 | after its checks a deactivation either does nothing or its uninterrupted statements give the rows of the atomic step |
| Interleaving.OvershootBounded | server/src/device/device.service.ts:40-62 | with at most k requests of a license in flight, in any interleaving, active devices stay within maxDevices + k - 1 and live devices within maxConcurrency + k - 1 |
| Interleaving.OvershootFromIdle | server/src/lease/lease.service.ts:22-41 | the same from an idle system within its limits; k = 1 gives the exact caps |
| Interleaving.OvershootReached | server/src/device/device.service.ts:40-62 | for every k there is an interleaving that reaches maxDevices + k - 1 |
| Interleaving.LiveOvershootReached | server/src/lease/lease.service.ts:22-41 | for every k there is an interleaving that reaches maxConcurrency + k - 1 live devices |
| CardRedemption.RunKeeps | server/src/license/license.service.ts:67-109 | any interleaving of redeemers and admins keeps unique hashes, links that carry the card's own hash, and answers that name an existing license of the key |
| CardRedemption.RedeemedOnce | server/src/license/license.service.ts:83-108 | a card key creates at most one license, its link never changes once set, and every success for a linked key returns that license |
| CardRedemption.LicensesAccounted | server/src/license/license.service.ts:93-107 | over any interleaving the licenses are those from before, those admins added, and one for each logged redemption, whose card is linked to it |
| CardRedemption.OnlyOpenCardsRedeemed | server/src/license/license.service.ts:74-107 | in every interleaving only a call that read an unlinked, unused or issued card inside its transaction creates a license, and that step also links and marks the card |
| SdkClient.LicenseClient.constructor | sdk-electron/src/license-client.ts:17-35 | a start over a stored cache shows its flags but reports inactive |
| SdkClient.LicenseClient.ActivateKey | sdk-electron/src/license-client.ts:37-52 | cache, gate and state after a success; on failure the client is as before |
| SdkClient.LicenseClient.VerifyOnStartup | sdk-electron/src/license-client.ts:54-87 | cache, gate and state for every local verdict, answer and failure |
| SdkClient.LicenseClient.DeactivateKey | sdk-electron/src/license-client.ts:97-105 | everything is cleared unless the call failed |
| SdkClient.LicenseClient.StartHeartbeat | sdk-electron/src/heartbeat-scheduler.ts:18-23 | the timer runs, nothing else changes |
| SdkClient.LicenseClient.StopHeartbeat | sdk-electron/src/heartbeat-scheduler.ts:25-30 | the timer is off, nothing else changes |
| SdkClient.LicenseClient.Tick | sdk-electron/src/heartbeat-scheduler.ts:32-60 | cache, gate, state and timer after a heartbeat, for every answer and failure |
| SdkClient.ActivateLeases | server/src/license/activation.service.ts:28-28 | an activation leases for no other device, and only if it succeeds; its token is signed and its lease active |
| SdkClient.HeartbeatLeases | server/src/license/verify-heartbeat.service.ts:50-50 | the same for a heartbeat |
| SdkClient.WorldStepAgrees | sdk-electron/src/license-client.ts:37-105 | whatever a client, an admin, the clock or another device does, every client's cache, gate and state stay in agreement with the server rows |
| SdkClient.WorldRunAgrees | sdk-electron/src/license-client.ts:37-105 | in every run of clients, admins, clock and other devices a non-empty cache holds a token the server signed for that device with that expiry, no other lease of the device is active, the gate equals the cached flags or is empty, and the cached lease is active exactly as long as the client does not forget it and no named cause ends it |
| SdkClient.HoldsStepIff | sdk-electron/src/heartbeat-scheduler.ts:40-58 | after a step a client holds an active lease exactly if its own call renewed it, or it held one, did not forget it and none of the five causes ended it |
| SdkClient.LossHasCause | sdk-electron/src/license-client.ts:97-105 | a client that held an active lease and no longer does forgot it at one step of the run, or a named cause ended it there |
| SdkClient.DeniedActivationIff | server/src/license/activation.service.ts:27-28 | a failed re-activation leaves the client as it was; it ends the cached lease exactly when the key is good for the device's own license and the device is active, and then, for an unexpired lease, the license was over its limit |
| SdkClient.GraceOnlyOffline | sdk-electron/src/lease-verifier.ts:6-21 | a token past its expiry on a clock not ahead of the server's is refused by the server, so grace is then reported exactly when the server was not reached within the grace period; with the server reached it takes a clock running ahead |
| SdkClient.ActivatedIsAcceptedIff | sdk-electron/src/license-client.ts:37-76 | right after an activation, verification succeeds exactly when the version policy allows the client |
| SdkClient.TickedIsAcceptedIff | sdk-electron/src/heartbeat-scheduler.ts:40-51 | right after a heartbeat, verification succeeds exactly when the device is active |
| SdkClient.DeadTokenStopsTimer | sdk-electron/src/heartbeat-scheduler.ts:52-58 | a heartbeat with a dead token stops the timer, in every later state |
| SdkClient.DeniedTickStopsNext | sdk-electron/src/heartbeat-scheduler.ts:52-58 | a heartbeat refused for the limit leaves the timer on, and the next one that reaches the server stops it |
| SdkClient.ClearedFreesDeviceIff | sdk-electron/src/license-client.ts:97-105 | after a deactivation the client has no cache, and the device's leases are gone exactly when the key was the right one or none was active |
| SdkOutcomes.CodesShown | sdk-electron/src/heartbeat-scheduler.ts:55-69 | which refusals stop the timer, and the status each code is shown as |
| SdkOutcomes.TickRefused | sdk-electron/src/heartbeat-scheduler.ts:53-58 | on the server rows, for a good token: a banned license shows `banned` and an expired one `expired`, and both stop the timer; a suspended license, another or closed product, a closed plan, a refused version and a full limit show `invalid` and do not |
| SdkOutcomes.TickRenews | sdk-electron/src/heartbeat-scheduler.ts:40-52 | on the server rows, in every other case: the new token for one lifetime, the merged flags, `active`, and the timer as it was |
| SdkOutcomes.OtherTicks | sdk-electron/src/heartbeat-scheduler.ts:32-38 | without a good token the timer stops, without the server it goes on, without a cache it stops |
| SdkOutcomes.BannedStopsEveryTick | sdk-electron/src/heartbeat-scheduler.ts:55-57 | over every run in which admins leave the status alone, every heartbeat of a banned license that reaches the server is refused and stops the timer |
| SdkOutcomes.LocalVerdict | sdk-electron/src/lease-verifier.ts:6-21 | valid before the expiry, in grace for 3600000 ms times the grace hours after it, exactly |
| SdkOutcomes.RestartShows | sdk-electron/src/license-client.ts:30-34 | a process start shows the stored flags, reports inactive and has no timer |
| SdkOutcomes.OfflineStartup | sdk-electron/src/license-client.ts:54-86 | without the server the state follows the clock alone and nothing else changes |
| SdkOutcomes.StartupOutcome | sdk-electron/src/license-client.ts:66-85 | on the server rows, for a good token: the status and code of every refusal, and after a success the merged flags in cache, gate and state |
| SdkOutcomes.StartupRefused | sdk-electron/src/license-client.ts:78-85 | a token no longer good is shown as expired when it is late, else as invalid, in grace or not |
| SdkOutcomes.ActivationOutcome | sdk-electron/src/license-client.ts:37-52 | after an activation cache, gate and state show what the server granted; after a failed one the client is as before |
| SdkOutcomes.DeactivationOutcome | sdk-electron/src/license-client.ts:97-105 | the client is cleared exactly when it had no cache or the server agreed; the timer stays as it was |
| RateLimit.RateLimitService.Cleanup | server/src/common/guards/rate-limit.guard.ts:26-30 | exactly the buckets whose window has ended are dropped |
| RateLimit.RateLimitService.HitKey | server/src/common/guards/rate-limit.guard.ts:15-24 | buckets and answer of one hit |
| RateLimit.OnlyOpenKept | server/src/common/guards/rate-limit.guard.ts:15-30 | after a hit no ended window is kept, and of the other keys exactly the old buckets at most |
| RateLimit.EvictionInvisible | server/src/common/guards/rate-limit.guard.ts:15-30 | a limiter that never evicts gives the same answers over every run |
| RateLimit.BucketAccepts | server/src/common/guards/rate-limit.guard.ts:22-23 | an open bucket accepts exactly the smaller of its room and its remaining hits |
| RateLimit.WindowAcceptsExactly | server/src/common/guards/rate-limit.guard.ts:15-24 | of the hits in a window that opens, exactly min(limit, hits) are accepted |
| RateLimit.AtMostTwiceLimit | server/src/common/guards/rate-limit.guard.ts:15-24 | no interval of one window length sees more than twice the limit minus one accepted, and less when it begins inside an open window |
| RateLimit.EmptyStartBound | server/src/common/guards/rate-limit.guard.ts:13-24 | the bound for a limiter that starts empty |
| RateLimit.StraddleReachesBound | server/src/common/guards/rate-limit.guard.ts:15-24 | for every limit and window of at least 2 ms a run that attains this bound |
| NonceReplay.NonceReplayService.UseNonce | server/src/common/guards/request-signature.guard.ts:11-18 | expired entries are dropped, a remembered nonce is refused, a new one is kept for five minutes |
| NonceReplay.NonceReplayService.CanActivate | server/src/common/guards/request-signature.guard.ts:37-49 | the window is checked first, so a request outside it uses up no nonce |
| NonceReplay.PairKeyInjective | server/src/common/guards/request-signature.guard.ts:46-46 | the joined key determines timestamp and nonce |
| NonceReplay.AcceptedIff | server/src/common/guards/request-signature.guard.ts:37-48 | over every run a request is accepted exactly when it lies in its window and its pair was not accepted within the last five minutes |
| NonceReplay.AcceptancesApart | server/src/common/guards/request-signature.guard.ts:11-18 | two acceptances of a pair are at least 300000 ms apart, both within 300000 ms of the timestamp, and the first not after it |
| NonceReplay.AtMostThree | server/src/common/guards/request-signature.guard.ts:37-48 | no pair is accepted four times |
| NonceReplay.ReplayIff | server/src/common/guards/request-signature.guard.ts:37-48 | in every run the next copy of an accepted pair is accepted exactly when it comes a retention later and still inside the window |
| NonceReplay.ThreeTimes | server/src/common/guards/request-signature.guard.ts:37-48 | in every run three acceptances of a pair lie exactly 300000 ms before, at, and 300000 ms after its timestamp |
| NonceReplay.ThreeAcceptances | server/src/common/guards/request-signature.guard.ts:37-48 | every pair sent at these three times is accepted three times |
| NonceReplay.MemoryIsRecent | server/src/common/guards/request-signature.guard.ts:11-18 | after a request inside its window every remembered nonce expires later than now and within 300000 ms |
| StableStringify.StringifyIsRenderCanon | server/src/common/guards/request-signature.guard.ts:62-67 | printing equals printing the value with its keys put in order, at every level |
| StableStringify.EquivalentIffCanon | server/src/common/guards/request-signature.guard.ts:66-66 | two values are equal up to key order exactly when ordering their keys makes them equal |
| StableStringify.KeyLessIff | server/src/common/guards/request-signature.guard.ts:66-66 | the order of keys: a proper prefix first, else by the first code unit that differs |
| JsonParser.StringRoundTrip | server/src/common/guards/request-signature.guard.ts:63-63 | every text, lone surrogates included, is read back from its quoted form |
| JsonParser.ValueRoundTrip | server/src/common/guards/request-signature.guard.ts:62-67 | every printed value is read back, whatever follows it |
| JsonParser.ParseStringify | server/src/common/guards/request-signature.guard.ts:62-67 | parsing the printed text gives the value with ordered keys |
| JsonParser.StringifyCanonical | server/src/common/guards/request-signature.guard.ts:62-67 | equal output if and only if the values are equal up to key order |
| JsonParser.SignedPayloadAgrees | sdk-electron/src/license-api-client.ts:67-93 | printing what the server parsed from the SDK's body gives the text the SDK signed |
| JsonParser.CanonIsFixed | server/src/common/guards/request-signature.guard.ts:66-66 | ordering the keys twice changes nothing more |
| JsonParser.PrintedNames | server/src/common/guards/request-signature.guard.ts:63-67 | the texts of the literal names and of the empty values |
| JsonParser.PrintedArray | server/src/common/guards/request-signature.guard.ts:65-65 | brackets and comma of an array, in code units |
| JsonParser.PrintedObject | server/src/common/guards/request-signature.guard.ts:66-66 | braces, colons, comma and quotes of an object, in code units |
| JsonParser.ShortEscapes | server/src/common/guards/request-signature.guard.ts:63-63 | which code units stay as they are, and the escapes of two units |
| JsonParser.LongEscapes | server/src/common/guards/request-signature.guard.ts:63-63 | the remaining escapes are four hexadecimal digits of the unit in lower case |
| CppSdk.JsonEscape | sdk-cpp/src/license_client.cpp:137-150 | the appending loop computes the escape of the whole text |
| CppSdk.EscapesAgreeIff | sdk-cpp/src/license_client.cpp:137-150 | the escape equals that of `JSON.stringify` exactly on text without other control characters and without lone surrogates |
| CppSdk.BodyCanonicalIff | sdk-cpp/src/license_client.cpp:63-102 | a body laid out in key order equals the canonical text of its object exactly when all its strings are such text |
| CppSdk.ActivateBodyCanonicalIff | sdk-cpp/src/license_client.cpp:63-75 | this for the activation body with its nested device |
| CppSdk.VerifyBodyCanonicalIff | sdk-cpp/src/license_client.cpp:77-84 | this for the verification body |
| CppSdk.HeartbeatBodyCanonicalIff | sdk-cpp/src/license_client.cpp:86-94 | this for the heartbeat body |
| CppSdk.DeactivateBodyCanonicalIff | sdk-cpp/src/license_client.cpp:96-102 | this for the deactivation body |
| CppSdk.DeactivateBodyLacksVersion | sdk-cpp/src/license_client.cpp:96-102 | what a server reads from the deactivation body is an object without an application version |
| CppSdk.ObjectsAsWritten | sdk-cpp/src/license_client.cpp:77-102 | the objects of three bodies with their keys spelled out |
| CppSdk.ActivationAsWritten | sdk-cpp/src/license_client.cpp:63-75 | the same for the activation body and its device |
| CppSdk.ExtractJsonString | sdk-cpp/src/license_client.cpp:152-176 | the flag loop reads the text up to the first unescaped quote after the key, each escape reduced to its second unit |
| CppSdk.ReadStringEscape | sdk-cpp/src/license_client.cpp:137-176 | reading back an escaped text turns newline, return and tab into n, r and t and changes nothing else |
| CppSdk.ExtractUndoesEscapeIff | sdk-cpp/src/license_client.cpp:137-176 | extraction undoes the escape exactly on text without newline, return and tab |
| CppSdk.ExtractReadsReplyIff | sdk-cpp/src/license_client.cpp:44-46 | a field of a reply printed by `JSON.stringify` is read back exactly when it has no control character and no lone surrogate |
| CppSdk.ReadInGeneral | sdk-cpp/src/license_client.cpp:161-174 | reading stops at a quote or the end, drops a trailing backslash, and takes the unit after a backslash as it is |
| CppSdk.ExtractInGeneral | sdk-cpp/src/license_client.cpp:152-176 | for every body with the key: what is read starts after the first quote behind it, so behind a value that is no string it belongs to a later member |
| CppSdk.ExtractStrays | sdk-cpp/src/license_client.cpp:153-160 | a body on which the reader answers with the next key instead of a number |
| CppSdk.ExtractNothing | sdk-cpp/src/license_client.cpp:153-157 | without the key, or without a quote behind it, the result is empty |
| CascadeDelete.Store.RemoveDependents | server/src/admin/products/products.controller.ts:52-57 | logs, requests and packages of the product go first, then its leases, and nothing is left to null |
| CascadeDelete.Store.RemoveLicensed | server/src/admin/products/products.controller.ts:58-62 | devices, card keys, licenses, policies and adapters go, refused exactly when a remaining lease sits on one of the devices |
| CascadeDelete.Store.Remove | server/src/admin/products/products.controller.ts:41-67 | the deletion succeeds exactly when the product exists and no license, card key or lease of another product leans on its plans or devices; then exactly the rows not tied to it remain, otherwise nothing changes |
| CascadeDelete.PrunedForeignKeys | server/prisma/migrations/0001_init/migration.sql:413-500 | every foreign key of every table holds afterwards |
| CascadeDelete.RowsThatStay | server/src/admin/products/products.controller.ts:52-63 | in every table of the protocol a row goes exactly if it is the product or tied to it |
| CascadeDelete.RowsUnchanged | server/src/admin/products/products.controller.ts:52-63 | a row that stays is unchanged, but for the link of a card key to a lost license |
| CascadeDelete.LogsThatStay | server/src/admin/products/products.controller.ts:49-62 | the same for policies, adapters, logs, requests, events and packages |
| CascadeDelete.OtherProductsKept | server/src/admin/products/products.controller.ts:45-64 | every other product keeps its licenses, devices and leases row by row |
| CascadeDelete.VerifyAfterDelete | server/src/admin/products/products.controller.ts:49-57 | tokens of the deleted product are refused, every other token gets the answer it would have got without the deletion |
| CascadeDelete.RunKeepsRemovable | server/src/lease/lease.service.ts:41-53 | after any run in which admins kept to plans of the right product, every existing product can be deleted |
| CascadeDelete.AddingKeepsRemovableIff | server/src/admin/p2/p2.controller.ts:89-99 | adding a license or card key keeps a product removable exactly unless the row belongs to another product and uses a plan of this one |
| CardPlans.EnsureDefaultCardKeyPlan | server/src/admin/p2/p2.controller.ts:271-314 | the plan of that code is returned unchanged if it exists, else made as requested |
| CardPlans.CreateCardKey | server/src/admin/p2/p2.controller.ts:83-103 | plan and card key after a request, with the defaults and the refusals |
| CardPlans.NumeralsDiffer | server/src/admin/p2/p2.controller.ts:273-277 | different numbers have different digits, and none holds an underscore |
| CardPlans.CodeText | server/src/admin/p2/p2.controller.ts:271-277 | the code as text for each of the six durations |
| CardPlans.SuffixText | server/src/admin/p2/p2.controller.ts:271-277 | its last part: device limit, concurrency and policy |
| CardPlans.AskedFor | server/src/admin/p2/p2.controller.ts:83-103 | the defaults: a day, one device, one at a time, deny new ones, and every number at least one |
| CardPlans.PlanDaysCover | server/src/admin/p2/p2.controller.ts:276-310 | the whole days of a plan are the fewest that cover the requested time, and its flags say the same in seconds, and in hours for an hour card |
| CardPlans.CardRow | server/src/admin/p2/p2.controller.ts:83-103 | the row of a new card key, and exactly when it is refused |
| CardPlans.PlanCodeInjective | server/src/admin/p2/p2.controller.ts:271-304 | the code determines duration, hours, device limit, concurrency and policy |
| CardPlans.PlanRunKeeps | server/src/admin/p2/p2.controller.ts:276-289 | over every run every plan under a default code is the plan that code spells out |
| CardPlans.PlanForMeansRequest | server/src/license/license.service.ts:111-117 | reading the duration and the policy back from the stored plan gives what was asked for |
| CardPlans.RedeemedAsRequested | server/src/license/license.service.ts:93-117 | redeeming such a card key at T, after any run, gives expiry T plus exactly the requested duration, and the requested limits and policy |
| VersionService.CompareVersion | server/src/version/version.service.ts:38-47 | the loop returns the difference at the first place where the zero-padded versions differ, or 0 |
| VersionService.CompareSign | server/src/version/version.service.ts:38-47 | negative, positive and zero mean lexicographically less, greater, and equal after dropping trailing zeros |
| VersionService.CompareTotalPreorder | server/src/version/version.service.ts:38-47 | antisymmetric in sign and transitive on versions of any lengths |
| VersionService.AllowedUpwardClosed | server/src/version/version.service.ts:29-35 | a version at or above an allowed one is allowed |
| VersionService.AllowedIff | server/src/version/version.service.ts:29-35 | a version is refused exactly when the upgrade is forced and it is lexicographically less than the supported one |
| VersionService.DottedReads | server/src/version/version.service.ts:39-40 | every list of numbers written with dots is read back as that list |
| VersionService.PartZeroIff | server/src/version/version.service.ts:39-40 | a part counts as 0 exactly when it is not a plain numeral or has nothing but zeros |
| AuditRedaction.SensitiveIff | server/src/audit/audit.service.ts:53-83 | the key list adds only `authorization` to the pattern |
| AuditRedaction.HiddenKeys | server/src/audit/audit.service.ts:81-83 | letter by letter: a key is hidden exactly when it holds one of four words in any case, or is `authorization` |
| AuditRedaction.RedactedText | server/src/audit/audit.service.ts:85-89 | what the log shows for a hidden value: four units at either end of a text of nine or more, otherwise a fixed word |
| AuditRedaction.EntriesKept | server/src/audit/audit.service.ts:67-79 | every key stays; the value under a hidden key is redacted, every other one sanitised |
| AuditRedaction.SanitizeEqualIff | server/src/audit/audit.service.ts:67-89 | two payloads give the same log entry exactly when they differ at most in the hidden parts of values under sensitive keys |
| AuditRedaction.ShapeKept | server/src/audit/audit.service.ts:67-79 | outside sensitive keys the same paths exist before and after, with the same keys and array lengths at their ends |
| AuditRedaction.SanitizeTwiceIff | server/src/audit/audit.service.ts:67-89 | a second round changes the result exactly when something was blanked out whole, a third never |
| Metrics.MetricsService.Record | server/src/monitoring/metrics.service.ts:20-38 | every counter, per route, per code and global, equals its account of the history since the last reset |
| Metrics.MetricsService.Reset | server/src/monitoring/metrics.service.ts:65-73 | the history starts anew |
| Metrics.FailureCounted | server/src/monitoring/metrics.service.ts:25-29 | what counts as a failure: a status of 400 or more, or a code other than `OK`; and under which code it is listed |
| Metrics.SlowestIsMaximum | server/src/monitoring/metrics.service.ts:23-23 | the latency kept as the maximum is at least every recorded one, and one of them unless it is 0 |
| Metrics.SameRouteIff | server/src/monitoring/metrics.service.ts:31-32 | two requests share a route exactly when their paths are equal and their methods are up to case |
| Metrics.UpperCased | server/src/monitoring/metrics.service.ts:31-31 | upper case, letter by letter, and one route as text |
| Metrics.TotalsAreSums | server/src/monitoring/metrics.service.ts:21-37 | requests, failures and latency are the sums over the listed routes |
| Metrics.MaximumIsOverRoutes | server/src/monitoring/metrics.service.ts:23-36 | the global maximum is the maximum over the routes |
| Metrics.CodesSumToFailures | server/src/monitoring/metrics.service.ts:25-29 | over any listing of the stored codes their stored counts add up to the failures but for those without a code, hence to at most the failures |
| Metrics.FailureRateIsClose | server/src/monitoring/metrics.service.ts:80-82 | a reported failure rate lies between 0 and 1 and within half a ten-thousandth of the true share |

## Left out

- Identity columns: rows are keyed by their unique columns (key hash, device code, token id, card key text), so that unique constraints are map keys and row ids do not appear, except in the cascade and the redemption model.
- Cryptography: hashing and signing are injective; a token's signature verifies exactly when the server signed that payload. Token parsing and base64 are not modelled.
- JSON columns: feature flags are a map of booleans, integers, texts and nulls; flags stored as arrays or other shapes are not modelled.
- Card keys and license keys are taken after trimming and upper-casing, and stored card keys as already in that form.
- Audit and risk writes inside the protocol steps never fail and are not read back; only the unbind count is. The version policy in replies and the license status in the client cache are not read back either and do not appear.
- Database statements are atomic and see all earlier ones; a transaction that deletes a product runs without concurrent writes.
- Product, plan and version-policy edits by admins do not occur in runs of the protocol, so limits are fixed during a run; deleting products and card keys is not a step of those runs.
- A limit of 0 or less switches the concurrency check off; the bounds on live devices ask for a limit of at least 1.
- The interleaved model covers `deny_new` only; validating the license, which may redeem a card key, and stamping the first activation are outside its statements.
- SdkClient: overlapping ticks, lost replies and clients that share a device code are outside the model, as are unreadable stored dates and the encryption of the store.
- NonceReplay: requests with missing headers, non-finite timestamps or wrong signatures are rejected before the modelled part; so the timestamp there is the text of a finite number, which has no colon.
- RateLimit: the key is given; reading it from the request and the environment is not modelled.
- VersionService: version parts are plain decimal numerals; any other text counts as 0, also the hexadecimal and exponent forms JavaScript would read as numbers.
- StableStringify: `undefined` and other values that are not JSON are excluded; a finite number stands for the numeral JavaScript prints for it, and the step from a parsed numeral to that numeral is the identity.
- CppSdk: text is a sequence of code units, not of UTF-8 bytes; HTTP through curl and the signature headers are not modelled.
- CardPlans: names, grace hours and column lengths of plans are not modelled; plans whose code starts with `card_` are assumed to be written only by this endpoint.
- Metrics: listing order and the rounding of averages in a snapshot are not modelled.
- AuditRedaction: functions, symbols and big integers inside payloads are not modelled.
- User interfaces, admin authentication, plain CRUD controllers, offline packages, device fingerprints and the .NET SDK.
