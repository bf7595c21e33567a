# core-service: stores, reconciliation, notifications and wallets, verified

This project models the parts of core-service where a mistake would be invisible in any one function, and
proves what they promise on every input, every sequence of operations or every interleaving.

* **Venue, session and audit store** — `StoreModel`, `StoreSafety`, `StoreCaptures`, `StoreSteps`, `StoreHistory`,
  `Repository`.
  Accounts, venues, audit events, wallet states, sessions and the venues a session captured. Each SQL transaction is
  one atomic step that commits or is rejected; the unique indexes and foreign keys are those of the migrations. A
  venue is created by the gRPC service in two steps, an attach check and a later insert, between which any other
  transactions may commit. The repository is a class whose methods are proved to have exactly the modelled effects;
  the safety results hold in every state a sequence of steps can reach from empty tables.
* **Reconciliation** — `ReconcileModel`, `Reconcile`, `ReconcileLaws`, `ReconcileRows`, `ReconcileDiffs`,
  `ReconcileRun`. Two wallets are aligned by
  normalised symbol and side and compared in three tiers; Go's map iteration is an unspecified choice, and the
  outcome is proved not to depend on it. The laws are symmetry, monotonicity, reflexivity and insensitivity to
  spelling and to flat rows.
* **Rate limiter** — `RateLimiter`. A sliding window compacted in place over the slice it reads, against a limiter
  that keeps everything.
* **Notifications** — `NotifyModel`, `NotifySafety`, `NotifyLaws`, `NotifyFields`, `NotificationService`. One-shot bind codes,
  plan and preference gates, rate-limited custom messages. A ghost history of issues, binds, unbinds, admissions
  and sends is what the results speak about.
* **Symbol catalog** — `CatalogProtocol`, `CatalogSafety`, `SymbolList`. The double-checked refresh as interleaved
  steps of any number of calls, and the pipeline from the exchange's table to the answer.
* **Wallet ingress, display and paging** — `Ingress`, `WalletDisplay`, `WalletFields`, `Paging`.

`Domain`, `Text` and `Wrappers` hold the records, string operations and result types that the rest shares. Amounts are `real`,
timestamps `int`, strings ASCII. Clock readings, random codes, hashes, fetch results and the order of map
iteration are parameters or unspecified choices.

Each operation is described twice: by the function or method that follows the code, and by laws over raw rows and
columns that share no definition with it (`StoreSteps`, `ReconcileRows`, `ReconcileDiffs`, `NotifyFields`,
`WalletFields`), so that a change to what a column means, to a guard or to a limit contradicts a law.

Four properties one might expect are false of the code; each has a concrete counterexample and its exact
condition:

* a running session need not have captured every venue that serves its account: an insert whose attach check passed
  before the session was saved joins unseen (`RacingInsertJoins`; `InsertExact`, `CompleteThroughoutIff` and
  `CapturesAreExactIff`);
* the repository's venue insert alone does not keep owners aligned (`UncheckedInsertDefeatsGuard`,
  `InsertKeepsAlignmentIff`);
* a limiter call whose timestamp is older than an earlier one can be admitted over its limit
  (`UnorderedClockAdmitsTooMany`, `LateCallExact`);
* a category padded with white space passes validation and then no category gate and no rate limit applies to it
  (`PaddedBurstIsSent`; `CategoryGateExact` for the gates, `LimiterGateExact` for the limit).

Where code and comments disagree the code is followed: the ratio of a diff divides by max(|exchange|, |local|)
(internal/reconciliation/diff.go:231), not by |exchange| as internal/domain/model.go:456 says.

## Model

| member | source | states |
|---|---|---|
| `StoreSafety.RunKeepsInv` | internal/repository/timescale.go:498-626 | In every reachable database, however attach checks, inserts and other transactions interleave: bound venues share owner and environment with their account, archived venues are unbound, sessions belong to the owner of their account, captures of active sessions are intact, active sessions and active routes are exclusive, the audit log replays to the current bindings, and venues approved for insertion still fit their account |
| `StoreSafety.StepKeepsInv` | internal/repository/timescale.go:405-437 | Each step, the attach check and the insert being two, preserves that invariant from any state satisfying it, whatever its arguments |
| `StoreSafety.CapturedVenuesStayBound` | internal/repository/timescale.go:688-717 | After any transactions, a venue captured for a session in status 3 or 4 is still bound to that session's account, active, in its environment, of its owner, and each captured column is still the venue's |
| `StoreCaptures.ServedByCapturedAndJoined` | internal/repository/timescale.go:1194-1256 | At every moment of a running session the active venues of its account are its captures and, disjointly, the venues inserted on the account since it was saved: no capture is lost and nothing joins by binding |
| `StoreCaptures.CapturesAreExactIff` | internal/repository/timescale.go:666-717 | A running session's captures are exactly the active venues of its account if and only if no insert has joined it |
| `StoreCaptures.CompleteThroughoutIff` | internal/service/grpc.go:239-259 | Captures stay complete through a whole run if and only if every insert of an active attached venue found its account without a running session when it committed |
| `StoreCaptures.InsertExact` | internal/repository/timescale.go:405-437 | From a good and complete state an insert leaves one if and only if the venue is unattached, or fits its account, is not archived and, when active, finds no running session there |
| `StoreCaptures.StepCompleteIff` | internal/repository/timescale.go:498-626 | From a complete state any step leaves a gap if and only if it is an insert of an active venue onto a busy account |
| `StoreCaptures.RacingInsertJoins` | internal/service/grpc.go:787-845 | The four-step run in which the attach check finds no session, a session is saved, and the insert commits: the running session is served by a venue it never captured |
| `StoreSafety.GuardIsExact` | internal/repository/timescale.go:769-781 | The guard filters sessions by the caller's user, yet on a reachable bound venue it finds one if and only if the account has any active session |
| `StoreSafety.AuditReconstructsBinding` | internal/repository/timescale.go:783-789 | Replaying the venue's events from its creation binding never meets a contradiction and yields its current account |
| `StoreSteps.EventsAppended` | internal/repository/timescale.go:783-789 | A move appends the release from the account left and then the bind, any other change one event; each carries the venue, caller and reason of the call, and nothing else ever writes events |
| `StoreSafety.OneSessionOneRoute` | internal/storage/migrations/0030_strategy_session_active_index_excludes_recoverable.sql:1-5 | In every reachable database an account has at most one active session and at most one active venue per exchange and market |
| `StoreSafety.BindKeepsInv` | internal/repository/timescale.go:498-554 | Binding or moving a venue keeps all captures intact, and its one or two events keep the log replayable |
| `StoreSafety.ReleaseKeepsInv` | internal/repository/timescale.go:556-594 | Releasing keeps the invariant: no active session loses a captured venue |
| `StoreSafety.ArchiveKeepsInv` | internal/repository/timescale.go:596-626 | Archiving keeps the invariant and leaves no archived venue bound |
| `StoreSteps.VenueChanges` | internal/repository/timescale.go:498-626 | A venue row changes only by its owner: its account by a bind to an active account of the same owner and environment while itself active, to none by a release, to none and archived with the given reason by an archive; nothing else in it ever changes |
| `StoreSteps.VenueAppears` | internal/repository/timescale.go:405-437 | A venue appears only as the approved venue of an insert, fitting its market |
| `StoreSteps.VenuesAreSound` | internal/storage/migrations/0019_portfolio_venue_hard_cut.sql:46-102 | In every reachable database each venue has the modes of its market and no two share an API key in one exchange, environment and market |
| `StoreSteps.BindAcceptedIff` | internal/repository/timescale.go:498-554 | In a good state a bind is accepted if and only if the owner binds an active venue to an active account of its environment, neither the account joined nor the one left has a session of any owner in progress, and the route is free; it is then bound |
| `StoreSteps.UnbindAcceptedIff` | internal/repository/timescale.go:556-626 | In a good state release and archive are accepted if and only if the caller owns the venue and its account, if any, has no session of any owner in progress |
| `StoreSteps.WalletChanges` | internal/repository/timescale.go:545-624 | A wallet row is rewritten from the caller's copy and the refresh, moves with its venue, is deleted by the archive, and is otherwise untouched |
| `StoreSafety.SaveSessionKeepsInv` | internal/repository/timescale.go:1194-1256 | Saving a session captures exactly its account's active venues and disturbs no other capture |
| `StoreSafety.InsertKeepsInvIff` | internal/repository/timescale.go:405-437 | The insert keeps the invariant if and only if the venue is unattached, or fits its account and is not archived |
| `StoreSafety.ApproveKeepsInv` | internal/service/grpc.go:239-259 | What the attach check approves fits its account, and goes on fitting it |
| `StoreSteps.ApprovedIff` | internal/service/grpc.go:239-259 | The attach check passes if and only if the venue is not archived and is unattached or its owner has an active account of its environment with no session in progress |
| `StoreSteps.InsertAcceptedIff` | internal/storage/migrations/0019_portfolio_venue_hard_cut.sql:97-102 | The insert is accepted if and only if the modes fit, the id is new, the key is free in its scope, an active attached venue finds its route free, and the account exists |
| `StoreHistory.ArchivedForever` | internal/repository/timescale.go:612-624 | From the point a venue is archived, every continuation leaves it archived and unbound |
| `StoreHistory.FinishedSessionFrozen` | internal/repository/timescale.go:1258-1280 | Once a session is outside status 3 and 4 its row is the same after any further transactions |
| `StoreHistory.FinishedSessionStamped` | internal/repository/timescale.go:1421-1439 | A session that was active and no longer is carries a completion time, by whichever exit |
| `StoreSteps.SessionChanges` | internal/repository/timescale.go:1258-1280 | A session row changes exactly by an update that names it, with no runtime or its own, to the given status, bars and error, or by a recovery of its own runtime, and only in status 3 or 4; account, owner, environment and runtime never change, and leaving 3 and 4 sets the completion time |
| `StoreSteps.ForeignStepsLeaveSession` | internal/repository/timescale.go:1267-1278 | No sequence of steps in which updates and recoveries name other runtimes touches a runtime's session |
| `StoreSteps.SessionAppears` | internal/repository/timescale.go:1194-1256 | A session row appears only by its own save, and is the draft under the owner of an account of its environment |
| `StoreSteps.UpdateAcceptedIff` | internal/repository/timescale.go:1258-1280 | An update is accepted if and only if the session is in status 3 or 4 and the runtime id is blank or the row's |
| `StoreSteps.SaveAcceptedIff` | internal/repository/timescale.go:1194-1256 | A save is accepted if and only if the account exists in that environment, the id is new, a session in progress finds the account idle, and account 0 has no active venue |
| `StoreSteps.RunningExact` | internal/repository/timescale.go:1421-1439 | The sessions a recovery counts are those of that runtime in status 3 or 4 |
| `StoreHistory.RecoveryIsCompleteAndLocal` | internal/repository/timescale.go:1421-1439 | Recovery moves exactly that runtime's sessions in status 3 or 4 to 5 and stamps them, changes no other row or table, and a second call changes nothing |
| `StoreHistory.StatusRoundTrip` | internal/repository/timescale.go:1136-1184 | Every stored status code survives text and back |
| `StoreHistory.StatusWords` | internal/repository/timescale.go:1136-1159 | The synonyms, the blank default of 3 and the fallback of 8 |
| `StoreHistory.StatusSpelling` | internal/repository/timescale.go:1137-1137 | Case and padding of a status make no difference |
| `StoreHistory.UpsertKeepsWalletsIff` | internal/repository/timescale.go:885-922 | An upsert keeps wallet rows in step with bindings if and only if the caller's venue copy has the current binding |
| `StoreHistory.WalletsFollowVenues` | internal/repository/timescale.go:885-922 | When each upsert used the current binding, every wallet row names its venue's account after any run of transactions |
| `StoreHistory.InsertKeepsAlignmentIff` | internal/repository/timescale.go:405-437 | The repository's own insert keeps owners and environments aligned if and only if the venue is unattached or its account matches both |
| `StoreHistory.UncheckedInsertDefeatsGuard` | internal/repository/timescale.go:405-437 | After one account is created, a foreign-owned venue inserted without the service check can be captured by a running session and then released under it |
| `RepositoryImpl.Repository.CountActiveSessions` | internal/repository/timescale.go:769-781 | The count is positive exactly when the user has a session in status 3 or 4 on the account |
| `RepositoryImpl.Repository.ApproveVenue` | internal/service/grpc.go:780-789 | The attach check: the first failing guard is reported, tables are unchanged either way, and only a passing venue becomes insertable |
| `RepositoryImpl.Repository.CreateVenue` | internal/repository/timescale.go:405-437 | The insert on its own: new row with the default status, or the exact refusal by mode, unique index or foreign key with nothing changed |
| `RepositoryImpl.Repository.BindVenue` | internal/repository/timescale.go:498-554 | As above for bind: venue row, one or two events in order, wallet row, or the exact error with nothing changed |
| `RepositoryImpl.Repository.ReleaseVenue` | internal/repository/timescale.go:556-594 | As above for release |
| `RepositoryImpl.Repository.ArchiveVenue` | internal/repository/timescale.go:596-626 | As above for archive, which also deletes the wallet row |
| `RepositoryImpl.Repository.UpsertVenueWalletState` | internal/repository/timescale.go:885-922 | The whole row, identifying columns from the caller's copy and balances, snapshot and time from the refresh, is inserted or replaced; an unknown venue or account is refused |
| `RepositoryImpl.Repository.ListActiveAccountVenues` | internal/repository/timescale.go:667-686 | The listed ids are exactly the active venues of the account, each once, ordered by exchange and then market |
| `RepositoryImpl.ListedExact` | internal/repository/timescale.go:668-669 | The order is by exchange, and on one exchange spot before perpetual before delivery |
| `RepositoryImpl.Repository.SaveSessionVenues` | internal/repository/timescale.go:688-717 | The row-by-row upsert loop equals capturing the whole set at once, or aborts when the account id is zero |
| `RepositoryImpl.Repository.SaveSession` | internal/repository/timescale.go:1194-1256 | Session row and captures appear together or not at all; the row takes the account's owner |
| `RepositoryImpl.Repository.UpdateSession` | internal/repository/timescale.go:1258-1280 | Only an active session of the named runtime is rewritten, and leaving 3 and 4 stamps the completion time |
| `RepositoryImpl.Repository.MarkRuntimeSessionsRecoverable` | internal/repository/timescale.go:1421-1439 | The number returned is the number of that runtime's active sessions, all of which and nothing else moved |
| `Reconcile.TotalSplits` | internal/reconciliation/diff.go:105-211 | Whichever key is visited first, the total diffs are that key's plus the total of the rest: order is immaterial |
| `Reconcile.Compare` | internal/reconciliation/diff.go:43-211 | For every iteration order, both flags equal the declarative verdicts and both diff lists equal, as multisets, the declared ones: 9 account diffs and per key none, one, or 8 plus 4 observed |
| `ReconcileRows.HardVerdictByRows` | internal/reconciliation/diff.go:105-190 | The hard verdict, without index, key or derived quantity: it holds if and only if every live last row of either side has a counterpart and each such pair agrees in signed quantity (position_qty, or qty where that is zero) within the step in force and in entry price within tick or ratio |
| `ReconcileRows.SoftVerdictByRows` | internal/reconciliation/diff.go:43-190 | The soft verdict likewise: the nine balances and six columns of every pair, each within its own absolute or relative tolerance |
| `ReconcileRows.AlignedExact` | internal/reconciliation/diff.go:357-392 | Two rows align if and only if their symbols agree up to case and their sides up to case and padding, blank meaning BOTH |
| `ReconcileRows.IndexIsLast` | internal/reconciliation/diff.go:381-392 | The row that counts is the last of its position |
| `ReconcileRows.SizesExact` | internal/reconciliation/diff.go:396-406 | Step and tick in force are those of the last exchange row for the symbol, else of the last local one, else zero |
| `ReconcileRows.FlatExact` | internal/reconciliation/diff.go:415-423 | A row is flat if and only if both quantity columns are zero |
| `ReconcileDiffs.EveryDiffIsTrue` | internal/reconciliation/diff.go:54-211 | Every recorded diff carries the two values of its own column or balance, quantities signed, their difference, its ratio to the larger magnitude, the thresholds that govern that column, a pass exactly when those allow it, and the label of its rows; or it reports, failed, a live position only one side tracks |
| `ReconcileDiffs.EveryPairIsTold` | internal/reconciliation/diff.go:150-211 | Each pair has such a diff for each of the twelve columns |
| `ReconcileDiffs.EveryLonelyRowIsTold` | internal/reconciliation/diff.go:123-148 | Each live row without a counterpart has its failed diff, with presence on the right side and its size |
| `ReconcileDiffs.AccountsTrue` | internal/reconciliation/diff.go:54-90 | One true diff for each of the nine balances |
| `Reconcile.CompareResult.AddSoft` | internal/reconciliation/diff.go:229-257 | The flag survives exactly when the values are within the absolute or the relative tolerance |
| `Reconcile.CompareResult.AddHardStep` | internal/reconciliation/diff.go:259-294 | The flag survives exactly when quantities are within the step multiple, or equal when no step is known |
| `Reconcile.CompareResult.AddHardPrice` | internal/reconciliation/diff.go:296-326 | The flag survives exactly when prices are within the tick multiple or the ratio |
| `Reconcile.CompareResult.AddKey` | internal/reconciliation/diff.go:105-211 | A key clears the hard flag exactly when a side that is live finds no counterpart row in tolerance |
| `Reconcile.IndexPositions` | internal/reconciliation/diff.go:381-392 | The loop builds the last-row-wins index by upper-cased symbol and normal side |
| `Reconcile.IndexRiskMetadata` | internal/reconciliation/diff.go:396-406 | Exchange metadata overrides local metadata for the same symbol |
| `Reconcile.IndexedSymbol` | internal/reconciliation/diff.go:381-392 | Every indexed row is stored under its own key, so metadata is looked up by the symbol of the row |
| `ReconcileLaws.FlagsMatchDiffs` | internal/reconciliation/diff.go:229-345 | A verdict is negative if and only if some recorded diff of its severity failed |
| `ReconcileLaws.RatiosBounded` | internal/reconciliation/diff.go:229-345 | Every recorded ratio lies in [0, 2] |
| `ReconcileLaws.LooserStillPasses` | internal/reconciliation/diff.go:229-323 | Raising any tolerances never turns a pass into a failure |
| `ReconcileLaws.SelfCompares` | internal/reconciliation/diff.go:43-211 | A wallet compared with itself passes for all non-negative tolerances |
| `ReconcileLaws.SwapKeyExact` | internal/reconciliation/diff.go:105-190 | Swapping the sides swaps the values of a key's diffs and nothing else, if and only if the sizes in force agree or the key is not compared by column |
| `ReconcileLaws.SwapDiffs` | internal/reconciliation/diff.go:215-345 | With agreeing metadata, swapping the wallets keeps every diff but for its two values, with multiplicity |
| `ReconcileLaws.SwapVerdict` | internal/reconciliation/diff.go:215-345 | With agreeing metadata, both verdicts are symmetric |
| `ReconcileLaws.OneWaySpellings` | internal/reconciliation/diff.go:368-374 | "", "BOTH", and any case or padding of it are one side |
| `ReconcileLaws.SpellingIsImmaterial` | internal/reconciliation/diff.go:357-406 | Diffs and verdicts of two wallets equal those of their canonical spellings |
| `ReconcileLaws.FlatRowIsImmaterial` | internal/reconciliation/diff.go:110-121 | Deleting a flat row whose counterpart is flat or absent, on either side, changes no diff and no verdict |
| `ReconcileRun.CompareVenue` | internal/reconciliation/service.go:209-252 | One venue's record: the full comparison, or one failed presence diff when a side lacks it |
| `ReconcileRun.CompareVenues` | internal/reconciliation/service.go:192-254 | One correct record per venue id of either side, none twice, for every iteration order |
| `ReconcileRun.ByVenueIsLast` | internal/reconciliation/service.go:196-206 | The snapshot that counts for a venue is the last one of its id |
| `ReconcileRun.RecordsDecideRun` | internal/reconciliation/service.go:118-132 | All records pass if and only if both sides report the same venues and each agrees |
| `ReconcileRun.RunVerdict` | internal/reconciliation/service.go:118-132 | HardPass and SoftPass equal those declarative agreements |
| `RateLimit.PruningIsInvisible` | internal/notification/rate_limiter.go:24-48 | On ordered calls the pruned store decides every call as a limiter that forgets nothing |
| `RateLimit.WindowNeverOverfull` | internal/notification/rate_limiter.go:24-48 | An admitted call leaves at most its limit of admitted calls in (now - window, now], counted by position, and none later |
| `RateLimit.DecisionExact` | internal/notification/rate_limiter.go:24-48 | On ordered calls a call is admitted if and only if limit and window are positive and fewer than limit calls of its key were admitted in (now - window, now] |
| `RateLimit.StoreIsFilteredHistory` | internal/notification/rate_limiter.go:34-46 | What is stored is the full history filtered at the last cutoff, in order |
| `RateLimit.LateCallExact` | internal/notification/rate_limiter.go:28-31 | A first late call is decided correctly for every limit if and only if no admitted call lies between its window start and the last cutoff |
| `RateLimit.UnorderedClockAdmitsTooMany` | internal/notification/rate_limiter.go:28-31 | Three calls, the last read before but locked after the second, that end with one admission too many |
| `RateLimit.KeysAreIndependent` | internal/notification/rate_limiter.go:34-46 | What is stored for a key depends on the calls of that key alone |
| `RateLimit.RateLimiter.Compact` | internal/notification/rate_limiter.go:35-40 | Overwriting the front of the array being read leaves exactly the later hits, in order |
| `RateLimit.RateLimiter.Append` | internal/notification/rate_limiter.go:45-45 | Append adds the hit, in place or in a fresh array |
| `RateLimit.RateLimiter.Allow` | internal/notification/rate_limiter.go:24-48 | Decision and stored lists of all keys equal the specification; backing arrays are never shared between keys |
| `NotifySafety.RunKeepsInv` | internal/notification/service.go:77-254 | After any operations each channel row equals what the history says, code budgets hold, every record is justified, and custom sends never outnumber admissions in any window |
| `NotifyLaws.BindsNeverExceedIssues` | internal/repository/timescale.go:2014-2079 | Over every run, binds with a code hash never exceed the times it was issued |
| `NotifyLaws.BindsAndSendsAreCurrent` | internal/repository/timescale.go:2014-2100 | Every bind used the row's latest, unexpired, unused code; every send went to the latest bound chat |
| `NotifyLaws.BoundMeansTargeted` | internal/repository/timescale.go:2055-2100 | A channel is bound if and only if it has a target, and that is the chat of the latest bind with no later unbind |
| `NotifyLaws.FreshCodeBinds` | internal/notification/service.go:216-250 | A code redeemed before it expires binds its user's channel to the chat and is spent |
| `NotifyFields.CodeLivesUntil` | internal/notification/service.go:216-229 | A code is redeemable by its row if and only if less than its lifetime has passed since it was issued |
| `NotifyLaws.EverySendWasGated` | internal/notification/service.go:77-175 | Every message in the history of a run comes from a delivery that found plan, preference and channel gates of its category open, and the limiter willing when custom |
| `NotifyLaws.SendsExactlyWhenAllowed` | internal/notification/service.go:105-131 | In any state a delivery sends exactly one message when all gates are open, a sender exists and a custom one is admitted, and otherwise none |
| `NotifyFields.GatesByField` | internal/notification/service.go:141-175 | The gates are open if and only if the event is well formed, delivery, plan and preferences are on, the category's own switch is on in the plan and among the preferences, and the channel is bound to a target |
| `NotifyFields.WellFormedExact` | internal/notification/event.go:109-132 | An event validates if and only if its version is 1, its user positive, its message not blank, and its trimmed category, type and severity are known |
| `NotifyFields.DeliveryTellsWhy` | internal/notification/service.go:77-132 | The note left in both rows has each status if and only if the fields say so: what blocked the event first, or that it was refused, failed or delivered |
| `NotifyLaws.HasPlanExact` | internal/repository/timescale.go:2145-2165 | The plan in force is the one the trimmed code names, else free, else one that allows nothing |
| `NotifyLaws.CategoryGateExact` | internal/notification/event.go:109-132 | For a valid event the gates guard its trimmed category if and only if the category carries no padding |
| `NotifyLaws.LimiterGateExact` | internal/notification/service.go:109-119 | For a valid event whose trimmed category is custom, nothing is ever recorded without the limiter's consent, in any state and configuration, if and only if the category carries no padding |
| `NotifyLaws.PaddedBurstIsSent` | internal/notification/service.go:141-175 | A concrete run from empty tables: two padded custom events one second apart are both sent on a plan that allows no custom message and one a minute at most |
| `NotifyLaws.PaddedCustomSkipsLimiter` | internal/notification/service.go:109-119 | A padded custom event leaves the limiter untouched and is sent when the remaining gates are open |
| `NotifyLaws.LimiterRemembersEnough` | internal/notification/service.go:109-119 | Through whole runs whose custom deliveries to the user are ordered in time, the user's limiter entry agrees with all past admissions on every window still askable |
| `NotifyLaws.CustomRateHolds` | internal/notification/service.go:109-119 | When a custom message goes out, with custom deliveries to the user ordered in time, the user's custom sends in the trailing window are at most the plan's per-minute limit and, where its burst is positive, at most the burst |
| `NotifyLaws.CustomAdmittedIff` | internal/notification/service.go:110-119 | With the gates open a custom message is admitted if and only if window and per-minute limit are positive and fewer than that limit, and than a positive burst, were admitted in the window |
| `NotificationServiceImpl.NotificationService.DeliverEvent` | internal/notification/service.go:77-132 | Tables, limiter and history equal the modelled delivery |
| `NotificationServiceImpl.NotificationService.CreateBindCode` | internal/notification/service.go:216-229 | The code replaces any earlier one; a bound channel stays bound |
| `NotificationServiceImpl.NotificationService.FindByBindCode` | internal/repository/timescale.go:2014-2027 | Finds a row exactly when one is redeemable, and then one that expires last |
| `NotificationServiceImpl.NotificationService.HandleTelegramUpdate` | internal/notification/service.go:235-250 | Blank text or no redeemable row changes nothing; otherwise a chosen row is bound and its code cleared |
| `NotifyFields.TelegramBindsLatest` | internal/repository/timescale.go:2014-2079 | A row is bound if and only if it holds the hash in time on a pending or bound channel and no other holder expires later; then only its status, target and code change |
| `NotificationServiceImpl.NotificationService.Unbind` | internal/notification/service.go:252-254 | The channel is revoked with neither target nor code left |
| `NotifyFields.UnbindIsFinal` | internal/repository/timescale.go:2081-2100 | A revoked channel can neither be reached nor redeemed |
| `NotificationServiceImpl.NotificationService.UpdatePreferences` | internal/notification/service.go:209-214 | Preferences change and the delivery status is kept; invalid users change nothing |
| `NotifyFields.PreferencesStick` | internal/repository/timescale.go:1976-1993 | Each of the four switches is what the user last said, the delivery note stays, and no other row changes |
| `NotificationServiceImpl.NotificationService.UpdateDeliveryStatus` | internal/repository/timescale.go:2102-2143 | Status, error text and time are recorded in settings and channel, creating default rows where missing, without touching preferences, binding or code |
| `CatalogSafety.RunKeepsInv` | internal/catalog/catalog.go:85-161 | Over every interleaving the refresh lock is held by exactly the call inside it, the log is disciplined and spaced, the cache is the last publication, and each call's local knowledge is true |
| `CatalogSafety.FetchesAreSerialAndSpaced` | internal/catalog/catalog.go:115-148 | Fetches of one market never overlap, and none starts until more than ttl after any earlier success |
| `CatalogSafety.OneFetchInFlight` | internal/catalog/catalog.go:118-135 | Two calls of one market never fetch at once |
| `CatalogSafety.CacheIsLastPublication` | internal/catalog/catalog.go:136-148 | The cache is unfilled or the last successful non-empty fetch |
| `CatalogSafety.AnswersAreHonest` | internal/catalog/catalog.go:115-160 | What a finished call returned: an error exactly when its own fetch failed over an unfilled cache, otherwise the filter of symbols once published, marked stale exactly when its own refresh was rejected over a filled cache; with a fetcher, no symbols means a rejected refresh, and unmarked ones were published at most ttl before the call began |
| `CatalogSafety.ReturnsFirstMatches` | internal/catalog/catalog.go:85-161 | Over every interleaving, when fetches deliver sorted distinct plain symbols, each listing returned is, of a table published for its market, the first symbols that mention the caller's own query in any case, up to the caller's own limit |
| `CatalogSafety.SomeCallCanMove` | internal/catalog/catalog.go:117-120 | No interleaving deadlocks: while a call is unanswered some call has an enabled step |
| `SymbolList.DedupSortedIsAscendingSet` | internal/catalog/binance_public.go:92-103 | On sorted input, deduplication keeps the same set, strictly ascending |
| `SymbolList.DedupInPlace` | internal/catalog/binance_public.go:92-103 | Writing over the array it scans yields the deduplication of the original contents |
| `SymbolList.FilterSymbols` | internal/catalog/filter.go:5-24 | Stopping early yields the first `limit` of all matches |
| `SymbolList.AnswerFrom` | internal/catalog/catalog.go:86-89 | The tail of List computes the declared answer |
| `SymbolList.AnswerExact` | internal/catalog/catalog.go:84-89 | The answer made of a table is strictly ascending, mentions the caller's query up to case and padding, has at most the caller's limit (80 outside 1 to 500), and leaves out a mention only when full and sorting before it |
| `SymbolList.QuerySpelling` | internal/catalog/catalog.go:89-89 | Two queries equal up to case and padding get the same answer from any symbols |
| `SymbolList.TabledFirstMatches` | internal/catalog/filter.go:5-24 | Of an ascending table the filter returns an ascending list of matches that leaves out a match only when full and only if everything returned sorts before it |
| `SymbolList.ListIsFirstMatches` | internal/catalog/binance_public.go:45-53 | Sorting and deduplicating the kept symbols makes a table of exactly those symbols, and the answer is the first of them that mention the caller's query |
| `Ingress.LookupsTouchOnlyDisplay` | internal/exchange/binance.go:221-257 | For any two outcomes of the price lookups, the fetched wallets differ in display totals only |
| `Ingress.DisplayIsAllOrNothing` | internal/exchange/binance.go:965-1011 | The three display totals are the full rate-weighted sums when every asset found a rate, and otherwise all three provider seeds |
| `WalletFields.MultiAssetColumns` | internal/exchange/binance.go:924-945 | In multi-asset mode wallet, available, cross wallet and cross profit are those columns of the first USDT balance, else of the first margin asset, else of the first, and both margin balances are wallet balance plus profit |
| `WalletFields.SingleAssetColumns` | internal/exchange/binance.go:946-963 | In single-asset mode every figure the provider sent nonzero stands and each of the four zero ones is that balance's column |
| `WalletFields.NoBalanceColumns` | internal/exchange/binance.go:924-928 | Without balances every figure is as sent |
| `WalletFields.DisplayWeighed` | internal/exchange/binance.go:965-1011 | When each asset has a rate the three display totals are the wallet, margin and profit columns weighed by the rates: one for USDT, a positive ticker or one for a stablecoin, a positive index for the rest |
| `WalletFields.DisplaySeeded` | internal/exchange/binance.go:245-255 | When some asset has none, or the index request it needs failed, all three are the provider's totals |
| `Ingress.FuturesAccount.FetchFutures` | internal/exchange/binance.go:221-257 | Running the steps in the order of ingress, a failed projection included, produces the declared wallet |
| `Ingress.FuturesAccount.ApplyDisplay` | internal/exchange/binance.go:965-1011 | Display is replaced as a whole or left alone, and no canonical field moves |
| `Ingress.FuturesAccount.PickPrimary` | internal/exchange/binance.go:1013-1028 | First USDT, else first margin asset, else first listed |
| `Ingress.FuturesAccount.Merge` | internal/exchange/binance.go:924-963 | Multi-asset mode overwrites eight canonical fields; otherwise only zero fields are filled |
| `WalletDisplay.SpotEstimate` | internal/exchange/binance.go:1036-1044 | The accumulation is cash plus priced holdings |
| `WalletFields.SpotByHoldings` | internal/exchange/binance.go:1036-1044 | Spot is cash, and a priced holding adds (free + locked) times price, an unpriced one nothing |
| `WalletDisplay.FetchOnlineAccountInfo` | internal/exchange/binance.go:82-163 | The whole fetch: the wallet after the merge with its positions, an empty spot wallet when its request failed, and the total by its two fallbacks |
| `WalletDisplay.FuturesPositionEquity` | internal/walletmetrics/display.go:40-84 | The two loops compute the declared cross and isolated equities, with the cross fallback |
| `WalletFields.EquityByRows` | internal/walletmetrics/display.go:40-96 | Position equity row by row: outside cross mode balance, profit and entry margin of each open row; in cross mode balance and profit plus what the rows bind at mark price, with the initial balance as fallback |
| `WalletDisplay.PositionDisplaySlice` | internal/walletmetrics/display.go:141-153 | In isolated mode one equity per row, summing to the position equity; nothing in other modes |
| `WalletDisplay.ComputeDisplay` | internal/walletmetrics/display.go:108-139 | Legs as declared; authoritative exactly when they match the total; per-row equities sum to the position equity |
| `WalletDisplay.RoutedTotalIsItsBreakdown` | internal/exchange/router.go:93-125 | For demo and live through the router, spot estimate plus futures leg equals the ingress total exactly |
| `WalletFields.TotalByColumns` | internal/exchange/binance.go:144-152 | Total less spot, and the displayed futures leg, are the margin balance, else the total margin balance, else the wallet balance |
| `WalletFields.MatchExact` | internal/walletmetrics/display.go:25-37 | A sum matches a total if and only if they are within 0.05 or within 1e-8 of the larger magnitude |
| `WalletFields.RoutingExact` | internal/exchange/router.go:93-125 | Exactly which environments and outcomes succeed, with which error otherwise, and that only the environment of the result is set |
| `WalletDisplay.BacktestAlwaysMatches` | internal/walletmetrics/display.go:121-131 | For backtest the breakdown always matches, and keeps the position-based equity whenever that matches |
| `Paging.ListPage` | internal/repository/timescale.go:291-333 | The page is the rows at the normalised offset and limit; has_more holds exactly when rows remain |
| `Paging.PageNormal` | internal/repository/timescale.go:278-289 | Limits in 1 to 200 and offsets from 0 are kept; the rest become 50, 200 and 0 |
| `Paging.WalkPages` | internal/repository/timescale.go:1370-1395 | Following offsets while has_more holds returns every row once and in order |

## Left out

- float64 rounding, NaN and infinities: amounts are reals, so exact equalities are over reals.
- Lock-level races between SQL transactions: transactions are serial. Find-then-bind, and one delivery up to the send, are single steps.
- The attach check's two reads, of the account and of its sessions, are one step: an account once created keeps owner, environment and status, so only the later read matters. An approval stays usable until its insert succeeds, which allows more runs than the service makes.
- The ids that sequences generate, and the columns that no modelled rule reads (descriptions, encrypted credentials, row timestamps, session naming and error detail).
- Foreign-key cascades: accounts are created and never changed or deleted here, as in the repository.
- SaveSessionVenues as a public entry (internal/repository/timescale.go:655): it takes venue copies from callers; only its use inside SaveSession is modelled.
- The wallet-state initialisation that follows a backtest venue's creation in the service: it is an upsert, which may follow any step.
- Field paths and threshold descriptions as strings and JSON: they are structured values with the same distinctions. Reconcile.Compare states diffs as multisets, since map iteration gives them no order.
- Diff metrics, logging, persistence, panic recovery and timeouts around a reconciliation run.
- SHA-256 and random code generation: a code is its hash, so results about a hash hold whichever codes collide.
- Message formatting, chat labels and bind times; SendTest, which is a delivery of a fixed event.
- The catalog's `List` as a method: the protocol is a state machine over values, one step per critical section, because calls interleave; its filter and its in-place deduplication are methods.
- SymbolList.ListIsFirstMatches: takes `sort.Strings` to be a sorted permutation and symbols to be upper-case and trimmed, as the exchange lists them.
- An asset with zero amounts and no known rate makes the display aggregation fail when nothing else needs the index; the model keeps that behaviour and only the all-or-nothing outcome is stated.
- HTTP, WebSocket, Kafka and Telegram clients, request signing, JSON decoding, credentials encryption, configuration, generated code.
- Order lifecycle, recovery scanner, risk gate and executors: not part of this model.
