# Verified model of the DEJOIY Auth core

A Dafny model of the stateful core of the DEJOIY authentication platform, with its main guarantees proved for all inputs
and all runs. `dafny verify dfyconfig.toml` checks the whole project.

Tables, Redis keys and the Zoho sheet are maps and sequences; every call to the outside is an arbitrary answer. Where the
source changes state step by step the model is a class whose methods do the same, each proved equal to a function of the
old state; the laws are lemmas about those functions and about runs of them.

- **Zoho sheet synchroniser** (`Zoho*.dfy`): a push is a keyed upsert in slices that may fail; a pull is a three-way merge
  against a stored baseline; both compose, repeat and survive conflict resolution. `ZohoRecords`, `ZohoPull`, `ZohoPush`
  and `ZohoConflicts` hold the functions, `ZohoSync` the stepwise code, the others the laws: `ZohoPushRows` the
  records a push leaves each user, `ZohoCompletion` when a pull completes and what it then is, `ZohoThrownPull` and
  `ZohoPartialPull` what one leaves that does not, `ZohoRoundTrip` a push followed by a pull. `ZohoPullEffects`,
  `ZohoPushRecords` and `ZohoResolutions` say column by column, in literal values, what a pull, a push and a resolution
  store. `ZohoLimiter` adds retries and backoff over a clock, and `ZohoSpacing` how fetches are spaced.
- **Sessions and refresh-token families** (`Session*.dfy`): rotation, reuse detection, five ways to revoke, transactions
  (`Transactions`) that roll back around writes that do not, and revocations split into single statements with anything in
  between. A parameter chooses the reuse guard as written or as documented. `SessionTimes` tells expiry, devices and
  reasons from the events of a run.
- **Login throttling** (`LoginThrottle.dfy`, `LoginCounters.dfy`): expiring counters and locks over explicit time, with an
  exact bound.
- **Browser token client** (`TokenClient.dfy`, `TokenClientRuns.dfy`): single-flight refresh under every interleaving of
  awaits.
- **Around these**: the password history, user numbers and the batched demo generator (`UserNumbers`, `UserCreations`,
  `DemoGenerator`, `DemoJobs`, `UserTable`), webhook dispatch (`Webhooks`, `WebhookRuns`), roles and the last Super Admin
  (`Roles`, `RoleLaws`), Base32 secrets and one-time codes (`Base32`, `TotpCodes`, `TotpValues`).

## What the proofs found

The model follows the code. Where a promised property fails, a lemma states exactly when it holds, and most have a
concrete example beside them.

- A push sends a slice with the type of its first operation. A new user behind an update gets no record while its
  metadata says synced (`MixedSliceLosesNewUser`). A user updated behind an addition gets a second record; no push under
  mark or keep removes it, and every pull throws from then on (`MixedSliceRepeatsRow`, `SecondRowIsForGood`). Who gets
  which records is exact for every pattern of slices (`PushAddsRows`), and the push acts per operation if and only if no
  slice is mixed (`FlushIsUpsertIff`, `PushIsKeyedUpsert`). ZOHO-SYNC.md says unchanged rows are skipped; the code updates
  every row, since the version in the record changes.
- A pull that inserts an employee profile gives it the default status "active". If the same row reports an Employment
  Type conflict, the next pull sees another database value (`SecondPullDiffers`, `PullReachesFixpoint`).
- A pull is not one transaction: a phone number that another user holds when the record is reached, or two records for one
  user, makes it throw after some writes and before the metadata is stored (`PullCompletesIff` says exactly when). Two users
  who swap phones on the sheet are enough (`SwapThrowsHalfWay`); values that were normalised are then reported as conflicts
  by the retry (`RetryIsCleanIff`).
- A bidirectional job pushes before it pulls, so it overwrites the sheet edits it would have pulled (`JobOverwritesEdits`).
- A pull reports a conflict again as long as it is not resolved, and a resolution acknowledges the value of its own report.
  Resolving an older report of the same cell therefore moves the baseline back and the field is reported again
  (`OlderConflictReopens`); a resolution sticks exactly while its value is the one last acknowledged (`ResolutionSticksIff`).
- A Retry-After that does not fit a 31-bit timer is not waited for (`LongRetryAfterIsIgnored`), and a limiter that can meet
  one does not space its fetches (`RetriesKeepIff`, `FetchesAreSpacedIff`).
- The reuse guard also rejects every successor, so a session can be refreshed only once (`RefreshedOnlyOnce`); its
  comment describes a guard that looks at revocation only, for which chains of any length work (`ChainsGoOnIff`).
- The answer of a refresh that was under way signs a browser in again after signing out (`SigningOutSticksIff`).
- A new account's password is not put into the history (`FirstPasswordCanBeReused`), and the configured history limit is
  not used: the code keeps ten.
- Failed webhook deliveries note a retry time, but nothing makes the retry (`DeliveriesAreAttemptedOnce`), although the
  header of 005_event_bus.sql says deliveries are retried with backoff.
- Soft-deleted holders count as Super Admins and deleting a user checks nothing, so the last usable one can be lost while
  the bootstrap stays closed (`RemovalKeepsLiveHolderIff`, `DeletionKeepsLiveHolderIff`, `LiveSuperAdminsCanRunOut`).
- An employment type accepted for a user without a profile is counted and acknowledged in the baseline, but stored nowhere
  (`EmploymentTypePulled`).
- Generated phone numbers repeat beyond a hundred million users (`PhonesDistinctIff`).

## Model

| member | source | states |
|---|---|---|
| ZohoRecords.RenderingsAgree | apps/api/src/services/zoho-sync.ts:489-523 | A pushed record renders every writable field of a live user exactly as the pull reads it from the database. |
| ZohoSync.Synchroniser.ApplySheetValue | apps/api/src/services/zoho-sync.ts:756-851 | One sheet value is refused, or written normalised to the one table column it belongs to, or throws on a phone number another user holds; a status or phone also stamps the user with the time of the pull, and nothing else of any user changes. |
| ZohoSync.Synchroniser.PullRecord | apps/api/src/services/zoho-sync.ts:937-982 | The column loop of one record, with its growing baseline, counters and writes in place, computes the row function; it stops at the first write that throws. |
| ZohoSync.Synchroniser.PullLiveRecord | apps/api/src/services/zoho-sync.ts:933-991 | One record of a live user and the metadata (version, status, baseline, hash) it leaves to store. |
| ZohoSync.Synchroniser.PullStepwise | apps/api/src/services/zoho-sync.ts:915-991 | One record: skipped without a User ID, reported as an orphan unless blank or PENDING, or compared column by column. |
| ZohoSync.Synchroniser.PullRecords | apps/api/src/services/zoho-sync.ts:905-988 | All records against one snapshot of users and metadata, until a write throws. |
| ZohoSync.Synchroniser.SyncSheetToDb | apps/api/src/services/zoho-sync.ts:892-995 | The whole pull as a change of tables: writes first, then conflict rows, then metadata; a throw keeps what was written and stores no metadata. |
| ZohoMerge.RowResultIs | apps/api/src/services/zoho-sync.ts:937-982 | A row that completes writes exactly the columns decided as writes, reports exactly those decided as conflicts, and counts them; decisions look at the snapshot and the stored baseline only. |
| ZohoMerge.WriteAllMerges | apps/api/src/services/zoho-sync.ts:756-851 | Writing the accepted columns one after the other is one simultaneous merge of the user, the inserted employee profile included. |
| ZohoMerge.BaselineLookup | apps/api/src/services/zoho-sync.ts:937-970 | The new baseline holds the sheet value exactly for acknowledged columns and the stored value for all others. |
| ZohoCompletion.PullCompletesIff | apps/api/src/services/zoho-sync.ts:868-995 | Under any mapping a pull completes if and only if each live user has at most one record and every accepted phone edit finds its number free when its turn comes; both can be checked before the pull. |
| ZohoCompletion.PullIsThreeWayMerge | apps/api/src/services/zoho-sync.ts:892-995 | Under that condition a pull is the three-way merge of every live user with a record; all other users, their metadata and the earlier conflicts are as they were; the conflicts added are exactly those of the decisions, and both counts are exact. |
| ZohoPullLaws.WriteDecision | apps/api/src/services/zoho-sync.ts:113-123 | A field is written if and only if it is one of the eight writable ones, the database still holds the baseline (or there is none), the sheet differs, and validation accepts. |
| ZohoPullLaws.MergedText | apps/api/src/services/zoho-sync.ts:737-851 | What every writable field reads back as after the merge: the normalised accepted value; the column default if the row inserted the profile; the database value in every other case. |
| ZohoPullLaws.NamesTwiceIs | apps/api/src/services/zoho-sync.ts:868-890 | The metadata upsert fails exactly when two records name the same live user. |
| ZohoFixpoint.PullReachesFixpoint | apps/api/src/services/zoho-sync.ts:892-995 | A second pull at any later time completes, writes nothing, changes no baseline, version or status and reports the same conflicts, if and only if nothing obstructs the first one and none of its rows inserts a profile under an Employment Type conflict; for all databases, sheets and mappings. |
| ZohoCompletion.CompletesWithoutPhone | apps/api/src/services/zoho-sync.ts:868-995 | In particular, with no phone column pulled, a pull completes if and only if each live user has at most one record. |
| ZohoPartialPull.PullOnlyAppliesEdits | apps/api/src/services/zoho-sync.ts:892-995 | However a pull ends, every changed field of every user is explained by an accepted edit in one of that user's own records, a stamp moves only to the time of the pull and only for an edit of the status or phone, everything else is untouched, and a throwing pull stores no metadata. |
| ZohoThrownPull.ThrownPullLeaves | apps/api/src/services/zoho-sync.ts:905-982 | A pull that throws on a phone number has merged every record before the throwing one, and of the throwing one at most the full name. |
| ZohoThrownPull.RetryIsCleanIff | apps/api/src/services/zoho-sync.ts:905-995 | After a pull that threw on a phone number, its retry reports no further field if and only if no record before the throwing one holds a stale field: an accepted value that was normalised away from both cell and stored baseline, or an empty Employment Type cell beside a profile the record inserted. |
| ZohoExamples.SwapThrowsHalfWay | apps/api/src/services/zoho-sync.ts:823-825 | A concrete sheet that swaps two phones: the pull throws with another user's status written, no metadata is stored, and the retry reports that status although nobody edited it in the database. |
| ZohoExamples.SecondPullDiffers | apps/api/src/services/zoho-sync.ts:784-830 | A concrete sheet and database for which the second pull is not quiet: inserting the profile row defaults the employment status. |
| ZohoPullEffects.DirectionsAre | apps/api/src/services/zoho-sync.ts:69-81 | A column is pulled if and only if it is mapped to "sheet_to_db" or "bidirectional", and pushed unless mapped to "never" or "sheet_to_db"; unmapped and unknown directions push only. |
| ZohoPullEffects.StatusPulled | apps/api/src/services/zoho-sync.ts:766-779 | After a pull that nothing obstructs a live user's state is the upper-cased cell if the sheet alone changed and that is one of the eight states, else what it was; the field is reported if and only if both sides changed or the sheet alone did to anything else, and the baseline takes the cell otherwise. |
| ZohoPullEffects.DepartmentPulled | apps/api/src/services/zoho-sync.ts:780-790 | The same for the department: a value the sheet alone changed is stored if and only if there is a department of that name. |
| ZohoPullEffects.ManagerPulled | apps/api/src/services/zoho-sync.ts:791-803 | The same for the manager: stored if and only if the cell is the e-mail of a user who is not deleted. |
| ZohoPullEffects.RolePulled | apps/api/src/services/zoho-sync.ts:804-813 | The same for the role: the user gains the one role the sheet alone changed to, and keeps the others, if and only if there is a role of that name. |
| ZohoPullEffects.FullNamePulled | apps/api/src/services/zoho-sync.ts:814-822 | The same for the full name: always stored. |
| ZohoPullEffects.PhonePulled | apps/api/src/services/zoho-sync.ts:823-828 | The same for the phone: stored if and only if it has 1 to 32 UTF-16 code units. |
| ZohoPullEffects.DesignationPulled | apps/api/src/services/zoho-sync.ts:829-837 | The same for the designation: always stored. |
| ZohoPullEffects.EmploymentTypePulled | apps/api/src/services/zoho-sync.ts:838-847 | The same for the employment type: stored in lower case, where there is a profile, if and only if it is one of four words; a profile inserted otherwise holds "active". |
| ZohoPullEffects.PhoneEditIs | apps/api/src/services/zoho-sync.ts:823-828 | The phone edits that can make a pull throw: a tracked live user, only the sheet changed, 1 to 32 code units. |
| ZohoPullEffects.RestPulled | apps/api/src/services/zoho-sync.ts:756-851 | A profile is there afterwards if and only if it was or a department, designation or manager was taken; the stamp moves if and only if a status or phone was; e-mail, MFA and every other field stay. |
| ZohoPullEffects.MetaPulled | apps/api/src/services/zoho-sync.ts:980-987 | The version goes up by one if and only if some cell of the record was taken; the status is "conflict" if and only if something of the user was reported; the hash stays. |
| ZohoPullEffects.PullCounts | apps/api/src/services/zoho-sync.ts:910-994 | The two numbers returned are the cells taken in the whole sheet and the conflict rows added. |
| ZohoPullEffects.OrphansReported | apps/api/src/services/zoho-sync.ts:922-935 | A record without a live user is reported, with the text the code builds, if and only if it has a User ID and its upper-cased status is neither blank nor "PENDING". |
| ZohoSync.Synchroniser.IndexSheet | apps/api/src/services/zoho-sync.ts:638-648 | The index loop keeps, per User ID, the last record that carries it. |
| ZohoSync.Synchroniser.PlanUser | apps/api/src/services/zoho-sync.ts:653-705 | The branches for one user: removed, kept, marked, updated with a new or the old version and hash, added, or left out. |
| ZohoSync.Synchroniser.PlanOps | apps/api/src/services/zoho-sync.ts:650-706 | The planning loop makes one operation per user with a record or still live, with its record, version, hash and status, for each deletion policy. |
| ZohoSync.Synchroniser.FlushOps | apps/api/src/services/zoho-sync.ts:550-589 | The slice loop: one call per slice, of the type of its first operation; a failed call changes nothing and counts its whole slice as failed. |
| ZohoSync.Synchroniser.SyncDbToSheet | apps/api/src/services/zoho-sync.ts:614-720 | The whole push as a change of the sheet and of the metadata, and the counts it returns. |
| ZohoPushLaws.PlannedOperations | apps/api/src/services/zoho-sync.ts:653-706 | Updates and removals name the record that carries the user's ID; additions are for live users the sheet does not hold; removals happen under policy delete only. |
| ZohoPushLaws.SliceIsPerOperation | apps/api/src/services/zoho-sync.ts:559-580 | One call for a slice does what its operations say if and only if they are all of one type. |
| ZohoPushLaws.FlushIsUpsertIff | apps/api/src/services/zoho-sync.ts:550-589 | For every pattern of failed slices exactly the surviving operations take effect, one by one: this holds if and only if no slice mixes types. |
| ZohoPushLaws.WhenNoSliceIsMixed | apps/api/src/services/zoho-sync.ts:559-563 | No slice is mixed when slices hold one operation, when every user has a record, or when none has. |
| ZohoPushLaws.FlushAccounts | apps/api/src/services/zoho-sync.ts:550-589 | Metadata is sent for exactly the surviving operations; sent and failed add up to the plan. |
| ZohoPushLaws.PushSends | apps/api/src/services/zoho-sync.ts:550-589 | Policies mark and keep, however slices are mixed and whichever fail: what a slice of updates holds replaces the pushed columns of its users' records, what a slice of additions holds is appended in order, updates included, and every other record stays. |
| ZohoPushLaws.PushIsKeyedUpsert | apps/api/src/services/zoho-sync.ts:614-720 | Policies mark and keep, any failures: the push is a keyed upsert of exactly its surviving operations (updates replace the pushed columns of their users' records, additions are appended in order, nothing else changes) when the succeeded slices are of one type each, and with the User ID pushed only then. |
| ZohoPushLaws.PushLeavesTheRest | apps/api/src/services/zoho-sync.ts:614-720 | Policies mark and keep: records of nobody in the database and columns that are not pushed are never touched, whatever slices are mixed or fail. |
| ZohoPushLaws.PushMetadata | apps/api/src/services/zoho-sync.ts:591-612 | Metadata is stored for exactly the users whose operation survived, no baseline changes, and no other table does; under every policy (PushNotes says what is stored). |
| ZohoPushRecords.PushNotes | apps/api/src/services/zoho-sync.ts:653-705 | However a push went, under every policy, what a surviving operation leaves stored: an addition version 1 and the hash of its record; an update of a live or marked user the old version plus one and the new hash if the pushed part of the user's last record hashes differently, the old ones otherwise; a kept deleted user version and hash unchanged and "removed"; a removal version plus one, an empty hash and "removed". |
| ZohoPushRecords.PushedRecordShows | apps/api/src/services/zoho-sync.ts:489-523 | However a push went under mark or keep, every record it reached shows all twenty columns as far as they are pushed: each the text of its own field, "TERMINATED" and "removed" for a deleted user, and as version the old one plus one, 1 for a new record, the old one for a kept deleted user. |
| ZohoPushRecords.ReachedUpdateAdvances | apps/api/src/services/zoho-sync.ts:678-698 | A live user's record reached by an update reads the old version plus one, while the stored version advances if and only if the pushed columns of the record before and after hash differently. |
| ZohoPushRecords.OperationIs | apps/api/src/services/zoho-sync.ts:653-706 | Which operation a user has, told from the records that carry the ID: an addition for a live user with none, a removal of the last one for a deleted user under policy delete, an update of the last one otherwise; its record shows the user in exactly the pushed columns. |
| ZohoPushRecords.PlannedIff | apps/api/src/services/zoho-sync.ts:653-706 | A user has an operation if and only if live or on the sheet: deleted users are never put there. |
| ZohoPushRecords.PushCountsUsers | apps/api/src/services/zoho-sync.ts:711-716 | The counters are the live users absent from the sheet, the users on it that are kept there, and the deleted users on it under policy delete. |
| ZohoPushRecords.RemovalsNameTheirRows | apps/api/src/services/zoho-sync.ts:576-580 | A slice of removals hands over the last record of each of its users, in order. |
| ZohoPushLaws.PushAccounts | apps/api/src/services/zoho-sync.ts:708-716 | Surviving plus failed is the number of planned operations, and the three row counters add up to it. |
| ZohoPushRows.PushAddsRows | apps/api/src/services/zoho-sync.ts:559-568 | However slices are mixed and whichever fail, a push leaves each user the records there were, and one more if and only if the User ID is pushed and the user's operation went out in a succeeded slice that starts with an addition. |
| ZohoPushRows.AppendedRow | apps/api/src/services/zoho-sync.ts:561-567 | Every appended record is one sent in a slice of additions, with its user's number; an addition is for a live user the sheet did not hold, an update repeats the record of its user. |
| ZohoPushRows.AbsentUserIsAppendedOnce | apps/api/src/services/zoho-sync.ts:698-705 | A live user the sheet does not hold gets at most one record, and one if and only if the user's operation went out in a succeeded slice that starts with an addition and the User ID is pushed. |
| ZohoPushRows.PushKeepsOneRowEach | apps/api/src/services/zoho-sync.ts:559-568 | After a push live users have at most one record each if and only if they had before and no live user's update went out in a slice that starts with an addition (with the User ID pushed). |
| ZohoPushRows.SecondRowIsForGood | apps/api/src/services/zoho-sync.ts:550-589 | Once a user has two records, every pull throws after any number of pushes under mark or keep, while the user is not deleted. |
| ZohoExamples.MixedSliceRepeatsRow | apps/api/src/services/zoho-sync.ts:561-567 | A concrete push whose one slice succeeds and gives a user a second record, after which every pull throws for good. |
| ZohoExamples.MixedSliceLosesNewUser | apps/api/src/services/zoho-sync.ts:559-583 | A concrete push in which a new user planned behind an update gets no record although its metadata says synced. |
| ZohoRoundTrip.PushedRowShowsDatabase | apps/api/src/services/zoho-sync.ts:614-720 | However the push went: a live user's record that it appended, or for which an operation was sent as an update, shows every pushed writable field as the database has it, and its user's baseline is as it was. |
| ZohoRoundTrip.PushThenPullIsQuiet | apps/api/src/services/zoho-sync.ts:113-123 | The pull after such a record was written settles a pushed field of it if and only if the database text has no surrounding space or the baseline already holds the trimmed text. |
| ZohoRoundTrip.PushThenPullWritesNothing | apps/api/src/services/zoho-sync.ts:892-995 | However a push under mark or keep went, under any mapping: the pull after it completes, changes no user and reports only records without a live user, if and only if live users had at most one record each, no update was sent as an addition, and every pulled field of every live user agrees (what is left in the cell, trimmed, is the database text or the stored baseline, or the user has no metadata). |
| ZohoRoundTrip.JobOverwritesEdits | apps/api/src/services/zoho-sync.ts:1036-1051 | A bidirectional job pushes first: a sheet edit of a pushed field that a pull on its own would apply is overwritten with the database text whenever an operation for the record was sent as an update; no user changes under the condition of the row above. |
| ZohoSync.Synchroniser.ResolveConflict | apps/api/src/services/zoho-sync.ts:1247-1297 | A resolution applies the sheet value if asked to, acknowledges it in the baseline, and marks the conflict; or leaves all tables alone, for each of the ways it can fail. |
| ZohoConflicts.ResolutionAcknowledges | apps/api/src/services/zoho-sync.ts:1271-1284 | Each of the three resolutions acknowledges the conflict's sheet value. |
| ZohoResolutions.KeepingTouchesNoUser | apps/api/src/services/zoho-sync.ts:1247-1295 | keep_db and skip leave every user as it was and go through if and only if the conflict is there and pending; then its row is closed under that name, the one baseline entry is the sheet value, the status "synced", and nothing else changes. |
| ZohoResolutions.KeepSheetSucceedsIff | apps/api/src/services/zoho-sync.ts:1252-1266 | keep_sheet goes through if and only if the conflict is pending, the user is live, the value valid for its column, and the phone not another user's; each failure is the one that the code ends with and leaves all tables alone. |
| ZohoResolutions.KeepSheetStores | apps/api/src/services/zoho-sync.ts:1259-1284 | After keep_sheet the one field holds the value of the conflict in the form of its column; every other field of the user and every other user is as before. |
| ZohoResolutions.KeepSheetStoresProfile | apps/api/src/services/zoho-sync.ts:780-847 | The same inside the profile row, new with the default status if there was none. |
| ZohoConflicts.AcknowledgedIsSilent | apps/api/src/services/zoho-sync.ts:937-982 | A pull neither writes nor reports an acknowledged cell, whatever the database value is. |
| ZohoConflicts.ResolutionSettlesIff | apps/api/src/services/zoho-sync.ts:1247-1297 | After any resolution the next pull settles the field if and only if the cell shows the resolved value or the database text. |
| ZohoConflicts.BaselineIsLastAcknowledged | apps/api/src/services/zoho-sync.ts:937-995 | Over every run of pulls, pushes, resolutions and edits the baseline of a field is the value last acknowledged for it, else the one it began with. |
| ZohoConflicts.StaysSilentIff | apps/api/src/services/zoho-sync.ts:937-982 | After any run a pull neither writes nor reports a field if and only if, in every record of its user, the cell shows the database text or the value last acknowledged, or the user has no metadata yet. |
| ZohoConflicts.ResolutionSticksIff | apps/api/src/services/zoho-sync.ts:1247-1297 | A resolution anywhere in a run that began without conflicts sticks, while the cell keeps the resolved value, if and only if that value is still the one last acknowledged, or is the database text, or the user has no record left. |
| ZohoExamples.OlderConflictReopens | apps/api/src/services/zoho-sync.ts:1271-1284 | Two concrete conflicts of one cell: resolving the newer one silences the field, resolving the older one afterwards makes the next pull report it again. |
| ZohoLimiter.RateLimiter.Throttle | apps/api/src/services/zoho-sync.ts:142-148 | Waits for what remains of the interval or backoff, then notes the start of the call. |
| ZohoLimiter.RateLimiter.ZohoApi | apps/api/src/services/zoho-sync.ts:211-254 | The retrying call, as it sleeps, backs off and calls itself, computes the call function: fetch starts, waits, final state and outcome. |
| ZohoLimiter.ThrottleKeepsWait | apps/api/src/services/zoho-sync.ts:142-148 | However late timers fire, the next call keeps its distance if and only if the remaining wait fits a 31-bit timer. |
| ZohoLimiter.ThrottleKeepsInterval | apps/api/src/services/zoho-sync.ts:142-148 | However late timers fire, the next call keeps the configured interval if and only if the remaining wait fits a timer or at most a millisecond of the interval is left. |
| ZohoSpacing.RetriesKeepIff | apps/api/src/services/zoho-sync.ts:211-254 | For every configuration and set of Retry-After values: all retries of all calls keep the interval (or the interval and their backoff) whatever timers and fetches do, if and only if every backoff that can be asked for is held by the two timers of a retry. |
| ZohoSpacing.FetchesAreSpacedIff | apps/api/src/services/zoho-sync.ts:138-254 | For every configuration and set of Retry-After values: over all runs of a limiter, any number of calls with any replies, all fetches start at least the interval apart, if and only if the interval is at most a millisecond or it and every possible backoff fit a timer. |
| ZohoLimiter.LongRetryAfterIsIgnored | apps/api/src/services/zoho-sync.ts:165-169 | A Retry-After that does not fit a timer is not waited for: the retry starts two milliseconds later. |
| ZohoLimiter.CallRetries | apps/api/src/services/zoho-sync.ts:232-241 | At most one fetch more than the retries; every fetch but the last was answered 429, or 500 and above, and if the last one was too the retries ran out; the i-th wait is the Retry-After of its answer or else the base times 2^i. |
| ZohoLimiter.BackoffAddsUp | apps/api/src/services/zoho-sync.ts:235-239 | k retries without Retry-After keep waits that sum to base * (2^k - 1), and the timers sleep exactly that if and only if the longest fits. |
| ZohoLimiter.BackoffAfterCall | apps/api/src/services/zoho-sync.ts:235-252 | The backoff is cleared by an answer from 200 to 299 without an error in its body, and by nothing else; after a failure the last one stays. |
| SessionTables.SessionService.CreateSession | apps/api/src/services/session.ts:44-92 | One transaction for device, session and first token; false, with no trace, when a key is taken. |
| SessionTables.SessionService.RotateRefreshToken | apps/api/src/services/session.ts:113-179 | The rotation on a working copy: committed when a token is issued, dropped otherwise, while the family revocation is committed regardless. |
| SessionTables.SessionService.RevokeTokenFamily | apps/api/src/services/session.ts:181-194 | Two statements through the pool: the live tokens of the family, then its sessions. |
| SessionTables.SessionService.RevokeSession | apps/api/src/services/session.ts:203-212 | The session and its live tokens are revoked, with the given reason. |
| SessionTables.SessionService.LogoutSession | apps/api/src/services/session.ts:341-346 | Logging out revokes like any other session revocation. |
| SessionTables.SessionService.RevokeAllUserSessions | apps/api/src/services/session.ts:229-252 | The user's live sessions but the excepted one, then their live tokens; the number of sessions is returned. |
| SessionTables.SessionService.RevokeDevice | apps/api/src/services/session.ts:297-312 | The device of that user, every live session on the device, their live tokens. |
| SessionLaws.RunsAreSound | apps/api/src/services/session.ts:31-346 | Every run of logins, refreshes and all revocations keeps: one session and user per family and one family per session, at most one live token per family, at most one successor per token, a live token only under a live session; for the guard as written and the documented one. |
| SessionLaws.ReachableIsSound | apps/api/src/services/session.ts:31-346 | So does every state reached from empty tables. |
| SessionLaws.RotateIssuesIff | apps/api/src/services/session.ts:113-143 | A refresh issues a token if and only if the presented one is known, unrevoked and unexpired and, with the guard as written, not itself a successor. |
| SessionLaws.RotationHandsOver | apps/api/src/services/session.ts:145-179 | After a refresh the new token is the one live token of its session, every other token and session is as it was, and presenting the old token again is reuse. |
| SessionLaws.ReuseRevokesFamily | apps/api/src/services/session.ts:125-138 | Presenting a spent token leaves its whole family and its session revoked although the transaction rolls back, and changes nothing else. |
| Transactions.Database.Transact | apps/api/src/db/pool.ts:45-60 | BEGIN, the body statement by statement, then COMMIT or ROLLBACK: the committed tables become what the transaction function says. |
| Transactions.TransactionKeeps | apps/api/src/db/pool.ts:45-60 | A rollback loses every statement sent to the client and keeps, in order, every statement sent to the pool; a commit keeps all of them. |
| Transactions.RollbackUndoesClient | apps/api/src/db/pool.ts:45-60 | A body that throws and only used its client leaves the tables as they were. |
| SessionTransactions.RotateIsATransaction | apps/api/src/services/session.ts:113-179 | A refresh is its statements run in such a transaction, rolled back unless a token is issued; those of the family revocation go to the pool. |
| SessionTransactions.OtherFailuresChangeNothing | apps/api/src/services/session.ts:140-143 | A refresh that fails without detecting reuse leaves all tables as they were: the mark of an expired token is rolled back. |
| SessionLaws.RefreshedOnlyOnce | apps/api/src/services/session.ts:125-126 | With the guard as written a session can be refreshed once in its life: whatever happens afterwards, presenting its new token, or any other of its tokens, is reuse. |
| SessionLaws.ChainsGoOnIff | apps/api/src/services/session.ts:125-126 | Refreshes in a row, each with the token the last one issued, all succeed if and only if the guard is the documented one, or there is at most one and its token is a first one. |
| SessionLaws.RevokeSessionKills | apps/api/src/services/session.ts:203-212 | The session has no live token afterwards; every other session and token is as it was. |
| SessionLaws.RevokeAllKills | apps/api/src/services/session.ts:229-252 | All sessions of the user but the excepted one are revoked without a live token, those revoked earlier included; everything else is as it was. |
| SessionLaws.RevokeDeviceKills | apps/api/src/services/session.ts:297-312 | All sessions on the device are revoked without a live token; everything else is as it was. |
| SessionLaws.RevokeFamilyKills | apps/api/src/services/session.ts:186-194 | All tokens of the family and its one session are revoked; everything else is as it was. |
| SessionLaws.DeadIsFinal | apps/api/src/services/session.ts:323-333 | A revoked session without live tokens is unusable at any time, and none of its tokens can be refreshed. |
| SessionTimes.UsableIff | apps/api/src/services/session.ts:72-73 | Over every run, told from its events: a session exists if and only if it was logged in, and one that is not revoked is usable at t if and only if t is at most its login plus the absolute time and at most its last successful refresh, or else its login, plus the idle time. |
| SessionTimes.RefreshableIff | apps/api/src/services/session.ts:140-162 | Over every run: a token exists if and only if it was issued, and it can be refreshed at t if and only if it is unrevoked, t is at most its own issue plus the refresh time, and the guard lets it pass. |
| SessionTimes.DevicesAre | apps/api/src/services/session.ts:49-58 | Over every run the device of a user and fingerprint is that of the first login with them, revoked if it was revoked since. |
| SessionTimes.LoginCarriesDevice | apps/api/src/services/session.ts:48-91 | A login with a fingerprint known from the run carries the id of the stored device, one with a new fingerprint the new id, one without a fingerprint none. |
| SessionTimes.RevokedBecause | apps/api/src/services/session.ts:164-193 | Rows carry the reason of the operation that revoked them; only reuse overwrites the reason of a session revoked earlier. |
| SessionInterleaving.StepKeepsCoherent | apps/api/src/services/session.ts:186-212 | Single statements of any number of revocations, interleaved with refreshes and logins, keep the family laws and what each revocation has established so far. |
| SessionInterleaving.CompletionKills | apps/api/src/services/session.ts:203-312 | The last statement of a revocation leaves each session it set out to revoke without a live token. |
| SessionInterleaving.RevocationIsFinal | apps/api/src/services/session.ts:203-312 | Whatever runs between the first and the last statement of a revocation, and whatever follows, the sessions it revoked stay revoked without a live token for ever. |
| SessionInterleaving.TargetsAtBegin | apps/api/src/services/session.ts:186-312 | Which sessions each of the revocations sets out to revoke. |
| LoginThrottle.Throttle.RedisIncrEx | apps/api/src/redis.ts:42-46 | Increments a counter that is still there without extending it, or starts one that expires. |
| LoginThrottle.Throttle.TryLogin | apps/api/src/services/auth.ts:130-180 | The throttling part of a login: unknown user, locked, wrong password with both counters and perhaps a lock, right password clearing counter and lock. |
| LoginThrottle.Throttle.UnlockAccount | apps/api/src/services/user.ts:320-332 | An unlock removes the lock and the counter. |
| LoginThrottle.Throttle.ProgressiveDelay | apps/api/src/services/auth.ts:49-56 | The delay grows with the address's failures and never exceeds five seconds. |
| LoginThrottle.RunsTrack | apps/api/src/services/auth.ts:142-180 | Over every run the counter in the store is the number of failed checks of the epoch, counted from what the logins were told, and the lock ends one duration after the last of them. |
| LoginThrottle.FailedChecksAreBounded | apps/api/src/services/auth.ts:142-180 | An epoch has at most maximum + ceil(window / duration) - 1 failed checks, hence at most the maximum when window and duration agree; logins of other accounts may overlap. |
| LoginThrottle.ScheduleFails | apps/api/src/services/auth.ts:142-180 | The bound is exact: for every configuration some sequential run reaches it. |
| LoginThrottle.LockedAccountsCheckNothing | apps/api/src/services/auth.ts:43-46 | Between a locking failure and the end of its lock no password of the account is checked, unless an administrator unlocks it. |
| LoginThrottle.AttemptsAreTheEpochs | apps/api/src/services/auth.ts:145-149 | The attempts a failed login reports are the failures of its epoch. |
| LoginCounters.CountersAre | apps/api/src/services/auth.ts:136-147 | Over every run, told from what the logins were told: the counter of an address is the number of wrong passwords from it since the first of its window, that of an unknown identifier the number of logins under it, and each ends one window after that first one. |
| LoginCounters.DelayIs | apps/api/src/services/auth.ts:49-56 | Over every run the delay before the next login from an address is 0 below two such failures, and (n - 1) steps but at most five seconds from two on. |
| LoginCounters.OutcomeIs | apps/api/src/services/auth.ts:134-180 | Over every run a login is told that the account is locked if and only if the lock of its last locking failure has not ended and was neither unlocked nor followed by a right password; otherwise whether the password is right. |
| TokenClient.Client.OnResponse | apps/web/src/lib/api.ts:49-56 | A 401 on a first try outside the authentication routes joins the shared refresh; everything else goes on to the body. |
| TokenClient.Client.RefreshSession | apps/web/src/lib/api.ts:71-78 | Joins the refresh under way or starts one with the current refresh token. |
| TokenClient.Client.OnRefreshResponse | apps/web/src/lib/api.ts:80-93 | A refused or failed refresh clears both tokens and ends. |
| TokenClient.Client.OnRefreshBody | apps/web/src/lib/api.ts:84-93 | The answer of a refresh replaces both tokens, or clears them, and ends it. |
| TokenClient.Client.OnRefreshed | apps/web/src/lib/api.ts:51-54 | A waiting request is sent once more after a successful refresh and goes on with its 401 otherwise. |
| TokenClient.RunsKeepInvariant | apps/web/src/lib/api.ts:9-95 | Every interleaving keeps: the shared promise is the one unsettled refresh, the current refresh token was presented by it at most, and each request's fetches match its phase. |
| TokenClient.RefreshIsSingleFlight | apps/web/src/lib/api.ts:35-95 | At most one refresh is under way, no refresh token is presented twice, a request sends at most two fetches, and a waiting request waits for the refresh under way or for a settled one. |
| TokenClient.RefreshesAreFewerThanRequests | apps/web/src/lib/api.ts:51-73 | Each request starts at most one refresh. |
| TokenClient.SigningOutSticksIff | apps/web/src/lib/api.ts:71-95 | Signed out, the client stays so until the next sign-in, whatever happens, if and only if no refresh was under way. |
| TokenClientRuns.TokensAre | apps/web/src/lib/api.ts:13-16 | After every interleaving both tokens are those of the last sign-in or answered refresh, or none after a refresh that was refused, failed or brought none. |
| TokenClientRuns.FlightsAre | apps/web/src/lib/api.ts:71-95 | After every interleaving each refresh presents the token there was when a request started it, and has succeeded if and only if its answer was ok and its body brought tokens. |
| TokenClientRuns.RequestsAre | apps/web/src/lib/api.ts:49-69 | After every interleaving each request is where its own events put it: sent once more exactly after a refresh that succeeded, ended as its last body says. |
| PasswordHistory.PasswordStore.IsPasswordReused | apps/api/src/services/user.ts:404-414 | The loop over the ten newest hashes answers whether one of them verifies the password. |
| PasswordHistory.PasswordStore.UpdatePassword | apps/api/src/services/user.ts:368-386 | The new hash is stored and remembered, and only the ten newest entries are kept. |
| PasswordHistory.PasswordStore.ChangePassword | apps/api/src/services/auth.ts:429-433 | A guarded change happens exactly when the earlier checks pass and the password is not a recent one. |
| PasswordHistory.HistoryIsWindow | apps/api/src/services/user.ts:368-386 | Over every run the history is the last min(n, 10) passwords that were set, newest first. |
| PasswordHistory.ReusedIffInWindow | apps/api/src/services/user.ts:404-414 | A password is refused if and only if it is among the last ten that were set. |
| PasswordHistory.OlderPasswordsAreForgotten | apps/api/src/services/user.ts:404-414 | No longer window: after any run an allowed change to a password that is not among the last ten set is accepted. |
| PasswordHistory.ElevenInARowAreDistinct | apps/api/src/services/auth.ts:549-552 | Over every run of guarded changes any eleven consecutive passwords are pairwise distinct. |
| PasswordHistory.MadeWereAllowed | apps/api/src/services/auth.ts:429-433 | Only changes that passed the checks before the history are made; one that did not leaves hash and history alone. |
| PasswordHistory.FirstPasswordCanBeReused | apps/api/src/services/user.ts:84-85 | The password an account is created with is not in the history: it can be set again at once. |
| UserNumbers.NumberReadsBack | apps/api/src/services/user.ts:48-57 | Reading the trailing digits of a printed number gives its sequence and prefix back, beyond six digits as well. |
| UserNumbers.CreateUserKeepsTable | apps/api/src/services/user.ts:84-103 | A creation never meets a duplicate number; it fails for its number if and only if the sequence of its type no longer fits four bytes. |
| UserCreations.PrintedNumber | apps/api/src/services/user.ts:35-56 | The printed number of each of the five types: its prefix, a dash, and the sequence with at least six digits. |
| UserCreations.CreationIs | apps/api/src/services/user.ts:48-103 | A creation appends one live user whose number carries one more than the largest sequence of the type, deleted users included; out of numbers if and only if that exceeds four bytes, refused otherwise if and only if somebody holds the phone. |
| UserCreations.SoftDeleteIs | apps/api/src/services/user.ts:457-463 | A deletion marks that user, keeps all numbers and phones, and does not change which number comes next. |
| UserTable.Users.FindNextNumber | apps/api/src/services/user.ts:48-57 | The maximum of the trailing sequences of the type, plus one, printed; none when it does not fit. |
| UserTable.Users.InsertOneBatch | apps/api/src/services/demo-generator.ts:161-200 | One upsert statement: each demo user inserted or updated and counted, or nothing at all. |
| UserTable.Users.ProcessDemoGeneration | apps/api/src/services/demo-generator.ts:130-146 | The batch loop computes the job function: rows, counts, and whether it failed. |
| UserTable.Phones | apps/api/src/services/demo-generator.ts:266-270 | The builder loop makes one phone per demo user of the batch. |
| DemoGenerator.BatchesActAsOne | apps/api/src/services/demo-generator.ts:133-143 | The batches succeed together if and only if one statement over 1 .. requested would, and leave the same table and counts. |
| DemoGenerator.JobConserves | apps/api/src/services/demo-generator.ts:133-200 | A successful job: inserted + updated = requested, inserted is the number of demo users that were missing, each demo user has its own phone, everybody else the phone they had. |
| DemoGenerator.PhonesDistinctIff | apps/api/src/services/demo-generator.ts:266-270 | The phones of 1 .. n are pairwise distinct if and only if n is at most a hundred million. |
| DemoGenerator.JobSucceedsIff | apps/api/src/services/demo-generator.ts:172-200 | A job succeeds if and only if it asks for at most a hundred million users and nobody but earlier demo users holds one of their phones. |
| DemoJobs.DemoUserIs | apps/api/src/services/demo-generator.ts:161-270 | After a successful job demo user j has the number "DJY-DEMO-" and j with at least six digits, and below a hundred million the phone "+91" and 9900000000 + j; rows that were there change in the phone at most, new ones are live employees. |
| DemoJobs.FailedJobKeepsBatches | apps/api/src/services/demo-generator.ts:130-157 | A failed job has stored, and counted once each, exactly the demo users before the first that cannot be stored, rounded down to a multiple of five hundred. |
| DemoGenerator.NumbersStayDistinct | apps/api/src/services/user.ts:48-103 | Over every run of creations, soft deletions, phone changes and generations, numbers and phones stay unique and no number is handed out twice. |
| Webhooks.Dispatcher.DispatchEvent | apps/api/src/services/webhook.ts:224-323 | The loop over the selected endpoints: claim, POST, record. |
| Webhooks.Dispatcher.Record | apps/api/src/services/webhook.ts:270-319 | The delivery row, the endpoint's failure count and the retry note after an answer. |
| Webhooks.AtMostOnePost | apps/api/src/db/migrations/005_event_bus.sql:25-27 | Over every interleaving of dispatches, replays and endpoint changes an endpoint gets at most one POST per event. |
| Webhooks.PostsAreSelected | apps/api/src/services/webhook.ts:209-224 | Every POST goes to an endpoint that was active and subscribed when some dispatch of that event began. |
| Webhooks.FinishedDispatchHasPosted | apps/api/src/services/webhook.ts:224-248 | Once a dispatch is done, each endpoint it selected that still exists has had its POST. |
| Webhooks.FailureCountIsStreak | apps/api/src/services/webhook.ts:283-316 | The failure count is the number of failed answers since the endpoint's last success. |
| Webhooks.DeliveriesAreAttemptedOnce | apps/api/src/services/webhook.ts:329-343 | A delivery is attempted at most once; a failure notes when to retry exactly when retries are allowed and is dead otherwise, but the retry is never made. |
| Webhooks.AloneIsARun | apps/api/src/services/webhook.ts:203-324 | The dispatch loop is one of the interleaved runs. |
| WebhookRuns.RowsAre | apps/api/src/services/webhook.ts:240-342 | After every interleaving a delivery row is what its claim and its answer make it: pending, success after one attempt, or failed with a retry noted one delay later, or dead where no retry is allowed; gone with its endpoint. |
| WebhookRuns.SettingsAre | apps/api/src/services/webhook.ts:105-158 | After every interleaving an endpoint has the settings of its creation or last update. |
| WebhookRuns.PostsGoToSubscribers | apps/api/src/services/webhook.ts:209-224 | Every POST goes to an endpoint whose settings, told from the actions, were active and subscribed when a dispatch of that event began. |
| WebhookRuns.DispatchesSelectAll | apps/api/src/services/webhook.ts:209-218 | A dispatch selects every endpoint that is then active and subscribed, once, and no other. |
| WebhookRuns.FailuresAre | apps/api/src/services/webhook.ts:283-316 | The failure count is the number of failed answers, told from the actions, since the last successful one. |
| WebhookPayload.VerifySignature | apps/api/src/services/webhook.ts:390-399 | The bitwise comparison accepts exactly the expected signature. |
| WebhookPayload.SanitizePayload | apps/api/src/services/webhook.ts:405-432 | Exactly the blocked keys are left out, at the top level. |
| Roles.RoleService.RemoveRoleFromUser | apps/api/src/services/rbac.ts:202-210 | Removes a grant; refused for an unknown role and for SUPER_ADMIN while at most one grant of it exists. |
| Roles.RoleService.SetUserRolesOf | apps/api/src/services/user.ts:418-432 | Removals, then additions, one call each, ending at the first that throws. |
| Roles.RoleService.GetPermissionsForUser | apps/api/src/services/rbac.ts:24-46 | The permissions of the user's roles, and the whole catalog for a Super Admin, added one by one. |
| Roles.RoleService.AddRole | apps/api/src/services/rbac.ts:131-146 | A role whose permissions are refused has been stored already, without any. |
| Roles.RoleService.DropRoleByName | apps/api/src/services/rbac.ts:164-171 | A role is deleted only if it is not a system role and nobody has it. |
| Roles.RoleService.BootstrapSuperAdmin | apps/api/src/services/bootstrap.ts:29-72 | Refused once anybody holds SUPER_ADMIN. |
| Roles.SomebodyStaysSuperAdmin | apps/api/src/services/rbac.ts:148-218 | Once somebody holds SUPER_ADMIN somebody does after every run, partially failing role changes, role edits and deletions and user deletions included, and the bootstrap stays closed. |
| Roles.SetUserRolesLeaves | apps/api/src/services/user.ts:418-432 | A completed change leaves exactly the requested roles; one that threw only some of its own removals or additions; nobody else's roles change. |
| Roles.SetUserRolesSucceedsIff | apps/api/src/services/user.ts:418-432 | A change completes if and only if the user exists, every requested role exists, and it does not take the role from the last holder. |
| Roles.DeletionKeepsLiveHolderIff | apps/api/src/services/user.ts:457-463 | Deleting a user keeps a Super Admin who is not deleted if and only if there is another one: nothing guards it. |
| Roles.RemovalKeepsLiveHolderIff | apps/api/src/services/rbac.ts:206-218 | Taking the role from a live holder keeps a live one if and only if there is another or the removal is refused; deleted holders are counted. |
| Roles.LiveSuperAdminsCanRunOut | apps/api/src/services/rbac.ts:212-218 | A concrete store in which the only live Super Admin loses the role and the bootstrap stays closed. |
| Roles.EnforcementAgrees | apps/api/src/services/rbac.ts:73-83 | A permission of the catalog is enforced for a user if and only if it is in the reported set. |
| RoleLaws.EditReplacesPermissions | apps/api/src/services/rbac.ts:148-185 | An edit replaces the permissions of a role by those requested ones the catalog has; it is refused, changing nothing, if and only if the role is unknown or a system role or "*" is requested. |
| RoleLaws.CreationStoresRole | apps/api/src/services/rbac.ts:131-146 | A new role holds the requested permissions of the catalog; one that requests "*" is stored without any before the error. |
| RoleLaws.DropIff | apps/api/src/services/rbac.ts:164-171 | A role is dropped if and only if it exists, is no system role, and nobody, deleted or not, holds it. |
| RoleLaws.SystemRolesStay | apps/api/src/services/rbac.ts:148-171 | Over every run a system role stays, with the permissions it has. |
| RoleLaws.NewUserHasRoles | apps/api/src/services/user.ts:84-103 | A new user has exactly the given roles, or is not created when one of them does not exist. |
| RoleLaws.FirstRunIff | apps/api/src/services/bootstrap.ts:29-72 | The bootstrap goes through if and only if nobody holds SUPER_ADMIN and its other checks pass, and then its user is the one live Super Admin. |
| RoleLaws.NoRoleNoPermission | apps/api/src/services/rbac.ts:24-83 | A user without a role has no permission and passes no check. |
| RoleLaws.GrantAddsPermissions | apps/api/src/services/rbac.ts:187-200 | A grant adds exactly the permissions of the role, with SUPER_ADMIN the catalog and every check, for that user and nobody else. |
| TotpCodes.GenerateTotpSecret | apps/api/src/services/totp.ts:10-20 | The encoding loop computes the Base32 text of the bytes. |
| TotpCodes.Base32Decode | apps/api/src/services/totp.ts:22-35 | The decoding loops compute the bytes, or fail for a character outside the alphabet. |
| Base32.DecodeOfEncode | apps/api/src/services/totp.ts:10-35 | Decoding an encoding returns it, for byte sequences of every length (section 6 of RFC 4648). |
| Base32.EncodeOfDecodeIff | apps/api/src/services/totp.ts:10-35 | Encoding a decoding returns the text if and only if the bits that fill no byte are fewer than five and all zero. |
| Base32.EncodeOfDecode | apps/api/src/services/totp.ts:10-35 | In particular for every text over the alphabet whose length is divisible by eight. |
| TotpCodes.CodeIsDigits | apps/api/src/services/totp.ts:41-54 | A code has exactly the asked number of decimal digits. |
| TotpCodes.VerifyTotp | apps/api/src/services/totp.ts:57-63 | Accepts exactly a code of one of the counters in the window, and fails exactly when a counter without a code comes before a match. |
| TotpCodes.CodesAreAcceptedWithinDrift | apps/api/src/services/totp.ts:37-63 | A code shown at one time is accepted at every time at most window periods away. |
| TotpCodes.GeneratedSecretsWork | apps/api/src/services/totp.ts:10-54 | Every generated secret has a code for every counter. |
| TotpValues.EncodeIsBase32 | apps/api/src/services/totp.ts:10-20 | The text of a secret is its bytes as one number in base 32, with as few letters as hold all bits, filled up with zero bits (section 6 of RFC 4648). |
| TotpValues.TruncateIs | apps/api/src/services/totp.ts:47-52 | The truncated hash is the four bytes that the low half of the last byte points at, as one number without its top bit. |
| TotpValues.CodeIs | apps/api/src/services/totp.ts:41-54 | A code exists if and only if the secret decodes and the counter fits eight bytes, and reads back as that number modulo 10 to the number of digits (section 5.3 of RFC 4226). |
| TotpValues.Rfc4226Example | apps/api/src/services/totp.ts:47-53 | The worked example of section 5.4 of RFC 4226. |
| TotpValues.CounterIs | apps/api/src/services/totp.ts:37-39 | Counter c stands for exactly the times from c periods on and before c + 1 of them. |
| TotpValues.CodesExpire | apps/api/src/services/totp.ts:57-63 | More than the window away, in either direction, the counter of a code is not looked at. |
| Text.TrimIs | apps/api/src/services/zoho-sync.ts:916-916 | Trimming leaves the one middle part that neither begins nor ends with a space, and loses spaces only. |

## Left out

- HTTP routes, request schemas, mail, notifications, the audit and security-event tables: written, never read by the rest.
- Hashes, signatures, upper and lower casing, date texts, the manager lookup and the role text: uninterpreted functions of
  the environment; password hashing is assumed to verify exactly the password that was hashed.
- Time stamps such as last_active_at and the updated_at of other tables than users, except where a property needs them
  (expiries, idle expiry, the clock of the limiter and of the counters). All statements of one pull read the same time.
- The sync job: its rows, its lock, its retries, the column headers it adds, and reads of the sheet that fail before any write.
- A failed Zoho call is assumed to have had no effect, and a retried one to have had it once; a call that succeeded on the
  other side before failing on this side could append twice.
- The record index of a sheet row is its position, and an update outside the sheet changes nothing; what deleting rows does to
  the sheet is an uninterpreted function, so push claims about the sheet are for the policies mark and keep.
- The manager of a profile is stored as the e-mail that was looked up, not as a reference that later changes of the e-mail
  would follow.
- Retry-After values are whole milliseconds, and timers are assumed not to fire early.
- ZohoSpacing.CallKeepsWaits: stated for calls whose waits fit a timer, because others are cut short (RetriesKeepIff gives the
  exact condition).
- ZohoSpacing.FetchesAreSpaced: stated for runs whose waits fit a timer, because one that does not breaks the spacing
  (FetchesAreSpacedIff gives the exact condition).
- ZohoConflicts.ResolutionSticks: stated for runs that acknowledge no other value for the cell, because an older conflict about
  it can do so (ResolutionSticksIff gives the exact condition).
- ZohoPushLaws.PushIsKeyedUpsert: that only unmixed slices give an upsert is stated with the User ID pushed, because without
  it the records of two users may be equal.
- User numbers are taken to carry no surrounding space, as generated ones do, where a claim says whose row a row is.
- ZohoThrownPull.RetryIsCleanIff: about pulls that throw on a phone number; one that throws on two records of a user throws
  again on the same sheet.
- SessionInterleaving.RevocationIsFinal: a refresh, and the first statement of a reuse it detects, is one step; two rotations of
  the same token at once are not modelled, as the code takes no row lock there.
- LoginThrottle.FailedChecksAreBounded: for logins of one account that follow each other; concurrent ones may pass the lock
  check together.
- The account state that a lockout sets, which no later login looks at, and the tables of login attempts.
- Random identifiers and server tokens do not repeat; a family identifier, which no constraint protects, least of all.
- Redis losing a key early, or stopping between INCR and EXPIRE, and database errors inside a webhook dispatch.
- DemoGenerator.JobSucceedsIff: phones are the one uniqueness that can stop a job here; e-mails, usernames and employee numbers
  held by other users, and the profile statements after the upsert, could stop it too.
- The e-mail and username uniqueness of users, the fields of a user that no property mentions, and the profile, employee and
  role rows a demo batch writes after its users.
- A payload key "__proto__", which a JavaScript object would not store, and secrets nested below the top level of a payload.
- OAuth codes, JWT keys, WebAuthn, mail verification, list and statistics queries, migrations: short guards or single reads.
- The keyed hash of a one-time code is any function that returns twenty bytes; the four code bytes are joined by arithmetic
  instead of shifts.
