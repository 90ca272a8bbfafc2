# Verified models of tierflow

tierflow is a gateway that forwards requests for language models to upstream channels. This project
models the parts of it that hold real algorithms or protocols and proves what they are for. Each
module follows one or two source files: code that updates state in place is a class or a method
with loops, proved against a specification; the properties are lemmas about the specification.

| module | what it models |
|---|---|
| `OrderLock`, `OrderLockTable` | the reference-counted lock per order number, as atomic statements of any number of threads and as it is written on the heap |
| `TopUpCredit` | payment notifications, manual completion and refunds under that lock, with failing database calls |
| `ChannelSelect`, `GroupSelect`, `RelayLoop`, `RelayProperties` | choice of channels, group members, keys and token groups; the failover loop of one request and what it guarantees |
| `DiskCache`, `BodyStorage`, `RequestBodies` | the two body stores as one abstract store; the life of request bodies and the usage counters |
| `RateLimit` | the in-memory rate limiter against one that keeps every acceptance |
| `Separated`, `ModelNames`, `UpstreamUpdate`, `ChannelScan`, `ScanReport` | lists stored as text, name lists, reconciliation of models with an upstream, the scan over all channels |
| `SnapshotDownload`, `SnapshotCalls`, `SnapshotRuns`, `SnapshotSolo` | one resumable download from an unreliable server; many of them, system call by system call, with crashes and restarts |
| `KeyListing`, `KeyText`, `MultiKey`, `MultiKeyProperties`, `MultiKeyEffects` | the keys of a multi-key channel, how they are stored, the actions on them and what these mean |
| `OpusScan` | the duration of Opus files |
| `ModelMeta` | the batched enrichment of the model list |
| `HashCodec` | objects in hashes of texts |
| `Basics` | types several modules share |

Check everything with `dafny verify dfyconfig.toml`.

## Main results

- `OrderLock.MutualExclusion`, `NoDeadlock`, `EverybodyReturns`: the order lock, in every interleaving.
- `TopUpCredit.CreditedAtMostOnce`: one credit for an order, and the balance equation, over every run.
- `RelayLoop.Relay` with `RelayProperties.FollowedOnlyIf`, `StopsBecause`, `NoKeyTwice`, `AttemptsBounded`, `BudgetHoldsIff`,
  `NeverDrawnAgainIff`: the failover loop, its refund, and its bounds.
- `BodyStorage.StoresAgreeIff`, `RewindDeliversAll`, `RequestBodies.BodyCache.NothingLeft`: one abstract
  store, exact counters.
- `RateLimit.InMemoryRateLimiter.Request`, `SweepIsHarmlessIff`: the bounded queue and the full log.
- `UpstreamUpdate.DetectApplyDetect`, `ChannelScan.Scan`: reconciliation converges, the scan misses nothing.
- `SnapshotDownload.Download.DownloadOne`, `CompletesInTime`, `SnapshotRuns.ContentsRightIff`: one download, and which
  listings are safe to download in every interleaving.
- `MultiKeyProperties.StepShowsIff`, `RunShows`, `ManualUntilEnabled`, `RunKeepsInRange`, `AppendKeepsIff`,
  `MultiKeyEffects.AppendEffect`: the stored keys.
- `OpusScan.ScanFindsPages`, `ModelMeta.EnrichModels`, `HashCodec.WriteThenRead`.

## Where the code does less than its comments or callers expect

These came out of the proofs; each is a lemma or a contract with the exact condition.

- A fresh pick can return an abandoned channel: the selector relaxes when the whole tier was given
  up on (`RelayProperties.ReselectsOnlyWhenAllAbandoned`, `NeverDrawnAgainIff`).
- A token of the "auto" group starts the retry counter again in every group, so that a request may
  use the retry budget once for each group (`RelayProperties.AttemptsBounded`); a single budget
  holds for all requests only without retries, without a second group, or under a ceiling that is
  no higher (`BudgetHoldsIff`). With cross-group retry the groups are left by the counter; without
  it a group is left only when it has no channel to offer, so that a request over the budget needs
  the channels of a group to vanish while it runs, because the selector clamps the priority to the
  lowest one there is. The counter then is not the number of abandonments
  (`RetryCountsAbandonmentsIff`).
- A refund takes quota that was never granted when the credit had failed before, and the tables do
  not tell (`TopUpCredit.ClawbackOfUngranted`, `CreditNotInTables`).
- The two body stores differ in one point: an empty read at the end (`BodyStorage.StoresAgreeIff`).
- The rate limiter, if it sweeps at all, needs entries to be kept for the window less one second
  (`RateLimit.SweepIsHarmlessIff`); a limit of zero lets one request through per window.
- The downloader renames a missing file when nothing is expected, and raises its "unreachable" error
  when the last attempt was a reset (`SnapshotDownload.FileNotFoundIff`, `UnreachableIff`).
- When one file is named like the `.part` file of another, downloads at the same time can leave a
  file of the right size with wrong content, which counts as downloaded from then on. Exactly the
  listings are safe in which a file whose `.part` file could be mistaken for another has at most one
  byte, and no two files of one byte are in one chain of such names (`SnapshotRuns.ContentsRightIff`).
  A longer file of that name does harm as well (`OffsetRace`, `LongerNameRaces`), and so does an
  empty file between two of one byte (`EmptyFileBetween`).
- Deleting keys shifts statuses to other keys when a blank line becomes the first or last line, and
  deleting all automatically disabled keys when no other key is left deletes none and enables all,
  because an empty key text is not stored (`MultiKeyProperties.StepShowsIff`, `BlankLineEnables`,
  `SweepOfAllEnables`). Disable times and reasons can stay behind under indices beyond the last key,
  where a key added later finds them, because only statuses are cleaned (`DeletionInRangeIff`,
  `BlankLineLeavesTime`).
- Appending new keys to a text that begins like an array but is none drops the existing keys, unless
  the input repeats them (`MultiKeyProperties.AppendKeepsIff`, `LookAlikeDrops`).
- Objects read back from a hash lose pointers to empty texts (`HashCodec.RestoredIff`).

## Model

| member | source | states |
|---|---|---|
| `OrderLock.MutualExclusion` | tierflow-core-main/controller/topup.go:199-229 | In every interleaving of any number of `LockOrder`/`UnlockOrder` calls: at most one thread in the section of an order number, two threads refer to the same mutex object iff they work on the same number, `refCount` equals the number of threads between their increment and decrement, an unlocking thread finds the mutex it locked, no unlock of a free mutex |
| `OrderLock.UnlockFindsLocked` | tierflow-core-main/controller/topup.go:215-220 | In every state of the invariant the lookup outside `createLock` succeeds and yields the locked object |
| `OrderLock.StepInv` | tierflow-core-main/controller/topup.go:199-229 | Each statement of either function, with `refCount++` and `refCount--` split into read and write, keeps the invariant |
| `OrderLock.EntryIffReferenced` | tierflow-core-main/controller/topup.go:203-226 | An order number has an entry iff some thread refers to its object |
| `OrderLock.QuiescentIsEmpty` | tierflow-core-main/controller/topup.go:222-226 | With every thread outside, the map is empty, `createLock` is free and all mutexes are free with count zero |
| `OrderLock.NoDeadlock` | tierflow-core-main/controller/topup.go:199-229 | While some thread has not returned, some thread can execute its next statement |
| `OrderLock.EverybodyReturns` | tierflow-core-main/controller/topup.go:199-229 | Without new calls every schedule is finite, and one that cannot go on has let everybody return and emptied the map |
| `OrderLock.EntersBeforeLeaving` | tierflow-core-main/controller/topup.go:199-229 | A call gives the section of its order number before it returns: entering leads only to the section, and out only from it |
| `OrderLockTable.OrderLocks.LockOrder` | tierflow-core-main/controller/topup.go:199-213 | The uncontended call on the heap of mutex objects: creates or reuses the entry, counts, locks; other entries unchanged |
| `OrderLockTable.OrderLocks.UnlockOrder` | tierflow-core-main/controller/topup.go:215-229 | Unlocks, counts down and deletes the entry exactly at zero; an unknown number changes nothing |
| `OrderLockTable.OrderLocks.Section` | tierflow-core-main/controller/topup.go:295-296 | Lock and deferred unlock leave the map, all flags and all counts as they were |
| `TopUpCredit.CreditedAtMostOnce` | tierflow-core-main/controller/topup.go:294-329 | For every run of concurrent and repeated notifications, completions and refunds with failing database calls: each order is credited at most once with `amount * quotaPerUnit` to its user, clawed back at most once, and every balance is its start value plus the credits minus the clawbacks |
| `TopUpCredit.EveryPaidOrderIsSettled` | tierflow-core-main/controller/topup.go:306-329 | When all jobs are done, a paid or refunded order was credited, or its credit failed after it was marked paid, or it was settled before the run, and never both of the first two |
| `TopUpCredit.ClawbackOfUngranted` | tierflow-core-main/model/topup.go:386-456 | A refund takes back quota that was never granted exactly when the credit had failed or the order predates the run |
| `TopUpCredit.CreditNotInTables` | tierflow-core-main/model/topup.go:386-456 | Whether an order was credited cannot be read from the tables: two histories leave the same tables, before and after a refund, and differ in it |
| `TopUpCredit.RefundTakesUngranted` | tierflow-core-main/model/topup.go:386-456 | It happens: order marked paid, granting fails, the refund takes the amount from what the user had before |
| `TopUpCredit.BodyInv` | tierflow-core-main/controller/topup.go:297-329 | Each database call made inside the section keeps the ledger invariant, whatever the other threads have done meanwhile |
| `TopUpCredit.NotifyInSteps` | tierflow-core-main/controller/topup.go:297-329 | The three interleavable database steps, run back to back, are one notification |
| `TopUpCredit.CompletionIs` | tierflow-core-main/model/topup.go:282-356 | Exactly which orders an administrator can complete, and the tables afterwards |
| `TopUpCredit.RefundIs` | tierflow-core-main/model/topup.go:386-456 | Exactly which orders can be refunded; the balance afterwards is what was there less what was granted, but not less than zero |
| `TopUpCredit.StrandsOnlyOnFailure` | tierflow-core-main/controller/topup.go:297-329 | A step leaves a paid order without credit only if an update was reported as failed, the user is unknown, or the amount is negative |
| `TopUpCredit.Store.EpayNotify` | tierflow-core-main/controller/topup.go:294-329 | The callback on the tables in place: quota is granted exactly when the order is payable and both updates went through; anything else changes no quota |
| `ChannelSelect.FilterSelectable` | tierflow-core-main/model/channel_cache.go:204-229 | The three-level filter computes the selectable channels in order |
| `ChannelSelect.SelectableRelaxes` | tierflow-core-main/model/channel_cache.go:200-229 | What it leaves contains an excluded channel iff all channels are excluded, and a cooling one only if nothing better is left |
| `ChannelSelect.SelectableIs` | tierflow-core-main/model/channel_cache.go:204-229 | Exactly which channels are offered, each as often as it is in the tier: those neither given up on nor cooling down, else those not given up on, else all |
| `ChannelSelect.WeightedPick` | tierflow-core-main/model/channel_cache.go:233-275 | Every draw falls into the share of the channel that is picked; the search never fails |
| `ChannelSelect.OneShare` | tierflow-core-main/model/channel_cache.go:266-272 | No draw falls into two shares |
| `ChannelSelect.SharesProportional` | tierflow-core-main/model/channel_cache.go:233-262 | Shares are in proportion to the weights, equal if all are zero |
| `ChannelSelect.GroupPickPrefers` | tierflow-core-main/model/model_group.go:373-392 | An excluded member is picked iff all are excluded, and then the first; a cooling one only if all others are excluded or cool down; of the best kind the first |
| `ChannelSelect.HasUntriedEnabledKey` | tierflow-core-main/model/channel.go:323-344 | Answers whether some key is enabled and not yet tried |
| `ChannelSelect.NextEnabledKeyExcluding` | tierflow-core-main/model/channel.go:211-316 | Fails exactly when no enabled key is untried, else picks such a key, a cooling one only if all of them cool down; polling takes the first suitable key from the saved position on, cyclically; the random mode any suitable key, other modes the first |
| `RelayLoop.Relay` | tierflow-core-main/controller/relay.go:172-299 | The loop makes exactly the attempts that follow one another under the rotation, abandonment and selection rules, stops for one of the six reasons, stays under the ceiling, and refunds iff quota was billed, no attempt succeeded and `RetryTimes >= 0` |
| `RelayLoop.Turn` | tierflow-core-main/controller/relay.go:204-299 | One pass of the loop: the next attempt under the rules, or the reason to stop; variables and books follow from the attempts made |
| `RelayProperties.FollowedOnlyIf` | tierflow-core-main/controller/relay.go:262-299 | An attempt that is followed by another failed below the ceiling; another key of the channel is tried iff rotation is on, the channel has several keys and an untried one, rotations are left, and the status is key-scoped and not marked to be skipped; otherwise the error is a channel error, or one not marked, with retries left, no pinned channel, no 2xx status, and a retryable status if it is a valid one |
| `RelayProperties.StopsBecause` | tierflow-core-main/controller/relay.go:262-299 | The converse for every exit: refused iff neither holds, answered iff the upstream answered, body failed iff the body could not be read, and which limit was reached |
| `RelayProperties.NextStarts` | tierflow-core-main/controller/relay.go:202-219 | What the next attempt starts from: a rotation keeps channel, model and counter; otherwise the channel is given up on, the counter goes up unless the selector started it again, and the model changes only to that of a group member |
| `RelayProperties.SelectionFails` | tierflow-core-main/controller/relay.go:423-465 | When no channel could be had, the sticky channel has no key, or no channel that could be drawn has one |
| `RelayProperties.UsedAreAbandonedOrSticky` | tierflow-core-main/controller/relay.go:202-218 | At every loop head the used channels are exactly the abandoned ones and the sticky one; attempts equal abandonments plus rotations |
| `RelayProperties.NoKeyTwice` | tierflow-core-main/controller/relay.go:234-237 | No key of a multi-key channel is tried twice in a request |
| `RelayProperties.GroupRetryFollowsMembers` | tierflow-core-main/controller/relay.go:344-371 | A fresh retry of a model-group request runs on a member's channel under that member's model name, going back to an abandoned member iff all members are |
| `RelayProperties.ReselectsOnlyWhenAllAbandoned` | tierflow-core-main/controller/relay.go:210-219 | A fresh pick takes an abandoned channel iff the whole selected tier was abandoned |
| `RelayProperties.NeverDrawnAgainIff` | tierflow-core-main/controller/relay.go:294-299 | No request ever draws an abandoned channel again iff there are no retries, the ceiling is one attempt, or there is no group to ask; otherwise a one-channel request does |
| `RelayProperties.RotationsCapped` | tierflow-core-main/controller/relay.go:276-290 | The rotations of a channel stay within the configured number |
| `GroupSelect.SelectChannel` | tierflow-core-main/service/channel_select.go:125-204 | The group loop, with its restarts of the retry counter, computes the stated choice |
| `GroupSelect.ChooseTakesFirst` | tierflow-core-main/service/channel_select.go:125-204 | The first group from the current one on that has a channel to offer, later ones asked with a fresh counter; the request stays with it unless it may change groups and has used up the retries in this one |
| `GroupSelect.ChooseClimbs` | tierflow-core-main/service/channel_select.go:148-196 | A selection moves to a later group iff it starts the counter again, and always comes closer to the end of the groups |
| `RelayProperties.RetryCountsAbandonmentsIff` | tierflow-core-main/controller/relay.go:202-217 | The retry counter never exceeds the number of abandonments and equals it iff the request is still in the group it began with |
| `RelayProperties.AttemptsBounded` | tierflow-core-main/controller/relay.go:197-207 | For every token: attempts within `maxTotalAttempts`, and within `(RetryTimes+1) * (rotations per channel + 1)` once for each group the request may go through |
| `RelayProperties.BudgetHoldsIff` | tierflow-core-main/controller/relay.go:197-207 | All requests keep within that budget once iff there are no retries, no second group, or a ceiling that is no higher |
| `RelayProperties.BudgetExceeded` | tierflow-core-main/service/channel_select.go:161-189 | Otherwise some request makes exactly one attempt more than the budget |
| `RelayProperties.SucceededIffAnswered` | tierflow-core-main/controller/relay.go:172-181 | The one exit without a refund is taken iff some attempt was answered |
| `RelayLoop.GetChannel` | tierflow-core-main/controller/relay.go:423-465 | One selection: distributed channel first, sticky channel during a rotation, else a draw from the filtered tier; failure iff no channel or key is to be had |
| `BodyStorage.StoresAgreeIff` | tierflow-core-main/common/body_storage.go:37-238 | For every sequence of reads, seeks, `Bytes`, `Size` and `Close` both stores show the same, iff no empty read happens at or past the end of the open store |
| `BodyStorage.SeeksLead` | tierflow-core-main/common/body_storage.go:56-63 | For both stores: what is read after a seek is the content from the start moved by the offset, from what would have been read next, or from the end; a negative position changes nothing |
| `BodyStorage.RewindDeliversAll` | tierflow-core-main/common/body_storage.go:56-63 | After any operations on an open store, of either kind, rewinding and reading to the end delivers the whole content |
| `BodyStorage.WhatIsSeen` | tierflow-core-main/common/body_storage.go:47-238 | Reads deliver as much as is asked for and there, and report the end only behind it; `Bytes` the whole content; a closed store refuses all but its size |
| `BodyStorage.ReadsDeliverInOrder` | tierflow-core-main/common/body_storage.go:47-54 | Reading on delivers the bytes from the cursor to where it ends up once and in order; who has seen the end has seen all |
| `BodyStorage.ReadAllIsTransparent` | tierflow-core-main/common/body_storage.go:198-230 | `Bytes` between any operations changes what none of the others sees |
| `BodyStorage.MemoryStorage.Close` | tierflow-core-main/common/body_storage.go:65-72 | Likewise; the counters go down at the first close only |
| `BodyStorage.DiskStorage.ReadAll` | tierflow-core-main/common/body_storage.go:198-230 | Rewind, read, go back: whole content, cursor where it was |
| `BodyStorage.DiskStorage.Close` | tierflow-core-main/common/body_storage.go:187-196 | Removes the file; the counters go down at the first close only |
| `RequestBodies.BodyCache.GetRequestBody` | tierflow-core-main/common/gin.go:37-85 | Yields the cached storage, else stores the older cached bytes, else reads the connection once and caches it whole; a failure changes neither counters nor context; counters keep equal to number and size of open storages, each owned by one request |
| `RequestBodies.BodyCache.OverwriteRequestBody` | tierflow-core-main/common/gin.go:161-181 | The request owns a new storage with the new bytes, its old one is closed; counters and ownership are kept |
| `RequestBodies.BodyCache.CleanupBodyStorage` | tierflow-core-main/common/gin.go:100-107 | Closes the storage of this request and no other; afterwards the request contributes nothing |
| `RequestBodies.BodyCache.CreateBodyStorage` | tierflow-core-main/common/body_storage.go:241-260 | A body goes to disk iff enabled, large enough, within the limit and the disk works; the limit is not exceeded |
| `RequestBodies.BodyCache.CreateFromReader` | tierflow-core-main/common/body_storage.go:262-303 | A stream is stored whole or not at all, is refused when longer than the limit, leaves nothing behind on failure, and counts one hit on success |
| `RequestBodies.BodyCache.NothingLeft` | tierflow-core-main/common/disk_cache_config.go:109-134 | Once every request was cleaned up all four counters are zero |
| `RateLimit.InMemoryRateLimiter.Request` | tierflow-core-main/common/rate-limit.go:45-70 | Accepts exactly when fewer acceptances than `maxRequestNum` (one, if that is zero) are younger than `duration`, as the limiter that keeps every accepted timestamp would |
| `RateLimit.InMemoryRateLimiter.Sweep` | tierflow-core-main/common/rate-limit.go:28-43 | Drops exactly the keys idle for longer than the expiration; no later decision changes |
| `RateLimit.InMemoryRateLimiter.EveryWindowIsBounded` | tierflow-core-main/common/rate-limit.go:45-70 | At all times every window of a key's length holds at most `maxRequestNum` acceptances (one, if that is zero) |
| `RateLimit.QueueDecides` | tierflow-core-main/common/rate-limit.go:45-70 | The bounded queue decides like the full log whose tail it is |
| `RateLimit.WindowsAreBounded` | tierflow-core-main/common/rate-limit.go:45-70 | Any log the full limiter could write has at most `max` acceptances in any window (one, if that is zero) |
| `RateLimit.ForgottenTooEarly` | tierflow-core-main/common/constants.go:189-190 | With a shorter expiration a concrete history gets one acceptance too many |
| `RateLimit.SweepIsHarmlessIff` | tierflow-core-main/common/rate-limit.go:14-43 | Both limiters answer all histories that can happen alike iff nothing is ever swept (no positive expiration) or `duration <= expiration + 1` seconds |
| `Separated.ReadsBackIff` | tierflow-core-main/model/channel.go:196-197 | A list joined by a separator, stripped and split again comes back iff no part holds the separator and the first and last part are not blank |
| `ModelNames.NormalizeIsNormalized` | tierflow-core-main/controller/channel_upstream_update.go:97-102 | Normalized lists are distinct, trimmed and without empty names, and hold exactly the trimmed non-empty names |
| `ModelNames.NormalizeOrder` | tierflow-core-main/controller/channel_upstream_update.go:97-102 | They stand in order of their first occurrence |
| `ModelNames.TrimIs` | tierflow-core-main/controller/channel_upstream_update.go:97-102 | Trimming takes off spaces at both ends and nothing else |
| `ModelNames.MergeModelNames` | tierflow-core-main/controller/channel_upstream_update.go:104-118 | The loop with its set of seen names computes the ordered union |
| `ModelNames.MergeIs` | tierflow-core-main/controller/channel_upstream_update.go:104-118 | The union keeps the first list as a prefix and has exactly the names of both |
| `ModelNames.SubtractIs` | tierflow-core-main/controller/channel_upstream_update.go:120-129 | Exactly the names of the first list that are not in the second |
| `ModelNames.IntersectIs` | tierflow-core-main/controller/channel_upstream_update.go:131-140 | Exactly the names in both lists |
| `ModelNames.StoredNamesReadBack` | tierflow-core-main/model/channel.go:350-355 | Normalized names without commas survive the comma-separated form |
| `UpstreamUpdate.ApplySelectedIs` | tierflow-core-main/controller/channel_upstream_update.go:142-147 | What stays keeps its order, what is new follows in the order asked for, and removal spares what is added at the same time |
| `UpstreamUpdate.PendingAddIs` | tierflow-core-main/controller/channel_upstream_update.go:176-235 | Pending additions are exactly the upstream names that are neither local, nor targets of the mapping, nor ignored, in upstream order |
| `UpstreamUpdate.IgnoredIff` | tierflow-core-main/controller/channel_upstream_update.go:209-224 | A name is ignored by a rule that is this name, or by one that begins with `regex:` and whose rest, trimmed, matches it |
| `UpstreamUpdate.PendingRemoveIs` | tierflow-core-main/controller/channel_upstream_update.go:176-235 | Pending removals are exactly the local names that are neither upstream nor sources of the mapping, in local order |
| `UpstreamUpdate.Channel.CheckAndPersist` | tierflow-core-main/controller/channel_upstream_update.go:360-407 | The check on the channel's fields: too early, failed fetch, automatic application, or recording; `autoAdded` is the number of pending additions when they are applied |
| `UpstreamUpdate.Channel.Apply` | tierflow-core-main/controller/channel_upstream_update.go:780-828 | Application of a selection on the channel's fields: what is added, ignored, removed and reported as remaining |
| `UpstreamUpdate.RemainingAdds` | tierflow-core-main/controller/channel_upstream_update.go:793-815 | Detecting again after any selection finds exactly the reported remaining additions, in order |
| `UpstreamUpdate.RemainingRemoves` | tierflow-core-main/controller/channel_upstream_update.go:793-815 | And exactly the reported remaining removals, in order |
| `UpstreamUpdate.ApplyingAllIsFixpoint` | tierflow-core-main/controller/channel_upstream_update.go:780-828 | Applying everything leaves nothing pending |
| `UpstreamUpdate.AutoSyncLeavesNothing` | tierflow-core-main/controller/channel_upstream_update.go:384-396 | Automatic synchronization leaves no addition pending and changes no removal |
| `UpstreamUpdate.DetectApplyDetect` | tierflow-core-main/controller/channel_upstream_update.go:736-828 | End to end through the stored form: detect, apply any selection, detect again gives the reported lists |
| `ChannelScan.Scan` | tierflow-core-main/controller/channel_upstream_update.go:540-608 | With the table changing between the queries: no channel is visited twice, each one enabled at every query is visited unless a query fails, counters are those of one pass |
| `ChannelScan.ScanFixedTable` | tierflow-core-main/controller/channel_upstream_update.go:540-608 | On a fixed table exactly the enabled channels are visited, each once, in order of id |
| `ScanReport.TallyIs` | tierflow-core-main/controller/channel_upstream_update.go:560-600 | The counters of the report as numbers of channels and sums over them: checked, failed, with changes, found, removed, added by themselves, and whether the cache is to be refreshed |
| `ScanReport.FailedInOrder` | tierflow-core-main/controller/channel_upstream_update.go:571-575 | The failed channels are listed in the order they were visited |
| `ChannelScan.PageIs` | tierflow-core-main/controller/channel_upstream_update.go:834-845 | A page is in order, behind the last id, and skips no enabled channel up to its own last one |
| `SnapshotDownload.Download.DownloadOne` | vm/hf_snapshot_download_stdlib.py:73-129 | The call on the disk, all of whose intermediate states are kept: attempts and outcome as the replies determine, at most `retries` attempts; interrupted attempts are resumed until one completes the file; success leaves the destination with the expected number of remote bytes and no `.part` |
| `SnapshotDownload.Download.Receive` | vm/hf_snapshot_download_stdlib.py:106-112 | Block-wise appending reaches the disk byte by byte, every state a prefix of the remote file |
| `SnapshotDownload.CompletesInTime` | vm/hf_snapshot_download_stdlib.py:88-128 | If the attempts before it were interrupted (a retried error, a transfer that broke off, a body of another length, an ignored range) and one that is allowed brings all that is missing, the call ends there with the file downloaded, and every attempt asked from where the bytes received so far end |
| `SnapshotDownload.FlatGrows` | vm/hf_snapshot_download_stdlib.py:106-112 | A body is its blocks one after the other |
| `SnapshotDownload.ErrorsMean` | vm/hf_snapshot_download_stdlib.py:99-129 | Failing for a transfer means that this was the last attempt allowed; an error with attempts left is one that is not retried |
| `SnapshotDownload.CompleteReplySucceeds` | vm/hf_snapshot_download_stdlib.py:100-117 | An attempt that is sent all that is missing ends the call successfully |
| `SnapshotDownload.TwoAttemptsSuffice` | vm/hf_snapshot_download_stdlib.py:97-117 | Once the server is up two more attempts are enough, even if it knows no ranges |
| `SnapshotDownload.FileNotFoundIff` | vm/hf_snapshot_download_stdlib.py:89-93 | A missing `.part` file is renamed iff nothing is expected, no usable `.part` is there and an attempt is allowed |
| `SnapshotDownload.UnreachableIff` | vm/hf_snapshot_download_stdlib.py:99-129 | The error called unreachable is raised iff no attempt is allowed or the last one was a reset |
| `SnapshotRuns.ContentsRightIff` | vm/hf_snapshot_download_stdlib.py:73-129 | Over all contents of the listed sizes, all interleavings of the system calls of any number of downloads, failing transfers, crashes and restarts from any sound disk, no file of the right size ever holds wrong content iff the names and sizes of the listing are safe: a file whose `.part` file could be mistaken for another file has at most one byte, and no two files of one byte are in one chain of such names. Otherwise it happens from an empty disk on, and the wrong file stays when all calls are over |
| `SnapshotCalls.RunKeeps` | vm/hf_snapshot_download_stdlib.py:73-129 | With safe names every system call of every interleaving keeps: no file is written by two calls, a `.part` file holds a prefix of its content or the whole content of a file it can be mistaken for, a file of the right size has the right content |
| `SnapshotRuns.RunKeepsSound` | vm/hf_snapshot_download_stdlib.py:73-129 | With no file named like the `.part` file of another, every `.part` file is at all times a prefix of its remote content, too |
| `SnapshotRuns.CallTakesSteps` | vm/hf_snapshot_download_stdlib.py:73-129 | What a running call with a `.part` file of its own does to the disk are the changes that the sequential model of a call makes |
| `SnapshotSolo.PassInSteps` | vm/hf_snapshot_download_stdlib.py:88-128 | Undisturbed, the system calls of a pass come to what the sequential model says of the reply |
| `SnapshotSolo.Clears` | vm/hf_snapshot_download_stdlib.py:73-84 | Undisturbed, a call removes a destination of the wrong size and a `.part` file that is too long, and keeps any other |
| `SnapshotRuns.OffsetRace` | vm/hf_snapshot_download_stdlib.py:89-117 | A file of two bytes or more whose `.part` name is another file's path can end up with its first byte missing and its last one twice: the offset is fixed before the request, the file opened by name after the reply |
| `SnapshotRuns.LongerNameRaces` | vm/hf_snapshot_download_stdlib.py:81-117 | For instance `m` of two bytes and `m.part` of three |
| `SnapshotRuns.EmptyFileBetween` | vm/hf_snapshot_download_stdlib.py:81-93 | Pairs of names do not decide it: an empty file between two of one byte passes the content of one on to the other, though either pair is safe |
| `SnapshotRuns.SizesMeanContents` | vm/hf_snapshot_download_stdlib.py:189-197 | With safe names the final check of sizes, after any interleaving, means that the files equal the remote ones |
| `SnapshotRuns.FinalVerification` | vm/hf_snapshot_download_stdlib.py:189-197 | Finds the first file that is missing or of the wrong size |
| `MultiKeyProperties.StepShowsIff` | tierflow-core-main/controller/channel.go:1407-1710 | After any action the channel shows exactly what the action means for its list of rows (key, status, time, reason) iff its guard holds: deletions need remaining keys that read back, and a key that is not deleted |
| `MultiKeyProperties.RunShows` | tierflow-core-main/controller/channel.go:1407-1710 | From plain keys on (no line break, not blank, not beginning with `[`) every run of actions shows what they mean, unless all keys are to be deleted at once |
| `MultiKeyProperties.ManualUntilEnabled` | tierflow-core-main/controller/channel.go:1407-1710 | From plain keys on, over any run of actions on the stored channel a manually disabled key stays so or is deleted until an action enables it |
| `MultiKeyProperties.SweepOfAllEnables` | tierflow-core-main/controller/channel.go:1643-1702 | When all keys are automatically disabled, deleting them deletes none and enables all |
| `MultiKeyProperties.BlankLineEnables` | tierflow-core-main/controller/channel.go:1581-1630 | Run on the channel with the text of `a`, a blank line and `b`: deleting `a` enables `b`, which was manually disabled |
| `MultiKeyProperties.DeletionInRangeIff` | tierflow-core-main/model/channel.go:587-625 | After an accepted deletion the recorded number of keys is theirs and all three maps stay below it iff the stored text is counted as it is read back and no remaining key behind the keys read back carries a time or reason; `Channel.Update` cleans the statuses only |
| `MultiKeyProperties.RunKeepsInRange` | tierflow-core-main/controller/channel.go:1407-1710 | From plain keys on, if number and indices are right before, they are after any run of actions |
| `MultiKeyProperties.BlankLineLeavesTime` | tierflow-core-main/model/channel.go:617-623 | From the text of `a`, a blank line and `b`: deleting `a` leaves one key and a disable time at index 1 |
| `MultiKeyProperties.AppendKeepsIff` | tierflow-core-main/controller/channel.go:898-972 | Exactly when an append keeps the rows of the existing keys: nothing is stored, or what is stored is read back with them in front |
| `MultiKeyProperties.LookAlikeDrops` | tierflow-core-main/controller/channel.go:906-919 | Run on the channel with a text that only looks like an array: appending one key drops the existing one |
| `MultiKeyEffects.StatusEffects` | tierflow-core-main/controller/channel.go:1407-1561 | Row by row: disabling sets the status and keeps time and reason, enabling forgets them, and no other row changes |
| `MultiKeyEffects.DeletionEffect` | tierflow-core-main/controller/channel.go:1563-1641 | Row by row: exactly the row of the key is gone, unless it is the last |
| `MultiKeyEffects.SweepEffect` | tierflow-core-main/controller/channel.go:1643-1710 | Row by row: exactly the automatically disabled rows are gone, unless there are no others, when none is and all are enabled |
| `MultiKeyEffects.StoringEffect` | tierflow-core-main/model/channel.go:587-625 | `Update` counts the keys anew, drops the statuses behind them, changes nothing else, and keeps the stored text if the new one is empty |
| `MultiKeyEffects.AppendEffect` | tierflow-core-main/controller/channel.go:906-972 | Behind the old rows, which stay, comes one enabled row for every trimmed non-empty line that is no existing key, each once and in order of first occurrence |
| `MultiKeyProperties.WithoutKeyShows` | tierflow-core-main/controller/channel.go:1587-1613 | Reindexing without one key gives the other rows, in order, with their own records |
| `MultiKeyProperties.WithoutAutoShows` | tierflow-core-main/controller/channel.go:1651-1681 | Likewise without the automatically disabled keys |
| `MultiKey.MultiKeyChannel.DeleteKey` | tierflow-core-main/controller/channel.go:1563-1641 | Answers, and what is stored; refuses the last key and indices out of range |
| `MultiKey.MultiKeyChannel.DeleteDisabledKeys` | tierflow-core-main/controller/channel.go:1643-1710 | Likewise, with the number of deleted keys |
| `MultiKey.MultiKeyChannel.DisableKey` | tierflow-core-main/controller/channel.go:1407-1448 | Likewise; refusals and failures change nothing |
| `MultiKey.MultiKeyChannel.EnableKey` | tierflow-core-main/controller/channel.go:1450-1490 | Likewise |
| `MultiKey.MultiKeyChannel.EnableAllKeys` | tierflow-core-main/controller/channel.go:1492-1514 | Likewise |
| `MultiKey.MultiKeyChannel.DisableAllKeys` | tierflow-core-main/controller/channel.go:1516-1561 | Likewise; refuses when no key is enabled |
| `MultiKey.MultiKeyChannel.AppendKeys` | tierflow-core-main/controller/channel.go:898-972 | Likewise for the append branch |
| `MultiKey.MultiKeyChannel.Update` | tierflow-core-main/model/channel.go:587-625 | Recounts the keys, drops statuses beyond them, keeps the stored text if the new one is empty |
| `MultiKey.MultiKeyChannel.GetKeyStatus` | tierflow-core-main/controller/channel.go:1293-1405 | The requested page of the filtered statuses, clamped page number, totals and counts over all keys |
| `MultiKey.WithoutKey` | tierflow-core-main/controller/channel.go:1587-1613 | The loop of `delete_key` with its new indices |
| `MultiKey.WithoutAutoDisabled` | tierflow-core-main/controller/channel.go:1651-1681 | The loop of `delete_disabled_keys`, and the number deleted |
| `KeyText.StoredKeysReadBackIff` | tierflow-core-main/model/channel.go:176-198 | Exactly which keys come back when stored one to a line |
| `KeyText.PlainReadsBack` | tierflow-core-main/model/channel.go:176-198 | Plain keys always do |
| `KeyListing.MatchingIs` | tierflow-core-main/controller/channel.go:1318-1366 | A filter lists exactly the keys of this status, in order |
| `KeyListing.PageSizes` | tierflow-core-main/controller/channel.go:1368-1389 | Every page but the last is full, and the last is not empty |
| `KeyListing.PagesPartition` | tierflow-core-main/controller/channel.go:1368-1389 | All pages together show every matching key once, in order |
| `OpusScan.GetOpusDuration` | tierflow-core-main/common/audio.go:196-254 | The scan ends on every file and yields the largest granule position found, over 48000 |
| `OpusScan.ScanFindsPages` | tierflow-core-main/common/audio.go:212-248 | On any file of pages and bytes without the capture pattern between them, cut off anywhere, the scan finds exactly the pages whose headers are complete |
| `OpusScan.LargestInIs` | tierflow-core-main/common/audio.go:212-248 | Found is the maximum of zero and the granule positions of exactly the pages whose 27 header bytes are in the file |
| `OpusScan.DurationOfPages` | tierflow-core-main/common/audio.go:196-254 | For any concatenation of pages: the maximum of zero and all granule positions read as signed numbers, over 48000 |
| `OpusScan.GranuleRoundTrip` | tierflow-core-main/common/audio.go:233-234 | Little-endian bytes and signed 64-bit numbers are inverse |
| `ModelMeta.EnrichModels` | tierflow-core-main/controller/model_meta.go:181-351 | Every model in the list is filled in as if it had been looked up by itself, with either query failing or not: same names, endpoint, group and quota sets, channels; quota types and rule-model channels ascending and without repetition; nil entries untouched |
| `ModelMeta.FillExact` | tierflow-core-main/controller/model_meta.go:206-220 | Whatever the order of the names, exact models and only they are filled from their own name |
| `ModelMeta.QueryMatched` | tierflow-core-main/controller/model_meta.go:279-290 | The one query for all names answers for every rule model like a query of its own |
| `ModelMeta.MatchesIff` | tierflow-core-main/controller/model_meta.go:238-246 | Which names a rule matches: those that begin with, end with or contain the name of the model |
| `ModelMeta.RuleMeans` | tierflow-core-main/controller/model_meta.go:292-351 | Written out for a rule model that matches some name: names, endpoints, groups, quota types and channels of exactly the prices it matches; endpoints that were given stay |
| `ModelMeta.RuleOrder` | tierflow-core-main/controller/model_meta.go:316-344 | Each once, quota types and channels in ascending order |
| `ModelMeta.ExactMeans` | tierflow-core-main/controller/model_meta.go:206-220 | Written out for an exact model: its own rows and what is cached under its name; everything else stays |
| `ModelMeta.MatchedInOrder` | tierflow-core-main/controller/model_meta.go:222-277 | The matched names stand in the order of the prices, one for each price |
| `ModelMeta.GetBoundChannels` | tierflow-core-main/model/model_meta.go:118-150 | Grouping the rows gives every name its own rows in order |
| `ModelMeta.AscendingUnique` | tierflow-core-main/controller/model_meta.go:316-344 | A sorted list is determined by its elements: map iteration order does not show |
| `HashCodec.WriteThenRead` | tierflow-core-main/common/redis.go:107-238 | Writing over an earlier hash of the key and reading into a zero object restores every field up to the stated losses, and succeeds iff something is stored and no field is of an unreadable kind |
| `HashCodec.RestoredIff` | tierflow-core-main/common/redis.go:187-238 | A readable field comes back as it was iff it is no pointer to an empty text and no set deletion time |
| `HashCodec.PrintedAs` | tierflow-core-main/common/redis.go:117-144 | What is written for a value, also behind a pointer |
| `HashCodec.ReadSets` | tierflow-core-main/common/redis.go:187-238 | What a readable text sets a field to, pointer or not, whatever it held; an empty text leaves a pointer as it is |
| `HashCodec.ReadFails` | tierflow-core-main/common/redis.go:187-238 | Exactly when a text cannot be read, and that the value then stays, or becomes a pointer to zero |
| `HashCodec.HSetObj` | tierflow-core-main/common/redis.go:117-144 | The hash holds the text of every field except deletion times, and nothing else |
| `HashCodec.HGetObj` | tierflow-core-main/common/redis.go:161-238 | Fields are set in order up to the first that cannot be read; those behind keep their values; not found iff the hash is empty |
| `HashCodec.DecimalRoundTrip` | tierflow-core-main/common/redis.go:208-213 | Decimal printing and parsing are inverse on all 64-bit numbers |

## Left out

- `middleware`, handlers, JSON binding, logging, sessions, payment signatures, pricing in floating point, notifications: plumbing or library calls around the modelled code.
- The database and its transactions: a failing update is refused, or applied but reported as failed; a failed transaction changes nothing. `QuotaPerUnit` is an integer.
- TopUpCredit.CreditedAtMostOnce: all threads belong to one process. `orderLocks` is not shared between processes and `EpayNotify` reads and saves without a row lock, so with several processes two notifications of one order could both find it pending. The balance equation is about top-ups alone: quota that users spend or are given otherwise in the meantime is added to it.
- OrderLockTable.OrderLocks.LockOrder: the uncontended call; waiting for a held mutex is part of the statement-by-statement model in OrderLock.
- Top-ups: redemption, subscription orders and the other gateways' callbacks; money amounts other than quota.
- Relay: the computation of the priority tier from the retry counter and the database path of the selector; what a group offers at a priority is any list of channels, at every attempt anew. The handlers are taken to set the channel metadata, so only the first attempt uses the distributed channel. The rewriting of the request body to a member's model name, violation fees and the circuit breaker's bookkeeping (only its answers are used).
- Negative `RetryTimes`: the loop then makes no attempt and refunds nothing, which the contract of the loop states but nothing else uses.
- ChannelSelect.NextEnabledKeyExcluding: polling can also fail because the cached channel cannot be looked up, which is not among the failures; nor is saving the polling position modelled.
- RequestBodies.BodyCache.GetRequestBody: storages are values named by position rather than heap objects; two requests naming one position stand for sharing, which is proved not to happen.
- RequestBodies.BodyCache.CreateBodyStorage: sequential; the source checks the disk limit and counts in separate steps, so concurrent requests can exceed the limit together.
- BodyStorage.StoresAgreeIff: seeks from the start, the current position and the end, to positions that the file system allows; a kernel may accept further ways, or refuse positions beyond its largest file size.
- Body storages: short reads of a file, failing file operations after creation, the sharing of the byte slice that `Bytes` of the memory store hands out, and the clean-up of old cache files (which takes files of open storages off the counters a second time).
- RateLimit.InMemoryRateLimiter.Request: the expiration is a whole number of seconds; each key always asks with the same limit and window and the clock does not go back; a negative limit is not modelled.
- UpstreamUpdate.DetectApplyDetect: regular-expression rules are any predicate; upstream names contain no comma and do not begin with `regex:`, because the stored form would split the one and read the other as a rule.
- The 24-hour window and the text of the scan's notification; the samples of names it shows.
- SnapshotDownload.Download.DownloadOne: errors of `stat`, `unlink` and `mkdir` outside the transfer, waiting times, and paths that differ only by symbolic links or letter case. The listing names no file twice. Errors while writing count as a transfer that broke off there.
- SnapshotRuns.ContentsRightIff: any number of downloads run at a time and make any number of attempts; with one worker no two overlap. The file system is one in which removing or moving a name leaves an open file open. Whether all other files can be completed after a race is not stated: an empty file that is not there already never can be.
- MultiKey.MultiKeyChannel.Update: the database library's update leaves out empty fields, so that an empty key text keeps the stored one.
- MultiKey.MultiKeyChannel.AppendKeys: new keys one to a line; the parsing of new keys for Vertex service accounts is left out. JSON parsing of what is stored is any table from texts to lists.
- MultiKeyProperties.ManualUntilEnabled: the management actions; automatic disabling and enabling by request outcomes, and replacing the text, are not among them. Key previews are left out.
- OpusScan.GetOpusDuration: reads return all bytes that are there; bytes between pages that contain the capture pattern are outside ScanFindsPages.
- ModelMeta.EnrichModels: the list does not name one model object twice; JSON encoding of endpoints is kept as the list; sorting stands for the library's.
- HashCodec.WriteThenRead: named types with their own text form, pointers to deletion times, and the expiry of the key.
- Other audio formats, cluster heartbeats, search, and everything else in the repository that is a query, a form or a display.
