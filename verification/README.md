# Device handler: a verified model

A Dafny 4.11 model of the device handler's three hard parts, with proofs. `dafny verify
dfyconfig.toml` checks all of it.

**The buffered retrying publisher** (`internal/publish/buffered.go`). `PublishQueue` describes
the queue by its *books*: what has arrived, what is settled (acknowledged, given up or lost),
what one flush holds and what is buffered, with the times at which every arrival was handed to
Publish and failed. Each mutex section and each decision outside the mutex is one action.
`FlushTasks` is the program as it runs: any number of Enqueue callers, ticks and flush
goroutines, each with a program counter and its own items, interleaved step by step; it is
proved to refine the books. `BufferedPublishing` is the class with the source's fields and
loops, each method proved to be the corresponding action; `FlushRuns` has the books of a flush.
On the books rest conservation and order (`QueueOrder`), the life of one item (`QueueTrails`,
`DropTiming`), the retry window and the one-test form of the ready scan (`RetryWindow`),
draining (`Drain`) and the counters (`FlushLedger`); `FlushLedger` and `FlushLives` state them
for the running tasks.

**The device cache, channel auto-creation and telemetry building** (`device_cache.go`,
`service.go`, `types.go`, `registry.go`). `ChannelMappings` shows that the channel list behaves
as a map; `DeviceCaching` has the class, whole runs of uploads and channel upserts, and the
fallback search; `ParserRegistry` decides which requests are served at all. `ChannelEnsuring`
has the creation loop, with other requests and the syncer working on the cache between its
steps. On it rest its cache update (`KeyCuts`, `CacheUpdating`), what its success means for
building the sample (`EnsureAndBuild`, `EntryHistory`) and which channels it creates and ids it
keeps (`ExactCreation`, `CreationContents`). `TelemetryBuilding` builds the sample;
`IngestService` puts lookup, refresh, creation, building and enqueueing together, others
working on the cache in the gaps here too. A method whose goroutine can be interrupted takes
what others do in its gaps as a parameter (`Meanwhile`).

**The Comet codecs.** `HexCodec`, `CometFloat` and `CometTime` pair the simulator's printers
with the parsers.

Assumptions:

- A clock reading is an integer, in nanoseconds since Go's zero time, and not negative. It may
  run backwards; only the time to drop asks for a clock that does not. A sum of a reading and a
  delay is not wrapped, since Go's time type is far wider than a duration.
- `FlushCount`, `MaxRetries` and `RetryBackoff` are arbitrary unless a lemma says otherwise. The
  product in `backoffDelay` wraps around as int64 does. The retry window needs `Tame`: a batch
  is at most one item, or the longest backoff the retry limit allows fits in a time.Duration
  (the default configuration is tame). This is exactly when the buffer always has that shape
  (`WindowIffTame`) and exactly when the scan is decided by its head (`ScansByHeadIffTame`).
  Conservation, bounded attempts, draining and the time to drop need no such thing.
- The server names a channel it creates as asked, up to normalization, or leaves the name out
  (`Echoes`).
- `Publish` answers ok or error, arbitrarily. An error does not mean that the message was not
  stored, so the claims are about acknowledged publishes.
- Strings are sequences of characters; spaces and letter case are those of ASCII, and every
  other character is left as it is.
- A float32 is its bit pattern (section 3.4 of IEEE 754-2019); hexadecimal is section 8 of RFC 4648.

Where the code does something its comments or documentation do not promise, the model follows
the code:

- When no transmission id can be made, `dequeueReadyBatch` has already cut the batch from the
  buffer and drops it: nothing is lost if and only if no flush without an id meets a due item
  (`LostExactlyWhenNoId`, `IdFailureLosesAnItem`). Go 1.24's `crypto/rand.Read` does not return
  errors, so the branch is not taken there.
- A `|` makes keys ambiguous (`KeyTellsSerialIff`). The registry keeps it out of a request's
  manufacturer and model (`SupportedHasNoBars`), but not out of a serial or of a cached device.
  For a device found by key, the "update cache with new channel mapping" error is unreachable
  in every cache and under every interleaving if and only if the serial cannot be cut at a bar
  into a possible end of a model and a possible serial (`LookupSafeIffUncut`); for one the
  fallback found, if and only if neither the serial nor the device's model can be cut
  (`EntrySafeIffUncut`). Without a cut no other device shares the key (`RivalIffCut`), so the
  one found is the one asked for (`LocatedIsTheDevice`). With one, the first granted creation
  fails if and only if the device found has a bar and the key of its manufacturer and model
  with the upload's serial is not cached (`LocatedFirstUpdateFailsIff`); with that key cached
  the loop goes on with another entry's record (`FirstCreation`) and may fail later
  (`BarsFailSecondCreation`). `BarsMisleadAnUpload` has an upload that fails and one that is
  sent under the wrong deployment.
- A refresh of the device between two creations of one request can take the first channel away
  again (`RefreshUndoesCreation`). Refreshes that keep the tags cached at that moment are
  harmless (`EnsureThenBuild`). After success the sample is built if and only if the entry the
  last creation was written into, with that creation's tag, resolves the earlier names
  (`SampleBuiltIff`), whatever happened in between; that is, if and only if the device's last
  refresh before that creation listed them or someone wrote them since (`SampleBuiltByHistory`).
- Another request that writes a tag this request already knows can change the id it sees, with
  no refresh at all (`OtherRequestChangesKnownId`). It is unchanged if and only if nothing was
  created, or the last id others wrote under the tag before the last creation, or the cached
  one when they wrote none, is the same (`KnownIdUnchangedIff`). With refreshes too it stays
  when others keep that id (`KnownIdsUnchanged`).
- A measurement with a blank name is skipped by `ensureChannels` and then fails in
  `BuildTelemetry` (`BuildSucceedsIffBlanksResolve`).
- A web sensor's error reading written with `0x` in front rejects the whole payload instead of
  being skipped (`ErrorReadingSkippedIffUnprefixed`).
- A device time sent as a JSON number is turned to decimal text and read as hexadecimal
  (`NumericTimeIntendedIff`).

## Model

| member | source | states |
|---|---|---|
| FlushTasks.StepSimulates | internal/publish/buffered.go:75-199 | every step of the concurrent tasks is one action of the single-flush books, so the interleaved system refines them |
| FlushTasks.MutualExclusion | internal/publish/buffered.go:89-134 | in every reachable state `flushing` is up exactly while one task is between its dequeue and the end of its flush; no second task is, and a task outside holds no items |
| FlushTasks.FifoUnderInterleaving | internal/publish/buffered.go:75-178 | under every interleaving the enqueue history equals settled ++ held by tasks ++ buffer as one sequence |
| FlushLedger.AcknowledgedIsAccepted | internal/publish/buffered.go:99-108 | under every interleaving the acknowledged items are exactly what Publish accepted, in order |
| FlushLedger.CountersMatchBooks | internal/publish/buffered.go:180-185 | in every reachable state PublishRetries and PublishDroppedItems plus what flushes still owe equal the sum of all retry counts and the number given up; exact when nothing is owed |
| FlushLedger.HeadDecidesUnderInterleaving | internal/publish/buffered.go:118-128 | under every interleaving of a tame configuration a flush takes a full batch or nothing, as the head alone decides, and while one is under way only never-attempted items are buffered |
| FlushLedger.DrainUnderInterleaving | internal/publish/buffered.go:110-178 | for every configuration with FlushCount >= 1, overflowing backoffs included: from an idle moment with n fresh items and no further Enqueue, no interleaving completes more than (max(MaxRetries,0)+1)*ceil(n/FlushCount) attempts, and that many leave nothing buffered or held |
| FlushLedger.CanAlwaysDrain | internal/publish/buffered.go:89-199 | no dead end: every reachable state of the tasks has a continuation without arrivals that empties buffer and flag |
| FlushLedger.RewriteAddsRetries | internal/publish/buffered.go:163-172 | the failure loop adds one retry for each item it keeps and loses no count of those it drops |
| FlushLedger.DrainBoundIsAttained | internal/publish/buffered.go:89-178 | from every such moment some continuation without arrivals, in which every publish fails, completes exactly that many attempts |
| FlushLives.AttemptsBoundedUnderInterleaving | internal/publish/buffered.go:158-172 | under every interleaving no enqueued item is handed to Publish more than max(MaxRetries,0)+1 times, a dropped one exactly that often, an acknowledged one once more than it failed |
| FlushLives.RetriesWaitUnderInterleaving | internal/publish/buffered.go:121-171 | under every interleaving each retry is handed over no earlier than the failure before it plus its backoff, for any clock |
| FlushLives.TimeToDropUnderInterleaving | internal/publish/buffered.go:163-171 | under every interleaving with a forward clock, for every configuration, a dropped item had been failing for at least the sum of its backoffs, with the closed form when they fit in int64 |
| FlushLives.WindowUnderInterleaving | internal/publish/buffered.go:118-178 | under every interleaving of a tame configuration the buffer is at most one batch stamped by one clock reading, counts and due times not increasing, then items never attempted; only those while a flush is under way |
| FlushLives.LossUnderInterleaving | internal/publish/buffered.go:133-140 | under every interleaving no item is lost if and only if no flush without a transmission id meets a due item while the flag is down |
| FlushLives.SubjectsUnderInterleaving | internal/publish/buffered.go:142-145 | under every interleaving, when no enqueued envelope has a subject of its own, every batch out with Publish goes out under the configured subject |
| FlushLives.EnqueueSpawnsIff | internal/publish/buffered.go:75-87 | an Enqueue starts a flush exactly when it fills the count and the flag is down |
| FlushLives.FullBufferIsHandedOver | internal/publish/buffered.go:78-84 | the flush such an Enqueue starts hands a due head to Publish without a tick |
| QueueOrder.StepKeepsFifo | internal/publish/buffered.go:75-178 | every action keeps the queue equation, the order of retry counts from held front to buffer end, and their bounds |
| QueueOrder.NothingDuplicatedOrReordered | internal/publish/buffered.go:75-178 | over every run the arrivals are the settled, then the held, then the buffered items, in order |
| QueueOrder.LostExactlyWhenNoId | internal/publish/buffered.go:136-140 | over every run the number of lost items is the number cut by dequeues that got no transmission id, and it is zero if and only if no flush without an id meets a due item at the head of the buffer |
| QueueOrder.IdFailureLosesAnItem | internal/publish/buffered.go:133-140 | a concrete run in which the error branch loses an item |
| PublishQueue.DropIsPrefix | internal/publish/buffered.go:163-172 | of a failed batch ordered by retry count the dropped items are a prefix and the requeued ones the rest, in order, each with one retry more and its backoff deadline |
| PublishQueue.ReadyCount | internal/publish/buffered.go:118-125 | everything before the stopping point is due, and the scan stopped at the end, at the limit or at an item not due |
| QueueTrails.StepKeepsRecorded | internal/publish/buffered.go:110-178 | every action keeps each item's hand-overs, failures, retry count and due time in agreement |
| QueueTrails.AttemptsAreBounded | internal/publish/buffered.go:158-172 | over every run no item is handed to Publish more than max(MaxRetries,0)+1 times, a dropped one exactly that often |
| QueueTrails.EveryRetryWaits | internal/publish/buffered.go:121-171 | each retry is handed over no earlier than the failure before it plus its backoff, for any clock |
| RetryWindow.BufferIsWindowThenFresh | internal/publish/buffered.go:118-178 | in every reachable state the buffer is what the latest failed batch put back, at most one batch, stamped by one clock reading with counts and due times not increasing, followed by items never attempted |
| RetryWindow.HeadDecides | internal/publish/buffered.go:118-128 | on such a buffer the scan loop equals the one-test form |
| RetryWindow.ScansByHeadIffTame | internal/publish/buffered.go:118-128 | for every configuration the scan equals the one-test form in all reachable states if and only if a batch is one item or the longest backoff fits in int64 |
| RetryWindow.WindowIffTame | internal/publish/buffered.go:118-178 | for every configuration all reachable buffers are one stamped retry window, counts and due times not increasing, then never-attempted items, if and only if a batch is one item or the longest backoff fits in int64 |
| Drain.AttemptLowersDebt | internal/publish/buffered.go:158-178 | without arrivals no step raises the attempts owed, and a completed attempt lowers them by at least its batch size, exactly so on failure |
| Drain.AttemptsAtMostDebt | internal/publish/buffered.go:110-178 | from any point the completed attempts never exceed the attempts owed there |
| Drain.DrainBound | internal/publish/buffered.go:110-178 | n fresh items are settled within (max(MaxRetries,0)+1)*ceil(n/FlushCount) attempts whatever their outcomes and however long the backoff |
| Drain.FailingDrainIsExact | internal/publish/buffered.go:110-178 | when every publish fails the n fresh items are settled after exactly that many attempts, not before |
| Drain.BatchesIsCeiling | internal/publish/buffered.go:120-133 | the batch count used in the bound is the ceiling of n over the batch size |
| DropTiming.TimeToDrop | internal/publish/buffered.go:163-171 | with a forward clock, for every configuration, an item given up after M retries had been failing for at least the sum of its M backoffs, which is base*(2^min(M,7)-1+64*max(0,M-7)) when they fit in int64 |
| Backoff.DelayMonotoneIffFits | internal/publish/buffered.go:209-222 | longer backoff after more retries, for all counts up to the limit, if and only if the longest one fits in int64 |
| Backoff.DelayDropsOnOverflow | internal/publish/buffered.go:221 | otherwise the first overflowing doubling makes a later delay negative |
| Backoff.TotalBackoffClosedForm | internal/publish/buffered.go:214-221 | the closed form of the delays added up, capped doubling included |
| BufferedPublishing.BufferedPublisher.constructor | internal/publish/buffered.go:49-57 | starts with empty books |
| BufferedPublishing.BufferedPublisher.Enqueue | internal/publish/buffered.go:75-87 | appends one fresh item, keeps the queue's invariants, and asks for a flush exactly when the count is reached and none is under way |
| BufferedPublishing.BufferedPublisher.CountReady | internal/publish/buffered.go:118-125 | the loop stops where a ready scan must |
| BufferedPublishing.BufferedPublisher.DequeueReadyBatch | internal/publish/buffered.go:110-156 | takes exactly the ready prefix with its samples and raises the flag, or takes nothing, or loses the prefix without an id; the batch goes out under its first item's subject if that is not empty, and under the configured one otherwise, always so when nothing that arrived has a subject |
| BufferedPublishing.BufferedPublisher.RetryOrDrop | internal/publish/buffered.go:160-172 | the failure loop keeps the survivors in order and counts the dropped |
| BufferedPublishing.BufferedPublisher.HandlePublishFailure | internal/publish/buffered.go:158-193 | survivors go back in front of what was buffered and what others enqueued while the loop ran, the flag comes down, counters rise by what was requeued and dropped, and the books stay in order |
| BufferedPublishing.BufferedPublisher.Requeue | internal/publish/buffered.go:174-178 | the mutex section puts the survivors in front and lowers the flag |
| BufferedPublishing.BufferedPublisher.FinishFlush | internal/publish/buffered.go:195-199 | the batch is acknowledged and the flag comes down |
| BufferedPublishing.BufferedPublisher.Flush | internal/publish/buffered.go:89-108 | a whole flush, others enqueueing in its gaps, leaves the flag as it found it and the buffer as survivors ++ rest ++ what arrived, and is a run of the books |
| FlushRuns.FlushIsARun | internal/publish/buffered.go:89-108 | a flush of the class, with the arrivals in its gaps, is a run of the books |
| BufferedPublishing.BufferedPublisher.BufferShape | internal/publish/buffered.go:118-128 | a valid publisher is in a reachable state, so with a tame configuration the head decides its scan and its buffer is fresh during a flush |
| ChannelMappings.PutIsMapUpdate | internal/cache/device_cache.go:89-99 | the in-place upsert of the channel list is a map update at the normalized tag, repeated tags included |
| ChannelMappings.PutObserved | internal/cache/device_cache.go:89-99 | after an upsert its tag resolves to the new id and every other tag as before |
| ChannelMappings.PutKeepsDistinct | internal/cache/device_cache.go:89-99 | at most one entry for each normalized tag is kept |
| ChannelMappings.UpsertsObserved | internal/cache/device_cache.go:194-202 | after any series of upserts a tag resolves to the last id written under it, or as before |
| ChannelMappings.ResolveIsLookup | internal/cache/device_cache.go:194-202 | first-match resolution is lookup in the map the list stands for |
| AsciiText.NormalizeIgnoresPaddingAndCase | internal/cache/device_cache.go:204-206 | the normal form does not depend on padding or letter case and is stable |
| DeviceCaching.KeyInjective | internal/cache/device_cache.go:102-106 | keys agree if and only if the normalized parts do, when the manufacturers have equally many bars and the models too |
| DeviceCaching.KeyTellsSerialIff | internal/cache/device_cache.go:102-106 | equal keys mean equal serials exactly when manufacturer and model have as many bars together |
| DeviceCaching.CacheOverRuns | internal/cache/device_cache.go:39-100 | over every run of uploads and channel upserts each record is under its own key with the identity of the last one uploaded there, and updatedAt is the maximum of all stamps and bounds each record's |
| DeviceCaching.StampsOverRuns | internal/cache/device_cache.go:42-50 | over every run a cached record has its last upload's ids and names, and that upload's own stamp, or the clock reading at it if it came without one; updatedAt is zero or such a stamp, and bounds them all |
| DeviceCaching.ClocksDoNotMatter | internal/cache/device_cache.go:42-50 | when every uploaded record has a stamp no clock reading has any effect on the cache |
| DeviceCaching.OpsGrow | internal/cache/device_cache.go:39-100 | no operation removes a key or moves updatedAt back |
| DeviceCaching.FallbackIgnoresOrder | internal/ingest/service.go:302-318 | for every iteration order of the map the fallback gives the same answer |
| DeviceCaching.FallbackFindsTheOne | internal/ingest/service.go:302-318 | it finds a record exactly when one cached key matches manufacturer and serial, and then that record |
| DeviceCaching.DeviceCache.UpsertMany | internal/cache/device_cache.go:39-52 | the loop stores every record, dated, and raises updatedAt to the latest stamp |
| DeviceCaching.DeviceCache.Lookup | internal/cache/device_cache.go:54-60 | the record under the normalized key, if any |
| DeviceCaching.DeviceCache.UpsertChannelMapping | internal/cache/device_cache.go:79-100 | the scan and the append together are the list upsert on the cached record, and nothing on a miss |
| DeviceCaching.DeviceCache.FindByManufacturerAndSerial | internal/cache/device_cache.go:126-140 | the matches along some enumeration of the map |
| ParserRegistry.SupportedHasNoBars | internal/device/types.go:101-103 | a request the registry of main serves has no bar in manufacturer or model, and its parser is the one registered for exactly that pair |
| ParserRegistry.MainRegistry | cmd/device-handler/main.go:67-74 | the registration loops leave exactly the supported pairs |
| ParserRegistry.Registry.Register | internal/device/registry.go:16-20 | one more entry under the normalized pair, replacing an older one |
| ParserRegistry.Registry.Lookup | internal/device/registry.go:22-27 | the parser under the normalized pair, if any |
| KeyCuts.RivalIffCut | internal/cache/device_cache.go:102-106 | another serial can share a bar-free manufacturer's key if and only if the serial or the model can be cut at a bar |
| CacheUpdating.CacheUpdateCannotFail | internal/ingest/service.go:228-231 | the cache update of ensureChannels never fails, whatever uploads and upserts interleave, refreshes of the device included, while the records stored under the device's key have as many bars as the record in hand; other devices may have any |
| CacheUpdating.FoundNamesCachedKey | internal/ingest/service.go:76-98 | a record from Lookup or the fallback names, with the upload's serial, the key it is cached under |
| CacheUpdating.UpsertHitsOwnEntryIff | internal/ingest/service.go:228 | the key of the upsert is the looked-up record's own key exactly when request and record have as many bars |
| CacheUpdating.FirstCreation | internal/ingest/service.go:206-232 | the first granted creation for a looked-up record fails in the cache exactly when the key it writes to is absent, which takes different bars; with different bars and the key present, and only then, the loop goes on with another entry's record |
| CacheUpdating.LookupSafeIffUncut | internal/ingest/service.go:205-245 | for every supported manufacturer and model: no cache, upload, answer or interleaving makes a creation for a device found by key fail in the cache, if and only if the serial cannot be cut at a bar |
| CacheUpdating.EntrySafeIffUncut | internal/ingest/service.go:205-245 | the same for a record in hand that carries the request's serial, as the fallback's does, if and only if neither the serial nor its model can be cut |
| CacheUpdating.BarsReachCacheUpdateFailure | internal/ingest/service.go:228-231 | a cached device and a request the registry serves that reach the failure |
| CacheUpdating.BarsReachOtherDevice | internal/ingest/service.go:221-232 | two cached devices and a request the registry serves after which the channel made for the one deployment is mapped, and the sample sent, under the other |
| CacheUpdating.BarsFailSecondCreation | internal/ingest/service.go:228-231 | two cached devices and a request the registry serves whose first creation succeeds and whose second ends in the error |
| EnsureAndBuild.EnsureCovers | internal/ingest/service.go:205-245 | while every refresh of the device in between keeps its key and the tags cached then, a successful loop leaves every name that is not blank resolvable and loses no tag, and the cache update does not fail |
| EnsureAndBuild.EnsureThenBuild | internal/ingest/service.go:98-108 | under the same condition success of ensureChannels implies success of BuildTelemetry when no name is blank, one length-1 series for each measurement in order under the final ids |
| EnsureAndBuild.ResultIsLastEntry | internal/ingest/service.go:228-232 | for any interleaving the returned record is the initial one or the entry the last creation was written into with its mapping |
| EnsureAndBuild.SampleBuiltIff | internal/ingest/service.go:98-108 | for any interleaving, after success the sample is built if and only if that entry, with that creation's tag, resolves every earlier and every blank name |
| EntryHistory.EntryIsReplay | internal/ingest/service.go:206-232 | the channel list the last creation was written into is what the refreshes and upserts of the device before it make of the list cached at the start |
| EntryHistory.SampleBuiltByHistory | internal/ingest/service.go:98-108 | after success the sample is built if and only if each earlier or blank name is the last one created, or is listed by the last refresh before that creation or written by anyone since |
| EnsureAndBuild.RefreshUndoesCreation | internal/ingest/service.go:228-232 | a concrete upload of the device between two creations after which ensureChannels succeeds and BuildTelemetry fails on the first channel |
| ChannelEnsuring.EchoedTag | internal/api/client.go:132-138 | a blank tag in the answer is replaced by the requested one, so the mapping carries the requested tag up to normalization |
| ChannelEnsuring.WrittenTagIsNotBlank | internal/api/client.go:136-138 | no creation ever writes a blank tag to the cache |
| CreationContents.RequestsAsk | internal/ingest/service.go:211-225 | every request of the loop is, in order, for a measurement with a name that is not blank: that name is its tag and name, its unit in normal form the unit; all but the last were granted, and a refusal ends the loop with the refused tag |
| CreationContents.RequestsAreForTheDeployment | internal/ingest/service.go:207-221 | without a refresh every request is for the initial record's deployment and a name that record cannot resolve |
| CreationContents.WrittenAsAnswered | internal/api/client.go:132-138 | the mapping has the server's id, and the server's tag or, when that is blank, the trimmed name |
| CreationContents.CreatedIdsAreAnswered | internal/ingest/service.go:221-232 | with no refresh, and others writing none of the names this upload lacks, after success each lacked name resolves to the id the server answered for it |
| ChannelEnsuring.UnitIsNormalForm | internal/ingest/service.go:247-260 | normalizing a unit ignores padding, is idempotent, and changes exactly the other spellings of degrees Celsius and Fahrenheit |
| ExactCreation.AsksOnlyForTheMissing | internal/ingest/service.go:206-232 | with no refresh of the device in between, and whatever other requests create for it, the requests sent are in order among those for first occurrences of non-blank names the initial record lacks |
| ExactCreation.CreatesExactlyTheMissing | internal/ingest/service.go:206-232 | when moreover others write none of the names this upload lacks, the requests sent are exactly those, cut short at the first refusal, and the loop succeeds exactly when all are granted |
| ExactCreation.KnownIdsUnchanged | internal/ingest/service.go:206-232 | an id known before stays as it was while others who refresh the device or write that very tag keep the id, for every tag |
| ExactCreation.KnownIdUnchangedIff | internal/ingest/service.go:206-232 | without a refresh, the id a known tag ends up with is the last one others wrote before the last creation, or the cached one; unchanged if and only if nothing was created or that id is the same |
| ExactCreation.OtherRequestChangesKnownId | internal/ingest/service.go:228-232 | without a refresh alone it does not: a concrete request that writes a known tag meanwhile |
| ExactCreation.BuildSucceedsIffBlanksResolve | internal/ingest/service.go:211-214 | with no refresh of the device, and others writing no blank tag, after success BuildTelemetry succeeds if and only if every blank name resolved in the initial record |
| ExactCreation.SecondRunCreatesNothing | internal/ingest/service.go:206-232 | a second run on the result sends no request and returns the same record, when the first one's refreshes kept the tags |
| TelemetryBuilding.BuildTelemetry | internal/device/types.go:63-99 | fails exactly when some name does not resolve, with the number and name of the first, and otherwise carries the device's three ids, the upload's second, one series of one value for each measurement in order, and a battery and a signal series of the right type exactly when the upload has those values |
| TelemetryBuilding.SecondReachesT0 | internal/device/types.go:64-70 | a second printed by the simulator and parsed reaches T0 unchanged exactly from 1970 on |
| IngestService.LookupAnswersIff | internal/ingest/service.go:154-163 | a record found by key matches the request's manufacturer and serial exactly when the bars agree part by part |
| IngestService.LocatedIsTheDevice | internal/ingest/service.go:132-203 | what lookup or refresh returns for a supported request, others at work in every gap, is in the resulting cache under its own key, is the device asked for exactly when the fallback found it or it has no bar, and always is when the serial cannot be cut |
| IngestService.ListedDeviceIsFound | internal/ingest/service.go:132-203 | a device whose key is cached or listed by a fetch that is reached is found and never reported as not found, whatever others do in the gaps |
| IngestService.RefreshAnswers | internal/ingest/service.go:132-203 | every outcome of a search: the record under the key, else the only one with that manufacturer and serial, after the first fetch or else after the second; each of the three errors in exactly its case |
| IngestService.LocatedUpdateCannotFail | internal/ingest/service.go:76-102 | for whatever the search returned, the cache update of its creations cannot fail: under any interleaving when the serial, and the model of a record the fallback found, cannot be cut; otherwise while no other device answered and uploads under its key keep its bars |
| IngestService.LocatedFirstUpdateFailsIff | internal/ingest/service.go:228-231 | for a supported request found by key the first granted creation fails in the cache if and only if the device has a bar and its manufacturer's and model's key with the upload's serial is not cached |
| IngestService.LocatedUploadSucceedsUnlessRefused | internal/ingest/service.go:48-129 | once the device is located, no other one answering in its place, an upload without blank names yields a sample if and only if the server grants every missing channel, others at work short of refreshing the device or creating those channels |
| IngestService.HandleOutcome | internal/ingest/service.go:98-108 | every outcome of a located upload: the creation error, the first unresolved name, or a sample that carries the upload under the final record's ids |
| IngestService.HandledUnderFoundIds | internal/ingest/service.go:98-115 | without a refresh during its creations the sample goes out under the ids of the device found |
| IngestService.OnlyRefusalFailsALocatedUpload | internal/ingest/service.go:48-129 | with refreshes that keep the tags as well, a refused creation is the only way such an upload fails |
| IngestService.BarsMisleadAnUpload | internal/ingest/service.go:48-129 | an upload the registry admits that ends in the cache update error, and one whose sample goes under another device's deployment |
| IngestService.Service.LookupFallback | internal/ingest/service.go:302-318 | the method's answer is the order-free fallback |
| IngestService.Service.RefreshAndLookupDevice | internal/ingest/service.go:132-203 | the two refreshes, each followed by lookup and fallback, with their errors, others at work in every gap: the record under the key or the only match, and each error in exactly its case |
| IngestService.Service.FindDevice | internal/ingest/service.go:76-96 | the cache first, a refresh on a miss, others at work in every gap |
| IngestService.Service.EnsureChannels | internal/ingest/service.go:205-245 | the loop sends the requests, each with its measurement's name and unit, updates the cache and returns the record the specification gives, others at work before each step |
| IngestService.Service.Handle | internal/ingest/service.go:48-129 | an unregistered pair or an unparsable body changes nothing; success enqueues exactly one fresh item with the built sample and an empty subject and asks for a flush exactly when the count is reached and none is under way; any failure leaves the publisher as it was; others at work on the cache in every gap |
| HexCodec.DecodeOfEncode | internal/device/comet/ulogger/parser.go:166 | decoding what the printer writes gives the bytes back, for any length |
| HexCodec.EncodeOfDecode | internal/device/comet/ulogger/parser.go:166 | exactly the even-length digit strings decode, and printing gives them back in lower case |
| CometFloat.ULoggerAcceptsExactlyPrinted | internal/device/comet/ulogger/parser.go:156-179 | a text is read as some bits if and only if its canonical form is their printed form and they are no error pattern |
| CometFloat.FloatRoundTrip | scripts/simulate_comet_uxxxxm.py:70-72 | the same 32 bits come back exactly when the top 24 are not 0xFF8100 |
| CometFloat.ErrorPatternsAreNaN | internal/device/comet/ulogger/parser.go:162-164 | every pattern taken for an error is a NaN |
| CometFloat.ParsersAgree | internal/device/comet/websensor/parser.go:169-192 | both parsers accept the same texts with the same bits, and differ in the error only when a space follows the optional 0x |
| CometFloat.SpellingDoesNotMatter | internal/device/comet/ulogger/parser.go:161 | letter case, padding and one 0x in front change nothing for either parser |
| CometFloat.ErrorReadingSkippedIffUnprefixed | internal/device/comet/websensor/parser.go:141-147 | whatever parseHexFloat takes for a device error is skipped exactly when it has no 0x in front, and rejects the payload otherwise |
| CometFloat.WebsensorReadingByText | internal/device/comet/websensor/parser.go:141-192 | every reading by its text: printed bits are that value, an error pattern is skipped or with 0x rejected, an even number of other hex digits has the wrong length, anything else is not hexadecimal |
| CometFloat.CanonicalDropsOnePrefix | internal/device/comet/ulogger/parser.go:161 | one 0x in front of the trimmed lower-case text is dropped, and nothing else |
| CometTime.FormatParse | scripts/simulate_comet_uxxxxm.py:75-77 | parsing the printed field gives the number exactly when it fits in int64, and an error otherwise, sign-aware padding included |
| CometTime.TimeRoundTrip | internal/device/comet/ulogger/parser.go:142-154 | the original Unix second comes back if and only if it and its offset from 2000 fit in int64 |
| CometTime.FieldIsEightDigits | scripts/simulate_comet_uxxxxm.py:75-77 | for the first 2^32 seconds from 2000 the field is eight hex digits |
| CometTime.FieldShape | scripts/simulate_comet_uxxxxm.py:75-77 | the printed field has a minus sign exactly for negative numbers, upper-case digits, at least eight characters with the sign counted, and no zero in front beyond those |
| CometTime.NumericTimeIntendedIff | internal/device/comet/ulogger/parser.go:142-186 | a time given as a JSON number is read as intended exactly when it has one digit |
| CometTime.DeviceTimeOfText | internal/device/comet/ulogger/parser.go:142-187 | exactly the texts of an optional sign and hex digits in either case that fit in 64 bits are read, as that many seconds from 2000 |
| CometTime.OffsetIsThirtyYears | internal/device/comet/ulogger/parser.go:17 | the offset is the length of the years 1970 to 1999, leap days counted |

## Left out

- NATS, the HTTP server and the REST client: their outcomes (publish, fetches, channel creation) are parameters. Of the client only the filling-in of a blank tag is modelled.
- Delivery downstream: an errored publish may have been stored, and each attempt gets a fresh transmission id, so nothing is claimed about duplicates after Publish.
- Shutdown: one last flush runs with a cancelled context; what is still buffered then is not followed.
- The queue-depth gauge is set outside the lock, so only its value after an undisturbed method is stated. PublishBatches and PublishFailures are counted in the class only.
- The ticker's flushes are single and sequential in the source; here each tick spawns a task, which allows more interleavings.
- BufferedPublishing.BufferedPublisher.HandlePublishFailure: the counters are updated right after the mutex section; when they lag behind it is in FlushLedger.
- Slices are value sequences: the sharing of a channel list's backing array between the cache and records handed out earlier is not modelled.
- Letter case and spaces outside ASCII, JSON, XML and RFC 3339 decoding, and the parsers' payload loops.
- The conversion of a Python float to 32 bits: the codec starts from the bits.
- The syncer is an arbitrary upload batch between steps; its readiness, the update store, configuration, metrics rendering, the protobuf copy and the SOAP parser would only add easy members.
- IngestService.Service.Handle: what others do to the publisher before Handle enqueues is not a parameter; that is in FlushTasks.
- IngestService.Service.FindDevice: in the source its lines stand in Handle.
- The parsers' Parse functions and the registry's lock: a registered parser is its manufacturer and model, and its result is a parameter of Handle.
