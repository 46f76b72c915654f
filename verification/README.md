# Verified model of azs3-proxy

azs3-proxy answers the S3 protocol from Azure Blob Storage and Azure Files. This project models
the parts of the proxy that are algorithms rather than plumbing and proves what they are for, in
Dafny. `dafny verify dfyconfig.toml` checks all of it.

| file | what it models |
|---|---|
| `ConcurrentReader.dfy` | the concurrent blob download: feeder, workers, bounded results channel, reorder map, pipe, cancellation, as a state machine whose runs are all interleavings |
| `ChunkedReader.dfy`, `ChunkStreams.dfy` | the aws-chunked body decoder, an object over a buffered source with short reads, and what it makes of every stream, malformed, cut or broken |
| `RangeHeader.dfy`, `RangeForms.dfy` | the parser of the Range header, against the ranges of section 14.1.2 of RFC 9110, and the exact form of the headers it serves |
| `LruCache.dfy`, `LruPolicy.dfy`, `LruTimes.dfy` | the LRU cache with expiry: the class, the sequence it stands for, what every trace of operations keeps, and when an entry is served, told by the operations alone |
| `CacheKeys.dfy`, `SharedCache.dfy` | cache keys and file names, and when objects that share the cache are served their own bytes |
| `BlockCache.dfy`, `BlockReuse.dfy`, `LruReuse.dfy` | range requests served from cached 8 MiB blocks, and the prefetcher, with others using the cache at every step; what the next request finds when nobody else does |
| `RateLimit.dfy`, `Bandwidth.dfy` | the token bucket, the limiter's three buckets, and all throttled streams sharing them |
| `ConcurrencyLimiter.dfy` | the adaptive limit on requests in flight |
| `Multipart.dfy`, `PartOrder.dfy` | what a multipart upload means, and the in-place sort of its part numbers |
| `UploadProtocol.dfy` | uploads as interleavings of their requests' critical sections, and exactly which acknowledged parts survive |
| `UploadRuns.dfy`, `UploadRequests.dfy` | those interleavings for buffered and for staged parts, and when the two backends agree |
| `UploadedObjects.dfy` | from the bytes that clients send to the objects that either backend stores |
| `FileUploads.dfy`, `UploadBound.dfy` | uploads of the Azure Files backend, and the memory they can take under concurrency |
| `BlockStaging.dfy`, `BlobUploads.dfy` | the staging area of a blob, and uploads of the Azure Blob backend |
| `FileListing.dfy`, `FileTree.dfy` | the pruned walk of a share and offset tokens, and what a listing holds, told by the tree |
| `DelimiterGrouping.dfy`, `ListingLimits.dfy` | the grouping of keys by a delimiter, and what the client's limits and tokens mean |
| `Text.dfy`, `Numerals.dfy` | byte strings, searching, trimming, printing and parsing of integers, and which texts are numbers |

Code that changes state is a class or a loop; each method is proved equal to a function of its
inputs or of the old state, and the properties are lemmas about those functions. Goroutines that
meet at channels and locks are state machines: an action is one meeting or one critical section, a
run is a sequence of enabled actions, and a theorem about all runs is one about all interleavings.
Clocks, the network, disks and random outcomes are parameters or arbitrary choices.

## Where the code and its comments differ

The model follows the code.

- `internal/backend/azureblob/concurrent_reader.go:142-160` says that channel backpressure bounds
  memory. `ReorderMapBoundIff` says when it does: with one worker, or when the blob is that small.
- `internal/backend/azureblob/concurrent_reader.go:67` closes the pipe cleanly on every return, so a
  download cut by its caller's cancellation can end in a clean end of file (`CancelTruncates`).
- `internal/backend/azureblob/client.go:668` says that a lock is held throughout a part upload; the
  block is staged outside it, and recorded later. Block ids depend on the part number alone, so two
  uploads to one object overwrite each other's parts, and a part uploaded again while its upload is
  completed can be committed under its old digest. `CompleteIsSafeIff` gives the exact condition under
  which an upload is unharmed; `SecondUploadOverwrites` and `ReuploadInProgress` are runs in which it
  is not.
- Both backends ignore the list of parts that the client sends with the completion request and
  commit every part that was uploaded; `IgnoringTheListIff` says when that is what was asked for.
- The size limit of a buffered upload (`internal/backend/azurefile/client.go:39-41`) is checked in
  one critical section and acted on in another. `LimitKeptIff` says when it is kept;
  `BufferedBytesBounded` and `BoundIsAttained` give the exact bound for any number of requests at
  once and any least declared size.
- A completion gathers the parts, writes the object and forgets the upload in separate critical
  sections (`internal/backend/azurefile/client.go:766-818`,
  `internal/backend/azureblob/client.go:767-798`). A part recorded after the gathering is acknowledged
  and missing from the object. `PartSurvivesIff` says exactly which parts survive.
- The escape of cache file names is not injective. `SharedCacheIff` and `ShareFileIff` say exactly
  for which objects that is harmless; two versions of one object with matching sizes share files as
  well. Files of one object never clash (`OwnEntriesAgree`).
- Upload ids of different objects can be equal (`UploadIdIff`).
- A last position of 2^63 or more in a Range header is refused, where section 14.1.2 of RFC 9110
  would clamp it, and so is a suffix of that length (`AgreesIff`, `HugeSuffixRefused`).
- A Range header is served although its numbers are signed or stand between blanks, as in `bytes=+0 --0`,
  which section 14.1.2 of RFC 9110 does not allow (`ServedIff`, `RfcFormIff`, `LooseFormServed`).
- A `take` of more bytes than the bucket's capacity never returns (`ServableIffFits`); caps below
  1 Mbps make the throttled readers ask for that (`ChunksServable`).
- A truncated aws-chunked body whose source just ends is reported as truncated only if the cut is inside
  chunk data; a source that fails is always reported (`DecodeTruncated`, both directions).
- The two bytes that end a chunk are skipped unread, whatever they are, and a negative size panics
  (`DecodeIff`).

## Model

| member | source | states |
|---|---|---|
| ConcurrentReader.NewConfig | internal/backend/azureblob/concurrent_reader.go:29-54 | positive settings are kept and every other value is replaced so that chunk size and concurrency are positive |
| ConcurrentReader.OffsetSteps | internal/backend/azureblob/concurrent_reader.go:73-104 | the chunks cut the blob exactly: each is non-empty, starts where the previous one ends, and the last ends at the blob's end |
| ConcurrentReader.OutputIsPrefix | internal/backend/azureblob/concurrent_reader.go:66-209 | in every interleaving, with any concurrency and chunk size, the consumer has received a prefix of the blob made of whole chunks in order and at most a part of the next one |
| ConcurrentReader.CleanEOFIsComplete | internal/backend/azureblob/concurrent_reader.go:66-209 | a clean end of file in a run that nobody cancelled or closed means that the whole blob was received |
| ConcurrentReader.ErrorIsADownloads | internal/backend/azureblob/concurrent_reader.go:114-136 | an error seen by the consumer is the error of some download of that run |
| ConcurrentReader.NoSendAfterClose | internal/backend/azureblob/concurrent_reader.go:131-181 | while any worker is alive the results channel is open, and it never holds more than its capacity |
| ConcurrentReader.StepDecreases | internal/backend/azureblob/concurrent_reader.go:66-209 | every enabled action keeps the invariant and strictly lowers a well-founded measure |
| ConcurrentReader.RunsAreBounded | internal/backend/azureblob/concurrent_reader.go:66-209 | every run is finite, with an explicit bound in chunks, workers and bytes |
| ConcurrentReader.NeverDeadlocks | internal/backend/azureblob/concurrent_reader.go:77-209 | every reachable state that is not final has an enabled action that needs no outside interference, given a consumer that reads |
| ConcurrentReader.CancelReleasesPool | internal/backend/azureblob/concurrent_reader.go:131-171 | after cancellation the feeder, the workers and the closer have a run of their own actions that ends all of them, even with a full results channel and no reader |
| ConcurrentReader.MaximalRunDelivers | internal/backend/azureblob/concurrent_reader.go:66-209 | a run that cannot go on has ended everything; without cancellation it delivered the blob cleanly or reported a download's error, and with no failed download all interleavings deliver the same bytes, the blob |
| ConcurrentReader.CancelTruncates | internal/backend/azureblob/concurrent_reader.go:67 | for every non-empty blob there is a run, with the parent cancelled, that ends in a clean end of file with nothing delivered |
| ConcurrentReader.ReorderMapUnbounded | internal/backend/azureblob/concurrent_reader.go:142-207 | with two or more workers the reorder map can hold any number of chunks while chunk 0 is outstanding |
| ConcurrentReader.ReorderMapAtMost | internal/backend/azureblob/concurrent_reader.go:173-207 | in no run does the reorder map hold more than the blob's chunks, or more than one with a single worker, whose results arrive in order |
| ConcurrentReader.ReorderMapBoundIff | internal/backend/azureblob/concurrent_reader.go:142-207 | a number bounds the reorder map in all runs if and only if the blob has no more chunks than that or there is one worker |
| ChunkedReader.AwsChunkedReader.constructor | internal/handler/chunked_reader.go:19-23 | a new reader will deliver the decoding of its whole source |
| ChunkedReader.AwsChunkedReader.ReadHeader | internal/handler/chunked_reader.go:32-57 | reading a chunk header changes nothing about what will be delivered; it either records the final error or announces a positive number of bytes |
| ChunkedReader.AwsChunkedReader.FinishRead | internal/handler/chunked_reader.go:67-84 | after a partial or complete chunk, what remains is exactly what the stream's meaning says after those bytes, including the three kinds of error |
| ChunkedReader.AwsChunkedReader.Read | internal/handler/chunked_reader.go:25-85 | each call hands out the front of the decoding and keeps the rest, leaves the buffer beyond it alone, consumes source bytes whenever it reports no error, and after its error nothing more is delivered |
| ChunkedReader.ReadAll | internal/handler/chunked_reader.go:25-85 | for any sequence of non-empty buffers and any short reads of the source, the concatenated reads and the final error are the stream's meaning |
| ChunkedReader.HeaderAnnounces | internal/handler/chunked_reader.go:37-52 | a header with any size and any extension is read back as that size |
| ChunkedReader.DecodeEncode | internal/handler/chunked_reader.go:25-85 | decoding undoes encoding for every payload, every split into non-empty chunks and any signature texts, ending in a clean end of file |
| ChunkedReader.ReadEncoded | internal/handler/chunked_reader.go:19-85 | end to end: reading an encoded body to its end yields the payload and a clean end of file |
| ChunkedReader.DecodeTruncated | internal/handler/chunked_reader.go:31-84 | a stream cut anywhere yields exactly the payload bytes it still has; the end is clean once the zero chunk's header has arrived; before that a failing source is reported as failing at every cut, and one that just ends as an unexpected end if and only if the cut is inside chunk data |
| ChunkedReader.ReadCut | internal/handler/chunked_reader.go:19-85 | end to end for a connection that ends or breaks after any number of bytes: the payload so far, and a clean end of file only if the zero chunk's header is complete or the source just ended outside chunk data |
| ChunkStreams.HeaderSizeIff | internal/handler/chunked_reader.go:37-52 | a header line has a size exactly if it is a hexadecimal number of 64 bits, signed or not and in either case, between blanks, then nothing or a semicolon and anything; the size is that number |
| ChunkStreams.DecodeIff | internal/handler/chunked_reader.go:25-85 | every stream, well formed or not, has exactly one reading in a grammar of chunks and ends, and that is what decoding gives: the data of its complete chunks and what is left, then a malformed header, a zero or a negative size, a cut in the data, a cut elsewhere or a failing source, each under its own error |
| Numerals.ParseIntIff | internal/handler/chunked_reader.go:46-50 | parsing a number succeeds exactly on optional signs followed by digits in either case, leading zeros allowed, within 64 bits, and gives the number that these spell |
| Numerals.DigitValueIs | internal/handler/chunked_reader.go:46 | the digits are those of decimal and hexadecimal numbers, in either case, and no other characters |
| RangeHeader.ParseSingleRange | internal/handler/handler.go:705-776 | a successful parse is an interval inside the object, and an empty object has none |
| RangeHeader.ParsePrint | internal/handler/handler.go:705-776 | printing any bounded, open or suffix range, with blanks around it, and parsing it against any positive size selects exactly the positions that RFC 9110 selects, or fails exactly when there are none, for numbers below 2^63; larger numbers always fail |
| RangeHeader.AgreesIff | internal/handler/handler.go:705-776 | the parser agrees with RFC 9110 on a printed range if and only if all its numbers are below 2^63 or it selects nothing anyway |
| RangeHeader.HugeLastPosRefused | internal/handler/handler.go:755-773 | a satisfiable range whose last position is 2^63 or more is refused |
| RangeHeader.HugeSuffixRefused | internal/handler/handler.go:733-743 | a suffix of 2^63 or more, which selects the whole object, is refused |
| RangeForms.ServedIff | internal/handler/handler.go:705-776 | a header is served as an interval if and only if it is `bytes=` and one range of two numbers, of which one may be missing, around the first dash, without a comma, and the interval is what that selects from the object |
| RangeForms.MultipleIff | internal/handler/handler.go:713-717 | a header is refused as several ranges if and only if it has the unit and a comma |
| RangeForms.RfcFormIff | internal/handler/handler.go:719-728 | a header that is served has the form of RFC 9110 if and only if its sides hold no blanks and no signs |
| RangeForms.LooseFormServed | internal/handler/handler.go:719-763 | a header that is served and does not have that form |
| LruCache.LRUCache.constructor | internal/cache/lru.go:58-93 | a new cache is empty and consistent |
| LruCache.LRUCache.RemoveEntry | internal/cache/lru.go:341-359 | list, index, counter and file lose exactly one entry and stay consistent |
| LruCache.LRUCache.Get | internal/cache/lru.go:105-171 | refines the sequence specification: a hit moves the entry to the back with the new time, an expired or fileless entry is dropped, and the path of a hit exists |
| LruCache.LRUCache.Put | internal/cache/lru.go:177-233 | refines the sequence specification with the error paths of an unreadable source, an oversized file and a failed copy (which loses the old entry); the size limit holds afterwards |
| LruCache.LRUCache.EvictToFit | internal/cache/lru.go:221-230 | the eviction loop refines the eviction of the sequence specification and restores the size limit |
| LruCache.LRUCache.Delete | internal/cache/lru.go:237-256 | removes exactly the key, or changes nothing and reports failure when the file cannot be removed |
| LruCache.LRUCache.Clear | internal/cache/lru.go:260-278 | removes every entry and its file; if some file exists and cannot be removed, and exactly then, it fails, keeps all entries and has deleted only removable files |
| LruCache.LRUCache.FindExpired | internal/cache/lru.go:369-383 | collects each expired element once and no other |
| LruCache.LRUCache.SweepExpired | internal/cache/lru.go:363-398 | one tick removes the expired entries and nothing else |
| LruCache.LinkedView | internal/cache/lru.go:34-46 | list and index hold the same entries, one per key |
| LruPolicy.EvictIsSuffix | internal/cache/lru.go:221-230 | eviction removes the shortest front prefix that makes the rest fit, with exactly its files |
| LruPolicy.PutIsLru | internal/cache/lru.go:177-233 | a successful Put evicts exactly the shortest front prefix needed and never the entry just inserted |
| LruPolicy.SweepIsExact | internal/cache/lru.go:363-398 | the sweep keeps exactly the unexpired items, in order, and removes exactly the files of the others |
| LruPolicy.TraceGood | internal/cache/lru.go:105-278 | over every trace: one item per key, total size within the limit, order by non-decreasing last use |
| LruPolicy.TraceStored | internal/cache/lru.go:105-278 | over every trace whose keys have distinct file names, each item's file holds the bytes last stored under its key, and is there unless some `Clear` failed |
| LruPolicy.HitReadsBack | internal/cache/lru.go:105-233 | after every such trace a hit reads back the bytes last stored |
| LruPolicy.CollidingNames | internal/cache/lru.go:402-413 | storing two different objects and reading the first gives its own bytes if and only if the escaped names differ |
| LruPolicy.EscapeCollides | internal/cache/lru.go:402-413 | two different keys with the same file name |
| LruTimes.HitIff | internal/cache/lru.go:105-171 | after every trace from the empty cache a Get hits if and only if its time is no later than the expiry time read by the last Put that stored the key plus the time to live, nothing has removed the entry since, and its file is there |
| LruTimes.ResidentIff | internal/cache/lru.go:105-398 | an entry is in the cache if and only if the key was stored and nothing since removes it: a failed replacement, a deletion or clearing, a sweep or access after its deadline, an access without its file, or a storing that it and the entries used later leave no room for |
| LruTimes.ItemTimes | internal/cache/lru.go:105-233 | every item has size and deadline of the last Put that stored its key, and the time of the last operation that stored or hit it |
| LruTimes.RecencyIsLastUse | internal/cache/lru.go:156-159 | the list is in order of these times of last use |
| CacheKeys.BlockKeyInjective | internal/handler/handler.go:88-90 | block keys are equal only for equal bucket, key, start and end, for arbitrary object keys and slash-free bucket names |
| CacheKeys.WholeKeyCanBeABlockKey | internal/handler/handler.go:916-918 | for every block there is an object name whose whole-object key is that block's key |
| CacheKeys.BlockFileNamesIff | internal/cache/lru.go:402-413 | two blocks share a cache file if and only if the escaped names of their whole objects are equal and they have the same bounds |
| SharedCache.OwnEntriesAgree | internal/handler/handler.go:814-889 | entries of one object, its blocks and the whole of it, never share a file unless they are the same |
| SharedCache.TraceStaysCorrect | internal/handler/handler.go:637-956 | for any objects of which no two share a cache file: over every trace of their reads, stores and prefetches, evictions, expiry, invalidations and failing clears, each file of each object holds that object's bytes |
| SharedCache.SharedCacheIff | internal/handler/handler.go:637-956 | every hit of every object reads its own bytes, whatever the contents, settings and operations, if and only if no two objects have a cache file in common |
| SharedCache.ShareFileIff | internal/cache/lru.go:402-413 | two objects have a cache file in common if and only if their escaped names are equal and their sizes match, or one is named like a block of the other; a condition on names and sizes |
| SharedCache.CollidingObjects | internal/cache/lru.go:402-413 | two different objects of one bucket and any equal size that share a file |
| BlockCache.CoverInterval | internal/handler/handler.go:802-812 | the computed blocks cover the interval, tile the fetched chunk exactly, and the interval sits in it at the computed offset |
| BlockCache.BlocksTile | internal/handler/handler.go:813-842 | appending the next block extends the collected bytes to a longer slice of the object |
| BlockCache.CutBlock | internal/handler/handler.go:870-886 | the piece that the splitting loop cuts out at its running offset is the block |
| BlockCache.RangeHandler.Interfere | internal/handler/handler.go:854-956 | any number of permitted operations of other requests keeps what every request relies on |
| BlockCache.RangeHandler.ReadBlock | internal/handler/handler.go:823-833 | a block found in the cache is the object's block, although other requests, prefetches, invalidations and expiry act before the lookup and between it and the reading of the file; no two objects may share a cache file, and a file is read and written in one step; with nobody else around, it is found exactly if the cache serves it |
| BlockCache.RangeHandler.ReadBlocks | internal/handler/handler.go:813-836 | with such interference at every step, success means that every block was found and that they are the covering slice in order; failure, that all but the last one looked at were found |
| BlockCache.RangeHandler.CacheBlocks | internal/handler/handler.go:870-886 | splitting and caching a fetched chunk, with interference before every store, keeps every file of every object correct |
| BlockCache.RangeHandler.ReadOrFetch | internal/handler/handler.go:813-886 | the covering slice, with no fetch if every block was found and otherwise with exactly one, of exactly those blocks |
| BlockCache.RangeHandler.ServeInterval | internal/handler/handler.go:802-900 | under the same conditions the payload is exactly the requested bytes with matching Content-Range values, whether all, some or none of the blocks were found, and whatever others do between its steps |
| BlockCache.RangeHandler.HandleRangeGet | internal/handler/handler.go:780-901 | for objects of which no two share a cache file, and with files read and written in one step: every response is the exact answer for the object whatever others do between its steps, falling back only for an empty object or a storage failure; it keeps every file of every object correct |
| BlockCache.RangeHandler.PrefetchBlocks | internal/handler/handler.go:922-956 | looks at no more than `count` consecutive blocks of the object and fetches exactly those it did not find, one by one, under any interference; with nobody else around and a working storage it looks at all of the following blocks up to that count |
| BlockCache.AskTwice | internal/handler/handler.go:780-901 | the same range asked for twice while nothing else goes on, the second time before the blocks expire, gets the same answer, the second time without any fetch, if the object fits the cache |
| BlockReuse.StoredBlocksHeld | internal/handler/handler.go:870-886 | blocks stored one after another are all served until their time to live is over, if they fit the cache together |
| BlockReuse.LookOnce | internal/handler/handler.go:813-836 | looking for the next block keeps what was found before, and misses only if the range was not held |
| BlockReuse.TraceTidy | internal/handler/handler.go:780-956 | a cache that was only used for the objects holds entries of these only |
| LruReuse.StoredAreHeld | internal/cache/lru.go:177-233 | entries stored one after another are all served as long as their time to live, if they fit together and share no file |
| RateLimit.BucketStaysOk | internal/backend/common/ratelimit.go:152-203 | no operation takes the tokens below zero or above the capacity |
| RateLimit.LevelRises | internal/backend/common/ratelimit.go:178-186 | between two times the level rises by at most what the rate produces |
| RateLimit.FirstSleep | internal/backend/common/ratelimit.go:160-175 | a sleep truncated to whole nanoseconds leaves less than one nanosecond of deficit |
| RateLimit.Retry | internal/backend/common/ratelimit.go:152-176 | there is no third sleep |
| RateLimit.ServableIffFits | internal/backend/common/ratelimit.go:152-176 | a request is ever served if and only if it is at most the capacity |
| RateLimit.TokenBucket.Take | internal/backend/common/ratelimit.go:152-176 | for every request: three passes serve one that fits the capacity, no number of passes serves one that does not, the bucket is the old one refilled to that time less the bytes taken, and the sleeps of a lone taker last no longer in all than the missing tokens take at the rate, at least a millisecond, and a millisecond more, and are none if the tokens are there |
| RateLimit.SleepOnce | internal/backend/common/ratelimit.go:167-175 | the bound on the sleeps, one pass at a time: the first sleep is at most what the missing tokens take, and a second one the shortest |
| RateLimit.TokenBucket.UpdateRate | internal/backend/common/ratelimit.go:188-203 | the bucket first earns at the old rate, then is clipped to the new capacity |
| RateLimit.RateChangeKeepsTokens | internal/backend/common/ratelimit.go:188-203 | a rate change keeps every token that the new capacity can hold, and no other |
| RateLimit.TokenBucket.Disable | internal/backend/common/ratelimit.go:205-218 | the bucket is unlimited from then on |
| Bandwidth.ChunksServable | internal/backend/common/ratelimit.go:25-27 | every chunk that a throttled reader can charge is served if and only if the cap is at least 1 Mbps |
| Bandwidth.BandwidthLimiter.UpdateBucket | internal/backend/common/ratelimit.go:52-67 | a positive cap changes the same bucket in place so that wrapped streams see it; otherwise the bucket is disabled for them and dropped |
| Bandwidth.BandwidthLimiter.UpdateCaps | internal/backend/common/ratelimit.go:38-50 | each positive cap leaves an enabled bucket of that rate in its slot, the old one or a new one where there was none; any other empties the slot and disables the old bucket; the three stay distinct |
| Bandwidth.BandwidthLimiter.Buckets | internal/backend/common/ratelimit.go:108-126 | a stream is charged to its direction's bucket and the combined one, each once and only if it exists |
| Bandwidth.StepPotential | internal/backend/common/ratelimit.go:152-203 | bytes granted plus the level, less the integral of the rate, never rises in any step, rate changes included |
| Bandwidth.GrantedInWindow | internal/backend/common/ratelimit.go:152-203 | over any window in which a bucket stays enabled, the bytes granted to all takers are at most the tokens at the start plus the integral of the rate |
| Bandwidth.ReturnedInWindow | internal/backend/common/ratelimit.go:225-253 | the bytes that all streams sharing a bucket return, both directions together for the combined one, obey the same bound plus what was already charged when the window began |
| ConcurrencyLimiter.AdaptiveConcurrencyLimiter.constructor | internal/server/concurrency.go:24-43 | any arguments give a limiter with 1 <= min = limit <= max |
| ConcurrencyLimiter.AdaptiveConcurrencyLimiter.Acquire | internal/server/concurrency.go:45-71 | through any rounds of waiting, with any requests of others during each, a request is admitted at the first look that finds the counter below the limit, is cancelled only when the context is done, and changes nothing else |
| ConcurrencyLimiter.AdaptiveConcurrencyLimiter.Release | internal/server/concurrency.go:73-111 | the counter, the average and the limit move as the specification of a release says |
| ConcurrencyLimiter.AlwaysWithinLimit | internal/server/concurrency.go:45-111 | in every reachable state min <= limit <= max and 0 <= inFlight <= limit, although the limit shrinks under running requests |
| ConcurrencyLimiter.AdmittedWithinLimit | internal/server/concurrency.go:45-71 | whatever happens during the wait, the bounds hold before and after the admission |
| ConcurrencyLimiter.InFlightCounts | internal/server/concurrency.go:45-78 | with paired releases the counter is the admissions minus the releases |
| ConcurrencyLimiter.EmaInRange | internal/server/concurrency.go:80-88 | the average always lies between the least and greatest positive duration seen |
| ConcurrencyLimiter.StepsAreLeast | internal/server/concurrency.go:80-88 | the excess of the average, which shrinks by 0.8 with each duration, is below a gap from an explicit least number of durations on, and not before |
| ConcurrencyLimiter.FastReleasesReachMax | internal/server/concurrency.go:80-111 | from any state, successful releases of at most d < 0.7 of the target raise the limit to max within the least settling number plus max - min releases |
| ConcurrencyLimiter.SlowReleasesReachMin | internal/server/concurrency.go:80-111 | from any state, releases of at least d > 1.5 of the target lower the limit to min within the least warming number plus max - min releases, even if all succeed |
| ConcurrencyLimiter.SteadyReleasesKeepLimit | internal/server/concurrency.go:93-108 | while average and durations are between 0.7 and 1.5 of the target, no run of successful releases moves the limit |
| ConcurrencyLimiter.AverageDecays | internal/server/concurrency.go:80-88 | under a constant duration the average's distance from it shrinks by exactly a fifth with each release |
| ConcurrencyLimiter.FailuresReachMin | internal/server/concurrency.go:94-107 | failures lower the limit by one each, to min and no further |
| Multipart.TableIsLast | internal/backend/azurefile/client.go:730-740 | the part table holds exactly the last upload of every part that was uploaded |
| Multipart.SortedIsAscending | internal/backend/azurefile/client.go:775-787 | the order of assembly is strictly ascending and holds every part once |
| Multipart.SortedIsUnique | internal/backend/azurefile/client.go:775-787 | it is the only such order |
| Multipart.OrderIndependent | internal/backend/azureblob/client.go:773-789 | the object does not depend on the order in which different parts were uploaded |
| Multipart.ReuploadReplaces | internal/backend/azureblob/client.go:732-742 | uploading a part again replaces its data and nothing else |
| Multipart.LateRecord | internal/backend/azureblob/client.go:725-742 | recording a part after other parts have been recorded makes no difference |
| Multipart.IgnoringTheListIff | internal/backend/azurefile/client.go:752-797 | ignoring the client's list of parts gives the object it asks for, whatever the contents, if and only if it lists exactly the uploaded parts |
| Multipart.ObjectSize | internal/backend/azurefile/client.go:789-797 | the object is as long as its parts together |
| Multipart.SizeAfterStore | internal/backend/azurefile/client.go:697-702 | storing a part adds its size less the size of what it replaces |
| Multipart.TotalSize | internal/backend/azurefile/client.go:697-702 | the loop over the table in arbitrary order computes the size of the object |
| PartOrder.PlaceLeast | internal/backend/azurefile/client.go:780-787 | one pass settles one more position and only rearranges |
| PartOrder.SortAscending | internal/backend/azurefile/client.go:780-787 | the in-place exchange sort leaves a sorted rearrangement |
| PartOrder.PartNumbers | internal/backend/azurefile/client.go:775-787 | the part numbers of a table, whatever the map order, come out as its ascending sequence |
| UploadProtocol.UploadIdIff | internal/backend/azurefile/client.go:650-651 | two uploads get the same id if and only if they begin at the same clock reading and bucket and key read the same once joined by a dash |
| UploadProtocol.UploadIdsCollide | internal/backend/azurefile/client.go:650-651 | two different objects whose uploads get one id |
| UploadProtocol.FindIff | internal/backend/azurefile/client.go:682-693 | an upload is found exactly by its own id and name while it is listed; an unknown id and a listed one under another name are refused, each in its own way |
| UploadProtocol.NewUploadIsFound | internal/backend/azurefile/client.go:650-670 | a new upload is empty and found, and takes the place of none but one with the same id |
| UploadProtocol.RemovedIsUnknown | internal/backend/azurefile/client.go:814-839 | a forgotten id is unknown, and no other upload is forgotten |
| UploadProtocol.UploadsAreIndependent | internal/backend/azurefile/client.go:650-839 | in every interleaving of the requests' critical sections, an upload's parts change only when a request that looked up that very upload records a part |
| UploadProtocol.NeverMissedIff | internal/backend/azurefile/client.go:752-821 | every completion of an upload that writes its object from now on includes a given part if and only if none is now between gathering without it and forgetting |
| UploadProtocol.CompletableIff | internal/backend/azurefile/client.go:752-821 | some completion can still write an object with the part if and only if the upload is in the table or a request has looked it up and may yet complete it |
| UploadProtocol.PartSurvivesIff | internal/backend/azurefile/client.go:675-821 | a part about to be acknowledged survives - its upload can still be completed, and no completion leaves it out from then on - if and only if, when it is recorded, no completion of the upload is between gathering and forgetting and the upload is in the table or looked up by another request |
| UploadProtocol.LostInTheWindow | internal/backend/azurefile/client.go:798-818 | a part recorded while a completion has written the object and not yet forgotten the upload is lost although its upload is in the table |
| UploadRuns.CompleteStores | internal/backend/azurefile/client.go:752-821 | whatever requests do between gathering and writing, the object is that of the parts gathered, the last data of each in ascending part number; the upload's parts by then are these and those recorded in between |
| UploadRuns.RunsAreTraced | internal/backend/azureblob/client.go:669-745 | in every interleaving of stagings, recordings and commits, an upload's recorded parts are exactly what the history of its object says, and none is recorded from gathering to commit |
| UploadRuns.StagedCompleteStores | internal/backend/azureblob/client.go:748-790 | a commit of an undisturbed upload stores the object of all parts that it has recorded |
| UploadRuns.BackendsAgree | internal/backend/azureblob/client.go:646-829 | in every interleaving of lookups, stagings, recordings, gatherings, commits, forgettings, aborts and failures, both backends hold the same uploads and objects, as long as every upload is undisturbed when it is committed |
| UploadRuns.StagedPartNeverMissedIff | internal/backend/azureblob/client.go:733-798 | with staged parts, every completion that reports success from then on includes the part just recorded if and only if none is between committing and forgetting |
| UploadRequests.AcceptedIff | internal/backend/azurefile/client.go:678-727 | the file backend admits a part exactly when the blob backend does and it is within the file backend's limits; both then take the same data |
| UploadRequests.RequestsAgree | internal/backend/azurefile/client.go:650-839 | the same for interleavings with parts that both refuse and with completions that fail, if every part that the blob backend takes is staged and within the file backend's limits |
| UploadedObjects.FileTakesIff | internal/backend/azurefile/client.go:678-727 | data is taken exactly if it is the front of the body, as long as declared, or the whole of an unbroken body when no length is declared, within the part limit, and the declared length fits the upload's limit |
| UploadedObjects.BlobTakesIff | internal/backend/azureblob/client.go:689-722 | the same without limits; above the threshold the whole body is read |
| UploadedObjects.PiecesMakeObject | internal/backend/azurefile/client.go:773-798 | recorded pieces of an object, all of them and nothing else, in any order and any number of times, make up the object |
| UploadedObjects.FilePiecesStored | internal/backend/azurefile/client.go:650-821 | whatever else goes on, other uploads, repeated, refused and broken parts and other completions included: if what is sent to an upload are pieces of an object, a completion that gathers when all are recorded stores exactly the object |
| UploadedObjects.BlobPiecesStored | internal/backend/azureblob/client.go:646-811 | the same with staged parts, if the upload is undisturbed when it is committed |
| UploadedObjects.FileStoresObject | internal/backend/azurefile/client.go:675-821 | end to end: a client that sends the pieces of an object in any order, with or without declared lengths, and completes, succeeds and the stored object is the client's |
| UploadedObjects.WithinLimits | internal/backend/azurefile/client.go:678-708 | no part of it is refused if each is sent once, none is larger than the part limit and the object is within the upload's limit |
| UploadedObjects.BlobStoresObject | internal/backend/azureblob/client.go:669-811 | end to end in the blob backend, whatever other uploads have left in the staging area |
| UploadedObjects.TagOfPieces | internal/backend/azureblob/client.go:773-811 | the entity tag of an object sent in pieces is the digest of the pieces' digests in the order of the object, with the number of pieces |
| UploadedObjects.ListedByFirstUpload | internal/backend/azurefile/client.go:733-740 | the file backend's listing order is that of the first uploads |
| UploadedObjects.ListedAt | internal/backend/azureblob/client.go:852-866 | the blob backend lists each part with the digest of its last data and the size zero |
| FileUploads.FirstUploadsCoverTable | internal/backend/azurefile/client.go:733-740 | the listing order holds every part of the table once and no other |
| FileUploads.BufferedUpload.Store | internal/backend/azurefile/client.go:729-740 | table and order stay those of the parts stored so far |
| FileUploads.BufferedUpload.Assemble | internal/backend/azurefile/client.go:773-798 | the assembled content is the object that the stored parts mean, and its size is right |
| FileUploads.FileBackend.Interfere | internal/backend/azurefile/client.go:650-839 | whatever requests do, uploads keep their names and only gain parts, and written objects stay written |
| FileUploads.FileBackend.Initiate | internal/backend/azurefile/client.go:650-670 | starts an empty upload under an id made of bucket, key and clock, replacing an upload with the same id |
| FileUploads.FileBackend.UploadPart | internal/backend/azurefile/client.go:675-749 | with any requests of others between the lookup, the check and the store: the admitted data, which `UploadedObjects.FileTakesIff` describes, is recorded in the upload that was looked up, wherever that is by now, and its digest returned; a failing check is reported and nothing stored |
| FileUploads.FileBackend.Complete | internal/backend/azurefile/client.go:752-821 | with any requests of others between the lookup, the gathering, the writing and the forgetting: the object of the parts as they were gathered is written, with its digest, and then the id forgotten; every failure changes nothing; the client's part list plays no role |
| FileUploads.FileBackend.Abort | internal/backend/azurefile/client.go:824-839 | forgets exactly that upload, for the right object only |
| FileUploads.FileBackend.ListParts | internal/backend/azurefile/client.go:842-870 | lists each part once, in order of first upload, with digest and size of its last data |
| UploadBound.BufferedBytesBounded | internal/backend/azurefile/client.go:678-740 | in every interleaving of k part uploads with declared sizes of at least m, buffered bytes stay within an explicit bound in k and m |
| UploadBound.BoundIsAttained | internal/backend/azurefile/client.go:678-740 | for every k and m some interleaving of requests that the proxy accepts reaches that bound exactly |
| UploadBound.LimitKeptIff | internal/backend/azurefile/client.go:678-740 | the documented limit is kept in every run if and only if nothing can pass the check, or parts come one at a time with positive declared sizes |
| UploadBound.NegativeSizesDefeatTheLimit | internal/backend/azurefile/client.go:679-708 | with a negative enough declared size, requests one at a time fill all 10000 parts |
| BlockStaging.BlockIdInjective | internal/backend/azureblob/client.go:686 | different part numbers, negative ones included, have different block ids |
| BlockStaging.BlockIdLength | internal/backend/azureblob/client.go:686 | block ids of part numbers below 10^10 are equally long, as the service requires |
| BlockStaging.CompleteIsSafe | internal/backend/azureblob/client.go:773-789 | committing an undisturbed upload gives the object of what it has recorded |
| BlockStaging.CompleteIsSafeIff | internal/backend/azureblob/client.go:686-789 | committing gives the object of what the upload has recorded, whatever the contents of all blocks, if and only if the block found under each of its parts is the one it recorded last: not staged again by any upload, this one included, and not dropped by a commit |
| BlockStaging.AloneIsUndisturbed | internal/backend/azureblob/client.go:686-789 | one upload at a time per object is safe if uploads of one part do not overlap and none is under way |
| BlockStaging.SecondUploadOverwrites | internal/backend/azureblob/client.go:686-729 | a second upload to the same object, never completed, replaces the first one's part |
| BlockStaging.ReuploadInProgress | internal/backend/azureblob/client.go:725-788 | a part that is staged again and not yet recorded when its upload is completed is committed under the digest of its old data |
| BlobUploads.CommitIsAssembled | internal/backend/azureblob/client.go:773-789 | committing the block ids in ascending part number is joining the parts in that order, and fails exactly if one is neither staged nor committed |
| BlobUploads.MirrorCommit | internal/backend/azureblob/client.go:786-788 | after a commit the service knows exactly the blocks of the committed parts |
| BlobUploads.TablesDescribeLastData | internal/backend/azureblob/client.go:736-742 | block id, digest and entity tag of a part are those of its last data |
| BlobUploads.StagedUpload.Store | internal/backend/azureblob/client.go:733-742 | the three tables stay those of the parts staged so far |
| BlobUploads.StagedUpload.Gather | internal/backend/azureblob/client.go:773-784 | block list and digest input are in the same, ascending, part order |
| BlobUploads.BlobBackend.Interfere | internal/backend/azureblob/client.go:646-829 | whatever requests do, uploads only gain parts, the history only grows, and a locked upload stays as it is |
| BlobUploads.BlobBackend.Initiate | internal/backend/azureblob/client.go:646-667 | starts an empty upload and leaves the staging area alone |
| BlobUploads.BlobBackend.UploadPart | internal/backend/azureblob/client.go:669-745 | with any requests of others between the lookup, the staging and the recording: the data read, which `UploadedObjects.BlobTakesIff` describes, is staged and then recorded in the upload that was looked up, or the first failure is reported |
| BlobUploads.BlobBackend.Complete | internal/backend/azureblob/client.go:748-811 | with any requests of others between the lookup, the gathering, the commit and the forgetting, save recordings in the upload while it is locked: the recorded parts are committed in ascending order under the digest of their digests, and then the id forgotten; a missing block or a failed commit changes nothing |
| BlobUploads.BlobBackend.Abort | internal/backend/azureblob/client.go:814-829 | forgets the upload and leaves its blocks behind |
| BlobUploads.BlobBackend.ListParts | internal/backend/azureblob/client.go:832-869 | lists each part once in ascending order with the digest of its last data and size zero |
| FileListing.WalkIsFilter | internal/backend/azurefile/client.go:459-522 | for every tree and prefix, also prefixes that end inside a name, the walk that skips directories lists what filtering the full walk lists, in the same order |
| FileListing.SkippingAddsNoFailure | internal/backend/azurefile/client.go:464-514 | where the unrestricted walk succeeds, so does every walk with a prefix |
| FileListing.Lister.ListPages | internal/backend/azurefile/client.go:464-514 | the closure appends exactly the walk's objects, or reports the first failing page |
| FileListing.Lister.ListDirs | internal/backend/azurefile/client.go:494-511 | the loop over subdirectories appends exactly what is found below those it enters |
| FileListing.Lister.ListFiles | internal/backend/azurefile/client.go:474-491 | the loop over files appends exactly the matching ones with their full paths, which `FileTree.ListingIsTree` describes |
| FileListing.ListAllObjects | internal/backend/azurefile/client.go:459-522 | the filtered full listing, or a failure that the full walk has too |
| FileListing.TokenRoundTrip | internal/backend/azurefile/client.go:545-558 | the token printed for a position is read back as that position |
| FileListing.NextPage | internal/backend/azurefile/client.go:539-558 | a page and what its token leads to make up what the previous token led to |
| FileListing.FollowingTokensListsAll | internal/backend/azurefile/client.go:531-561 | from the empty token, with any limits, a client ends within one request more than there are objects, having received every object once in order |
| FileListing.ListObjectsV2 | internal/backend/azurefile/client.go:531-561 | a page of the filtered full listing at the token's offset; a bad token starts from the top |
| FileTree.ListingIsTree | internal/backend/azurefile/client.go:459-522 | a listing under any prefix holds one object for each place in the tree that has a file whose full name has the prefix, in this order: page by page, on a page the files before the subdirectories; its key is the names on the way joined by slashes, its size the file's |
| FileTree.AtOnce | internal/backend/azurefile/client.go:459-522 | no place comes before itself in that order, so each file is listed once |
| FileTree.ListedIff | internal/backend/azurefile/client.go:459-522 | for names without slashes: an object with a given key and size is listed if and only if the parts of the key between slashes lead through the tree to a file of that size, and the key has the prefix |
| FileTree.FailsIff | internal/backend/azurefile/client.go:464-514 | a listing fails if and only if some page fails that is reached through directories whose paths can have a key in common with the prefix |
| DelimiterGrouping.MaxKeys | internal/handler/handler.go:270-282 | whatever the parameter, the limit is between 1 and 1000 |
| ListingLimits.MaxKeysIff | internal/handler/handler.go:270-282 | a parameter that spells a number from 1 to 1000 is used as it is, and anything else means 1000 |
| ListingLimits.PageIsFull | internal/backend/azurefile/client.go:531-561 | a page that another follows has exactly as many objects as asked for, and there is another if and only if more are left |
| ListingLimits.OffsetIff | internal/backend/azurefile/client.go:543-550 | a token that spells a position in the listing is obeyed, and anything else means the top |
| DelimiterGrouping.GroupOfIff | internal/handler/handler.go:311-321 | a key is grouped under a common prefix if and only if that is a prefix of the key whose first delimiter is at its end |
| DelimiterGrouping.GroupsArePrefixFree | internal/handler/handler.go:311-321 | no common prefix extends another, even for delimiters of several characters |
| DelimiterGrouping.Group | internal/handler/handler.go:305-363 | the loop with its set of seen prefixes gives the ungrouped objects in order and the groups in order of first appearance |
| DelimiterGrouping.GroupsAreWitnessed | internal/handler/handler.go:309-321 | a common prefix is listed exactly when some key of the page is in its group |
| DelimiterGrouping.GroupsAreDistinct | internal/handler/handler.go:309-321 | no common prefix is listed twice |
| DelimiterGrouping.ListedPrefixesArePrefixFree | internal/handler/handler.go:309-321 | listed common prefixes do not contain one another |
| DelimiterGrouping.PageIsPartitioned | internal/handler/handler.go:309-342 | every key of the page is either in Contents and under no listed prefix, or not in Contents and under exactly one |
| DelimiterGrouping.OrderOfFirstAppearance | internal/handler/handler.go:309-321 | common prefixes are listed in the order in which their groups first appear |
| DelimiterGrouping.KeyCountAtMostPage | internal/handler/handler.go:373 | the key count is at most the page size and zero only for an empty page |
| DelimiterGrouping.GroupingOverPages | internal/handler/handler.go:270-373 | a client that follows the tokens receives every ungrouped object once in order, and the same common prefix on two pages if and only if its group has keys on both |
| DelimiterGrouping.ListObjectsV2Handler | internal/handler/handler.go:262-380 | the response is the grouped page of matching objects and its key count is within the limit it reports |

## Left out

- HTTP, XML, routing, middleware, logging, telemetry, statistics, daemon, CLI, configuration and authentication code.
- Signature checks: they rest on hash functions and URL encoding. MD5 is an arbitrary function.
- The Azure services: a map of objects, a map of staged blocks and trees of listing pages, with failures at arbitrary points. The blob service is assumed to return exactly the bytes asked for, and to look block ids up among staged blocks first and committed ones next.
- Cache freshness after writes: the code invalidates only the whole-object key, so block entries of an older version can survive. The cache is about one version of each object; two versions count as two objects.
- Whole objects read from the cache: `SharedCacheIff` speaks of their cache hits; the handler around them and cache statistics are left out.
- Files on disk are a map from escaped names to contents; partial writes, races between checking and copying a file, and failing removals in the sweep and in evictions are not modelled.
- 64-bit overflow of offsets and sizes, for instance of `blobSize + chunkSize` in the concurrent reader, is not modelled; overflow of parsed numbers is.
- Trimming removes ASCII blanks only, not the other Unicode spaces.
- Floating point is replaced by real numbers; the truncation of waiting times to nanoseconds is kept.
- RateLimit.TokenBucket.Take: speaks of a lone taker, and of any number of passes of its loop, which never ends for a request above the capacity; the clock may take longer over a sleep than asked, and the bound is on the time asked for.
- Bandwidth: the three throttled reader types are one state machine of wrapped streams that read at most one chunk and then charge each bucket; `Seek` and `Close` are left out.
- ConcurrencyLimiter.AdaptiveConcurrencyLimiter.Acquire: a finite number of rounds; whether a waiting request is ever admitted depends on others and is not claimed.
- BlockCache.AskTwice: the storage may fail, and then a request falls back; the second request may come any time before the fetched blocks expire, but with blocks that were already cached only at the time of the first.
- BlockCache.RangeHandler.Interfere: others act between operations of the cache, each of which is atomic under its lock.
- BlockCache.RangeHandler.ReadBlock: the file is read without the cache's lock and a store removes and rewrites it in place, so in the source a read can meet a half-written file; reads and writes of a file are single steps here.
- FileUploads.FileBackend.Complete: writing the file is one step; a failed write leaves the object as it was.
- FileUploads.FileBackend.ListParts: one uninterrupted call, as is the listing of the blob backend.
- UploadedObjects.FileStoresObject: nobody else acts in between, as in the blob backend's case; `FilePiecesStored` and `BlobPiecesStored` are about company.
- UploadRequests.RequestsAgree: leaves out parts that only one backend takes, and parts whose staging fails, which has no counterpart in the file backend.
- BlockStaging.BlockIdInjective: the padded decimal text is the block id; its base64 form, a one-to-one encoding, is not spelled out.
- FileTree.ListingIsTree: no directory has an empty name, which the service does not allow.
- FileListing: items for which the service returns no name, and times and entity tags of listed objects.
- Listing in the blob backend, listing of uploads, versioning and lifecycle operations, copy and delete.
