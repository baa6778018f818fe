# Verified models of a proxy server's stateful kernels

The repository is a proxy in front of several model providers. Most of its code passes requests on; its hard logic sits in a few components that keep state across calls, across writes cut anywhere, or across processes. Each of them is modelled here, with proofs over every input, every run or every interleaving.

- **Replay caches** (`AntigravityReplay`, `AntigravityLocalReads`, `AntigravityHome`, `AntigravityReads`, `CodexReplay`, `CodexReads`, `ThinkingReplay`, `ThinkingRuns`, `ThinkingReads`, `Eviction`): optimistic-concurrency stores with revisions, branches, tombstones, time to live, batch eviction and byte accounting, in process and over a register with compare-and-swap that many processes share.
- **HTTP/1.1 header rewriter** (`StableOrder`, `HeaderOrder`, `HeaderMeaning`, `Scanner`, `ChunkedTracker`, `ChunkedBody`, `OrderedConn`, `WireMeaning`): a connection that reorders the header lines of the requests written through it and passes their bodies on. Three descriptions agree: one of the whole stream, one byte by byte, and the code's, in slices.
- **Channel monitor** (`Tally`, `Histogram`, `ChannelMemory`, `ChannelCounters`, `ChannelStore`, `ChannelQuery`, `ChannelTotals`, `ChannelService`, `ChannelReads`): a buffer, tables per minute and precomputed tables, read while flushes run. All agree with the direct aggregation of the records.
- **YAML** (`YamlTree`, `YamlMerge`, `YamlMatches`, `YamlCopy`): writing a configuration back into the document it came from, and copying a node graph.
- **Release flusher and cluster push** (`ReleaseFlusher`, `ClusterPush`): two protocols under a lock, as steps.
- **RESP** (`RespCodec`, `RespWire`): printing and reading the Redis serialization protocol.
- **Bounded LRU** (`BoundedLru`): a map into a list that refines the history of its uses.

`Text`, `TextLaws` and `Wrappers` hold what they share. `dafny verify dfyconfig.toml` checks all of it.

## How to read it

A section of code under a lock is one atomic method or one step; a protocol is any sequence of such steps. A method that works step by step is proved against a function or relation that says what it computes, and the lemmas are about that function or relation. The relations `Loads`, `Replaces`, ... of `AntigravityReplay` are the calls of its class `LocalCache`, those of `ThinkingReplay.Step` the calls of its class `Cache`, and a run is any sequence of them. `Shows(table, records, how, sum)` says that a table holds, key by key, the sums of the given records; a ghost list of records accompanies each table to this end and decides nothing.

Go strings are byte strings, here `string`; case folding and white space are those of ASCII. Revisions, branches, generations and tickets are fresh numbers. Tables of the database are maps, the arithmetic of percentiles is that of the reals, and the time is a parameter. The error that a sink, a sender or a database may report is chosen freely. A normalizer or an encoder whose code is not part of the model is a parameter about which nothing more is known than the lemma says.

## Where the code falls short of what one would expect

Each of these is a lemma here, beside the condition under which the code does meet the expectation.

- A precomputed row forgets samples exactly when its window is recomputed, for a sample that comes in late, after a sample of the row has been stored and deleted for its age: `ChannelStore.RowsExactly`, `ChannelStore.LateSampleForgets`.
- The window computed for a minute before 1970 need not contain it: `ChannelStore.ParentContains`.
- A query misses the records that were in flight when it copied the buffer and not yet stored when it read the rows, and just those; and as it reads metrics and errors one after the other, the two disagree exactly when a batch is committed in between: `ChannelReads.MissedExactly`, `ChannelReads.MissedAfterConflict`, `ChannelReads.PartsAgree`, `ChannelReads.InFlightIsMissed`, `ChannelReads.CommitTears`.
- A key of white space only is removed from a list element that takes over an original one, with whatever value it has, at any depth. The merge keeps the meaning exactly when no such key had a value worth keeping: `YamlMerge.MergeAgreesExactly`, `YamlMerge.BlankKeyIsLost`, `YamlMerge.NestedBlankKeyIsLost`.
- Of two overlapping cluster payloads the older can leave its hash beside the newer one's time stamp: `ClusterPush.HashIsOfNewest`, `ClusterPush.HashMayRegress`.
- Items that an overwrite stores before the first turn marker are forgotten by the next append, even of a turn that is there already. The executor stores only whole turns, and then such an append changes nothing: `CodexReplay.PresentTurnIsNoOp`, `CodexReplay.PresentTurnIsKept`, `CodexReplay.LooseItemIsForgotten`.

## Model

| member | source | states |
|---|---|---|
| `AntigravityReplay.FencedSnapshotNeverSucceeds` | internal/cache/antigravity_reasoning_replay_cache.go:229-272 | In every run of the local cache: once a key has been tombstoned, unconditionally overwritten, evicted, dropped as expired or cleared after a snapshot of it was loaded, no later replace or delete with that snapshot succeeds |
| `AntigravityReplay.BranchGrowsByExtension` | internal/cache/antigravity_reasoning_replay_cache.go:330-350 | The live item lists that a key holds under one branch id only ever grow by extension at the end, between any two states of a run |
| `AntigravityReplay.SnapshotSucceedsExactly` | internal/cache/antigravity_reasoning_replay_cache.go:330-381 | A loaded snapshot succeeds exactly while its key holds the revision it saw or, for a replace, a live chain on its branch that the new items extend; for a delete nothing but the revision will do |
| `AntigravityReplay.RunInvariant` | internal/cache/antigravity_reasoning_replay_cache.go:229-350 | At every state of every run revisions and branches are distinct and bounded by their counters, the capacity holds, and every snapshot handed out is tracked; each step only evolves the one before |
| `AntigravityReplay.FenceTakesHold` | internal/cache/antigravity_reasoning_replay_cache.go:100-141 | A fencing call takes the key off the branch that the snapshot saw |
| `AntigravityLocalReads.OverwriteReadsBack` | internal/cache/antigravity_reasoning_replay_cache.go:100-141 | What is written unconditionally is what the next load of the key hands out within the time to live, under a new revision and on a new branch, if there was room for it or it has not been evicted |
| `AntigravityLocalReads.ReplaceReadsBack` | internal/cache/antigravity_reasoning_replay_cache.go:330-350 | So it is with a replace that succeeds, on the snapshot's branch if what was loaded, or a later state of that branch, is extended, else on a new branch |
| `AntigravityLocalReads.DeleteReadsBack` | internal/cache/antigravity_reasoning_replay_cache.go:393-415 | After a deletion a load hands out no items, under a new revision and on a new branch |
| `AntigravityLocalReads.DeleteIfReadsBack` | internal/cache/antigravity_reasoning_replay_cache.go:369-382 | So it does after a conditional deletion that succeeds |
| `AntigravityLocalReads.MissReadsNothing` | internal/cache/antigravity_reasoning_replay_cache.go:229-272 | A load of an absent or expired key hands out no items, under a new revision and on a new branch |
| `AntigravityReplay.LocalCache.Load` | internal/cache/antigravity_reasoning_replay_cache.go:229-250 | A local read returns the live items, refreshes their time to live, and fences a miss or an expired entry with a tombstone of its own revision |
| `AntigravityReplay.LocalCache.ReserveAbsent` | internal/cache/antigravity_reasoning_replay_cache.go:255-272 | A reservation makes room first and writes a tombstone with a fresh revision, which the snapshot names |
| `AntigravityReplay.LocalCache.Overwrite` | internal/cache/antigravity_reasoning_replay_cache.go:100-141 | An unconditional write starts a new branch with a new revision and keeps the capacity by batch eviction |
| `AntigravityReplay.LocalCache.ReplaceIfUnchanged` | internal/cache/antigravity_reasoning_replay_cache.go:330-350 | A replace publishes on the snapshot's branch or on a fresh one exactly when the snapshot is current or its branch is extended, and otherwise changes nothing |
| `AntigravityReplay.LocalCache.DeleteIfUnchanged` | internal/cache/antigravity_reasoning_replay_cache.go:369-382 | A conditional delete leaves a tombstone only when the key still holds the very revision of the snapshot |
| `AntigravityReplay.LocalCache.DeleteRequired` | internal/cache/antigravity_reasoning_replay_cache.go:393-415 | An unconditional delete leaves a fencing tombstone |
| `AntigravityReplay.LocalCache.EvictOldest` | internal/cache/antigravity_reasoning_replay_cache.go:620-642 | A batch of the oldest entries leaves, in any order of ties, and every one of them counts in the eviction epoch |
| `AntigravityReplay.LocalCache.PurgeExpired` | internal/cache/antigravity_reasoning_replay_cache.go:644-653 | Exactly the expired entries leave, each counted in the eviction epoch |
| `AntigravityHome.EverySwapIsFair` | internal/cache/antigravity_reasoning_replay_cache.go:288-328 | With any number of clients interleaving over the shared register, every swap that succeeds finds there exactly the raw value its snapshot read or a live value on the snapshot's branch that it extends; it opens a branch only if nobody has used it |
| `AntigravityHome.RetryNeverForks` | internal/cache/antigravity_reasoning_replay_cache.go:288-328 | A replace that retries after a lost swap always writes the snapshot's own branch, with items that extend the snapshot's |
| `AntigravityHome.BranchesAreChains` | internal/cache/antigravity_reasoning_replay_cache.go:453-463 | Of two values ever stored on one branch the earlier is a prefix of the later |
| `AntigravityHome.LogGrows` | internal/cache/antigravity_reasoning_replay_cache.go:174-226 | What a longer run has stored extends what a shorter one has, so the chains hold across time |
| `AntigravityHome.ExecInv` | internal/cache/antigravity_reasoning_replay_cache.go:174-226 | The invariant of register, log and client phases holds after every interleaving of reads, reservations, swaps, re-reads, foreign writes, expiry and failures |
| `AntigravityReads.SwapReadsBack` | internal/cache/antigravity_reasoning_replay_cache.go:288-328 | In every run a swap that finds what it expects stores its items on its branch: the next read of any client hands out those, under a generation nobody has seen |
| `AntigravityReads.LostSwapStoresNothing` | internal/cache/antigravity_reasoning_replay_cache.go:288-328 | A swap that finds something else leaves the register as it was |
| `AntigravityReads.LostSwapRetries` | internal/cache/antigravity_reasoning_replay_cache.go:288-328 | A replace that lost its swap tries again, up to three times, over a live value of its branch that its items extend |
| `AntigravityReads.ReplaceReadsBack` | internal/cache/antigravity_reasoning_replay_cache.go:288-328 | In every run a replace with a current snapshot, undisturbed, is read back on the snapshot's branch if its items extend what the snapshot saw, else on a branch nobody has used |
| `AntigravityReads.SetReadsBack` | internal/cache/antigravity_reasoning_replay_cache.go:100-141 | An unconditional write is read back under a new generation on a branch nobody has used |
| `AntigravityReads.DeleteReadsBack` | internal/cache/antigravity_reasoning_replay_cache.go:369-415 | After a deletion, or one with a current snapshot, the next read hands out no items and a branch nobody has used |
| `AntigravityReads.ReserveReadsBack` | internal/cache/antigravity_reasoning_replay_cache.go:174-226 | A read that reserves an absent key hands out no items and a new branch, and the next reader is handed the same |
| `Eviction.SelectOldest` | internal/cache/antigravity_reasoning_replay_cache.go:620-642 | A batch of the given size that some order of equal time stamps could have removed: none of it is newer than what stays |
| `ThinkingReplay.Cache.Put` | internal/cache/kimi_thinking_replay_cache.go:200-211 | Setting an entry adjusts the running byte total to the sum over the entries |
| `ThinkingReplay.Cache.Enforce` | internal/cache/claude_thinking_replay_cache.go:437-445 | The enforcing loop ends with both caps kept, having dropped none that is newer than one that stayed; the reset for an empty map is unreachable |
| `ThinkingReplay.Cache.EvictOldest` | internal/cache/kimi_thinking_replay_cache.go:392-415 | One batch of the oldest leaves, whatever the order of ties, and the total stays the sum |
| `ThinkingReplay.Cache.Get` | internal/cache/claude_thinking_replay_cache.go:143-161 | A read renews a live entry and changes no other; else it reserves the key: the entry goes, a tombstone is written, the oldest are dropped until both caps hold, and the tombstone is written again. The total stays the sum, both caps are kept, and the snapshot names the generation the key now has |
| `ThinkingReplay.Cache.Store` | internal/cache/kimi_thinking_replay_cache.go:349-359 | An unconditional store keeps both caps and drops only the oldest |
| `ThinkingReplay.Cache.ReplaceIfUnchanged` | internal/cache/claude_thinking_replay_cache.go:197-212 | A replace succeeds exactly when the key still has the snapshot's generation (or is absent, if the snapshot found nothing); it keeps both caps, and a generation once consumed never succeeds again |
| `ThinkingReplay.Cache.DeleteIfUnchanged` | internal/cache/kimi_thinking_replay_cache.go:214-247 | A conditional delete leaves a tombstone with a new generation exactly while the snapshot is current, and without a loaded snapshot removes the key; the total stays the sum and, with a snapshot that a read hands out, both caps stay kept though they are not enforced |
| `ThinkingReplay.Cache.PurgeExpired` | internal/cache/kimi_thinking_replay_cache.go:417-426 | Exactly the expired entries leave and the total stays the sum |
| `ThinkingRuns.CapsHold` | internal/cache/kimi_thinking_replay_cache.go:152-426 | In every state of every run of reads, stores, replaces, deletes, purges and clears, with snapshots that earlier reads handed out, both caps hold: the number of entries and the sum of their bytes |
| `ThinkingRuns.EnforcedCaps` | internal/cache/claude_thinking_replay_cache.go:437-445 | Whatever batches of the oldest go, in any order of ties, enforcing ends with both caps kept and nothing dropped that is newer than what stayed |
| `ThinkingRuns.LostSnapshotNeverSucceeds` | internal/cache/claude_thinking_replay_cache.go:171-247 | In every run: once a key has lost, in whatever way, the generation that a read of it saw, no replace or delete with the snapshot of that read succeeds |
| `ThinkingRuns.SucceedsOnce` | internal/cache/claude_thinking_replay_cache.go:171-247 | In every run at most one replace or delete succeeds with one snapshot |
| `ThinkingReplay.AppendContent` | internal/cache/claude_thinking_replay_cache.go:366-381 | The loop over a Claude session's turns computes the appended session, of which `ThinkingReads.AppendKeepsTurns` and `ThinkingReads.SameTurnChangesNothing` say what it is |
| `ThinkingReads.AppendKeepsTurns` | internal/cache/claude_thinking_replay_cache.go:366-381 | A turn that is not there yet goes behind all that were, and of the oldest go no more than both session caps demand; none if all fits |
| `ThinkingReads.SameTurnChangesNothing` | internal/cache/claude_thinking_replay_cache.go:366-373 | A turn equal to one that is there, as JSON, changes nothing |
| `ThinkingReads.ClaudeTurnsReadBack` | internal/cache/claude_thinking_replay_cache.go:143-212 | After a replace a read of the session, if not evicted or expired, hands out the turns that were there, the new one behind them, less as many of the oldest as both caps demand |
| `ThinkingReads.KimiContentReadsBack` | internal/cache/kimi_thinking_replay_cache.go:152-211 | After a replace a read of a Kimi session, if not evicted or expired, hands out just the new content |
| `ThinkingReads.StoreReadsBack` | internal/cache/kimi_thinking_replay_cache.go:349-359 | A store is read back alone, under its new generation |
| `ThinkingReads.DeleteReadsBack` | internal/cache/claude_thinking_replay_cache.go:214-247 | After a deletion with a snapshot a read finds nothing, under a new generation |
| `ThinkingReads.MissReadsNothing` | internal/cache/claude_thinking_replay_cache.go:143-161 | A key that is absent or has expired is read as nothing, under a new generation |
| `ThinkingReplay.ClaudeAppend` | internal/cache/claude_thinking_replay_cache.go:366-381 | A Claude session stays within both session caps and keeps its newest turn |
| `ThinkingReplay.NewestIsLongest` | internal/cache/claude_thinking_replay_cache.go:374-380 | What is left of the turns is the longest suffix within both bounds |
| `ThinkingReplay.ClaudeGrowable` | internal/cache/claude_thinking_replay_cache.go:412-418 | Every content that is valid by its size may join anything a Claude session has |
| `ThinkingReplay.KimiGrowable` | internal/cache/kimi_thinking_replay_cache.go:374-380 | A Kimi content keeps a session in bounds exactly when it is within the bound itself |
| `CodexReplay.AppendsLinearize` | internal/cache/codex_reasoning_replay_cache.go:134-169 | With any number of clients the register is the outcome of some appends, overwrites and deletions one after another, in which every append that returned true occurs exactly once and every other at most once |
| `CodexReplay.EffectsWhileRunning` | internal/cache/codex_reasoning_replay_cache.go:134-169 | An append takes effect only while its call is running, as one swap of the value it read, with the turn of that call |
| `CodexReads.SwapStoresTurn` | internal/cache/codex_reasoning_replay_cache.go:134-209 | In every run a swap that finds what its call read returns true and leaves the call's turn in the register, whole and last, behind what was there less as many of the oldest turns as the bounds demand |
| `CodexReads.SwapKeepsPresentTurn` | internal/cache/codex_reasoning_replay_cache.go:189-209 | A swap of a turn that is there already returns true and leaves a register that begins with a marker as it was |
| `CodexReads.LostSwapStoresNothing` | internal/cache/codex_reasoning_replay_cache.go:134-169 | A swap that finds something else leaves the register as it was |
| `CodexReads.OverwriteReadsBack` | internal/cache/codex_reasoning_replay_cache.go:76-115 | An overwrite in bounds leaves just its items, a deletion nothing |
| `CodexReplay.TrimIsLongest` | internal/cache/codex_reasoning_replay_cache.go:211-229 | Trimming keeps the longest suffix of whole turns within the bounds, or nothing |
| `CodexReplay.Trim` | internal/cache/codex_reasoning_replay_cache.go:211-229 | The trimming loop ends and computes that suffix for 256 turns and 16 MiB |
| `CodexReplay.NewestTurnIsKept` | internal/cache/codex_reasoning_replay_cache.go:189-209 | A new turn that is in bounds itself is kept whole, with as many turns before it as fit |
| `CodexReplay.PresentTurnIsNoOp` | internal/cache/codex_reasoning_replay_cache.go:189-209 | In every run, whatever is stored, appending a turn id that is there already changes nothing exactly when the register begins with a turn marker |
| `CodexReplay.PresentTurnIsKept` | internal/runtime/executor/codex_executor_reasoning.go:797-811 | In every run in which all that is given to be stored begins with a marker, as the executor has it, appending a turn that is there already changes nothing |
| `CodexReplay.LooseItemIsForgotten` | internal/cache/codex_reasoning_replay_cache.go:190-192 | An item stored by an overwrite before the first turn is forgotten by appending that turn once more |
| `CodexReplay.RegisterFits` | internal/cache/codex_reasoning_replay_cache.go:134-229 | In every run with any number of clients the register is within both bounds |
| `CodexReplay.RegisterMarked` | internal/cache/codex_reasoning_replay_cache.go:134-229 | In every run in which turns are stored the register is empty or begins with a turn marker |
| `CodexReplay.AppendTurn` | internal/cache/codex_reasoning_replay_cache.go:189-209 | The append loop does what the specification of one append says |
| `OrderedConn.SplitsAgree` | internal/httpwire/ordered_conn.go:40-113 | For any two ways of cutting the same byte stream into writes, both without error, the bytes emitted and the bytes held back are the same, and they are those of the whole-stream transform |
| `OrderedConn.StreamIsWhole` | internal/httpwire/ordered_conn.go:40-113 | Byte by byte the connection does to a stream what the whole-stream transform does: each header reordered, each body as announced passed on, an incomplete header held back |
| `WireMeaning.LengthFramesBody` | internal/httpwire/ordered_conn.go:40-113 | A Content-Length line of a request that is not chunked makes exactly as many bytes after the empty line as its decimal number says the body, and the next header begins there |
| `WireMeaning.CountedRequest` | internal/httpwire/ordered_conn.go:40-113 | Of a request that is not chunked the header goes out reordered, its announced bytes as they are, and then what becomes of the rest of the stream |
| `WireMeaning.CountedPart` | internal/httpwire/ordered_conn.go:40-113 | A body that has not come to its announced end is passed on as far as it goes |
| `WireMeaning.ChunkedRequest` | internal/httpwire/ordered_conn.go:40-113 | Of a chunked request, whatever its length line says, exactly one encoded body is passed on, and the next header begins behind it |
| `OrderedConn.Connection.Write` | internal/httpwire/ordered_conn.go:40-113 | An error-free write reports all its bytes and has the effect of its bytes one by one; after a sink failure or a broken chunk the unreported bytes would lead on as before; too long and lost headers are told apart |
| `OrderedConn.Connection.WriteEach` | internal/httpwire/ordered_conn.go:40-113 | A series of writes without failure leaves the connection where its pieces lead byte by byte, and a new connection has sent, and holds back, what the whole-stream transform makes of the stream however it was cut; after a broken chunk the stream is broken |
| `OrderedConn.Connection.PassChunks` | internal/httpwire/ordered_conn.go:59-79 | Passing on what a look ahead on a copy of the tracker let through, and re-consuming just what was written, reaches the state the bytes lead to |
| `OrderedConn.Connection.PassHeader` | internal/httpwire/ordered_conn.go:83-110 | A header is complete at its first empty line even across writes; until then it is held back up to the limit |
| `OrderedConn.Sink.WriteAll` | internal/httpwire/ordered_conn.go:282-296 | Short writes are continued until all is written, or a failure is reported with what has been |
| `Scanner.ScanConcat` | internal/httpwire/ordered_conn.go:220-280 | Consuming a ++ b is consuming a and then b |
| `Scanner.Rescan` | internal/httpwire/ordered_conn.go:59-79 | Re-consuming the previewed prefix reaches the same state and completion; consuming less is still going |
| `ChunkedTracker.Tracker.Consume` | internal/httpwire/ordered_conn.go:220-280 | The tracker's loop over slices takes exactly the bytes, and ends in the state, that the bytewise machine does |
| `ChunkedTracker.DataRun` | internal/httpwire/ordered_conn.go:236-246 | A run of chunk data has the same effect at once as byte by byte |
| `ChunkedBody.TrackerIsReader` | internal/httpwire/ordered_conn.go:220-280 | On all data the tracker agrees with a recursive-descent reader of chunked bodies (section 7.1 of RFC 9112): the same end, still going, or malformed |
| `ChunkedBody.TrackerStopsAtTheEnd` | internal/httpwire/ordered_conn.go:220-280 | The tracker consumes exactly one encoded chunked body, with its sizes, extensions, data and trailers, and no byte of what follows |
| `ChunkedBody.PrintedSize` | internal/httpwire/ordered_conn.go:239-255 | A size printed in hexadecimal, with or without an extension, is read back as itself |
| `HeaderOrder.ReorderedHeader` | internal/httpwire/ordered_conn.go:115-156 | Reordering a header keeps its length, ends in the empty line, is idempotent, and leaves the computed Content-Length and chunked flag as they were |
| `HeaderOrder.OrderKeepsFraming` | internal/httpwire/ordered_conn.go:163-192 | Content-Length and the chunked flag do not depend on the order of the header lines |
| `HeaderOrder.OrderRequestHeader` | internal/httpwire/ordered_conn.go:115-156 | The code's splitting, reordering and rendering computes the reference: request line, then the stably ordered lines byte for byte |
| `HeaderOrder.SplitRender` | internal/httpwire/ordered_conn.go:116-117 | Splitting what was rendered gives the lines back |
| `HeaderOrder.RequestContentLength` | internal/httpwire/ordered_conn.go:163-177 | The loop finds the first Content-Length line, of which `HeaderMeaning.LengthIsRead` and `HeaderMeaning.LengthIsRefused` say what it gives |
| `HeaderMeaning.LengthIsRead` | internal/httpwire/ordered_conn.go:163-177 | The first line named Content-Length, in any case, gives the number whose decimal digits are its value, with white space around them; one beyond 64 bits counts as zero |
| `HeaderMeaning.LengthIsRefused` | internal/httpwire/ordered_conn.go:163-177 | A value that is blank, negative or has another character counts as zero |
| `HeaderMeaning.NoLength` | internal/httpwire/ordered_conn.go:163-177 | Without such a line the length is zero |
| `HeaderOrder.RequestUsesChunked` | internal/httpwire/ordered_conn.go:179-192 | Chunked exactly when some Transfer-Encoding line lists the coding |
| `HeaderMeaning.ChunkedIsRead` | internal/httpwire/ordered_conn.go:179-192 | A body is chunked exactly when the Transfer-Encoding line, named in any case, has that coding among those between its commas, in any case and with white space around it |
| `HeaderMeaning.NamesAreAsked` | internal/httpwire/ordered_conn.go:119-127 | The names asked for are those for the method and the target, the first two parts of the request line |
| `HeaderMeaning.HeaderEnds` | internal/httpwire/ordered_conn.go:83-110 | The first empty line of a stream is the one after the header lines |
| `WireMeaning.HeaderGoesOut` | internal/httpwire/ordered_conn.go:115-156 | The header that goes out has the request line and the lines that came in, ordered by the names asked for |
| `StableOrder.OrderIsPermutation` | internal/httpwire/ordered_conn.go:128-150 | No header line is lost, added or duplicated |
| `StableOrder.OrderIsStable` | internal/httpwire/ordered_conn.go:128-150 | Lines of equal rank keep their order |
| `StableOrder.OrderIsSorted` | internal/httpwire/ordered_conn.go:128-150 | Lines come in the order of the wanted names, unlisted ones last |
| `StableOrder.OrderIsIdempotent` | internal/httpwire/ordered_conn.go:128-150 | Ordering again changes nothing |
| `StableOrder.SameNameKeepsOrder` | internal/httpwire/ordered_conn.go:128-150 | Lines with the same name keep their order (section 5.3 of RFC 9110) |
| `StableOrder.ReorderLines` | internal/httpwire/ordered_conn.go:128-150 | The passes over a used array compute that order |
| `Tally.FoldShows` | internal/channelmonitor/query.go:337-370 | Grouping the rows of a table under coarser keys, on top of another table, shows the samples of both under the coarser keys |
| `Tally.Fold` | internal/channelmonitor/query.go:337-370 | The loop that folds rows into a table, in any order of the rows |
| `Tally.MergeShows` | internal/channelmonitor/memory.go:213-237 | Merging two tables shows the samples of both |
| `Tally.Merge` | internal/channelmonitor/memory.go:213-237 | The loop that merges one table into another |
| `ChannelMemory.Memory.Add` | internal/channelmonitor/memory.go:88-156 | Adding a record extends what the buffer holds by just that record, in the metrics and in the separately kept error rows |
| `ChannelMemory.Memory.MergeFrom` | internal/channelmonitor/memory.go:213-237 | Merging a buffer extends what is held by what the other holds |
| `ChannelMemory.Memory.Clone` | internal/channelmonitor/memory.go:198-211 | A clone is a new buffer with the same rows |
| `ChannelMemory.Memory.RequestCount` | internal/channelmonitor/memory.go:74-86 | The request count of a buffer is the number of records it holds |
| `ChannelMemory.CountRecord` | internal/channelmonitor/memory.go:108-155 | Counting a record adds its counters, of which `ChannelCounters.TotalSums` says what they are |
| `ChannelCounters.TotalSums` | internal/channelmonitor/memory.go:108-196 | However records are grouped, the counters of a group are sums over its records: failures and successes by their number, tokens, cache reads with their substitute, latencies in whole milliseconds with their number and the number in each histogram bucket; histograms have as many entries as there are latencies, and the failures by category are those of each category and add up to the failures |
| `ChannelTotals.SeriesNames` | internal/channelmonitor/memory.go:92-107 | A record counts under its trimmed names, and as unknown where the provider or the model is blank |
| `ChannelTotals.MinuteHolds` | internal/channelmonitor/memory.go:102-103 | The minute of a time from 1970 on contains it |
| `ChannelMemory.CategoriesAgree` | internal/channelmonitor/memory.go:118-131 | The per-category error counts that ride with the counters are those of the separate error rows, under minutes as under any coarser buckets |
| `ChannelMemory.CountersLawful` | internal/channelmonitor/memory.go:172-196 | Adding counters is associative and commutative with the empty ones as zero |
| `ChannelStore.ParentContains` | internal/channelmonitor/store.go:339-343 | The window computed for a minute contains it exactly from 1970 on, or when it starts on a multiple of the size |
| `ChannelStore.Recompute` | internal/channelmonitor/store.go:288-337 | Deleting and re-inserting a window's rows makes them the sums of its minute rows and leaves all others alone |
| `ChannelStore.PersistKeeps` | internal/channelmonitor/store.go:145-204 | Persisting a batch keeps that every precomputed row which is still held shows all that was ever stored in it, unless its window was recomputed when a sample of it was gone, and then does not |
| `ChannelStore.RetainKeeps` | internal/channelmonitor/store.go:359-391 | Deleting old rows keeps that, and what has been deleted lies before the latest minute cut |
| `ChannelStore.RecentRowsShow` | internal/channelmonitor/store.go:288-391 | Every precomputed row whose window starts at or after the latest minute cut is the sum of its minute rows, and of all that was ever stored in it |
| `ChannelStore.Store.Persist` | internal/channelmonitor/store.go:145-204 | One transaction: upsert the rows, then recompute the affected windows of all four sizes |
| `ChannelStore.Store.Retain` | internal/channelmonitor/store.go:359-391 | Minute rows go after seven days, precomputed rows after 7, 30, 45 and 90 |
| `ChannelTotals.OldRowsGo` | internal/channelmonitor/store.go:359-391 | Exactly the minute rows older than seven days go, and the precomputed ones older than 7, 30, 45 and 90 days by their size |
| `ChannelStore.LateWindow` | internal/channelmonitor/store.go:288-337 | A window that is recomputed shows all that was ever stored in it exactly when no sample of it has been deleted |
| `ChannelStore.RowsExactly` | internal/channelmonitor/store.go:145-391 | After any operations on the store a precomputed row that is still held shows all ever stored in it unless, in this order, a sample of it was stored, a deletion was made of minutes newer than that sample, and its window was recomputed; and then it does not |
| `ChannelStore.Store.HeldRowsExactly` | internal/channelmonitor/store.go:145-391 | So it is in every state of a store, with the operations that were done to it |
| `ChannelStore.LossyExactly` | internal/channelmonitor/store.go:145-391 | Those are just the rows that have lost something |
| `ChannelStore.GoneExactly` | internal/channelmonitor/store.go:359-391 | A sample is gone exactly when it was stored and a later deletion was of minutes newer than its own |
| `ChannelStore.LateSampleForgets` | internal/channelmonitor/store.go:145-391 | Storing a sample of the first minute of a day, deleting old rows a week later and storing one of the second minute leaves the day counting one sample of the two |
| `ChannelQuery.RangeAligned` | internal/channelmonitor/query.go:420-439 | Ranges consist of whole buckets of a precomputed size, the last of which is the current one |
| `ChannelTotals.RangeCovers` | internal/channelmonitor/query.go:420-439 | A range named 24h, 7d or 30d, with white space around the name, covers that time in buckets of an hour, half a day and a day |
| `ChannelTotals.OtherRange` | internal/channelmonitor/query.go:420-439 | Any other name means ninety minutes in buckets of five |
| `ChannelQuery.RangeIsKept` | internal/channelmonitor/query.go:420-439 | No range reaches back to precomputed rows that may have been deleted, and all but 30d stay clear of deleted minutes |
| `ChannelQuery.LoadedShows` | internal/channelmonitor/store.go:412-500 | What is loaded for a range shows all the records ever stored in it exactly when no row of the range has lost a sample |
| `ChannelQuery.RecentIsComplete` | internal/channelmonitor/store.go:359-391 | A range that starts at or after the latest minute cut has no such row |
| `ChannelQuery.LoadCounters` | internal/channelmonitor/store.go:412-500 | Metric rows and error rows together give the counters of the records, errors by category included |
| `ChannelQuery.CombineTable` | internal/channelmonitor/query.go:314-371 | The stored rows of a range with the buffered minutes folded in show exactly the stored and pending records that the query asks for |
| `ChannelQuery.SeriesPoints` | internal/channelmonitor/query.go:441-456 | One point per bucket covers the range exactly, zero where no row is |
| `ChannelQuery.PointsSum` | internal/channelmonitor/query.go:441-456 | The trend points sum to the total of all that they cover |
| `ChannelQuery.Snapshot` | internal/channelmonitor/query.go:76-100 | The total is that of all records asked for, each point that of its bucket, and the points add up to the total |
| `ChannelQuery.GroupBy` | internal/channelmonitor/query.go:32-56 | Grouping by bucket, credential or model is the direct aggregation under that key |
| `ChannelService.RunBalanced` | internal/channelmonitor/service.go:152-210 | In the books of any series of calls every accepted record is stored, in flight, pending or counted as dropped, and in one place only |
| `ChannelService.CountersConserved` | internal/channelmonitor/service.go:152-210 | Hence per minute and channel, stored, in-flight, pending and dropped counters add up to those of the accepted records |
| `ChannelService.Service.Serve` | internal/channelmonitor/service.go:152-261 | After any series of arrivals, flushes begun, committed and failed, and deletions, the tables show exactly the stored records, the batch in flight and the buffer exactly theirs, the count of dropped ones is right, and together they are the records that arrived, each once |
| `ChannelService.Service.AddRecord` | internal/channelmonitor/service.go:247-261 | A record is buffered, or dropped and counted when there is no database and the buffer is full |
| `ChannelService.Service.BeginFlush` | internal/channelmonitor/service.go:152-175 | The buffer is swapped out; the flush counts only if there is something to write |
| `ChannelService.Service.CommitFlush` | internal/channelmonitor/service.go:182-183 | A committed batch has moved from flight into all tables |
| `ChannelService.Service.FailFlush` | internal/channelmonitor/service.go:200-210 | A failed batch is merged back unless the buffer would grow too large, and is then counted as dropped |
| `ChannelService.Service.Collect` | internal/channelmonitor/query.go:252-297 | An undisturbed read equals the direct aggregation of the stored and pending records in the range |
| `ChannelService.ErrorsComplete` | internal/channelmonitor/store.go:145-391 | Where no metric row of a range has lost a sample, no error row has |
| `ChannelService.Service.SnapshotOf` | internal/channelmonitor/query.go:76-100 | The snapshot of a range, undisturbed: its total, and each point of its trend, are the sums of the fields of the stored and pending records whose minute lies in the range, or in the bucket, and whose channel is asked for; and the trend adds up to the total |
| `ChannelTotals.TotalIs` | internal/channelmonitor/query.go:76-100 | The total of the rows asked for is the sum over the records in the range |
| `ChannelTotals.PointIs` | internal/channelmonitor/query.go:441-456 | A trend point is the sum over the records in its bucket |
| `ChannelReads.NeverTwice` | internal/channelmonitor/query.go:252-297 | In every interleaving of arrivals, swaps, commits, merge-backs and the four attempts, no record is counted both from the store and from pending memory, in the metrics or in the errors |
| `ChannelReads.MissedExactly` | internal/channelmonitor/query.go:252-297 | An answer that no flush disturbed misses a record that was there, and not dropped, when the buffer was copied exactly when it was in flight then and not yet stored when the rows were read, for metrics and errors alike; all others are counted once, and later arrivals not at all |
| `ChannelReads.MissedAfterConflict` | internal/channelmonitor/query.go:284-292 | When the fourth attempt has to copy the buffer again, a record that is not dropped is missed exactly when it was not yet stored as the rows were read and no longer pending at the end |
| `ChannelReads.PartsAgree` | internal/channelmonitor/query.go:252-297 | The metrics and the errors of one answer count the same records exactly when no batch was committed between the two reads, and the errors are never behind |
| `ChannelReads.CheckDecides` | internal/channelmonitor/query.go:252-297 | In every run whether a flush with anything to write has begun since the copy is all that decides: without one the check answers, with one the query starts anew three times, and only on the fourth attempt the buffer is copied once more |
| `ChannelReads.AgainIsFourth` | internal/channelmonitor/query.go:284-292 | In every run an answer from a second copy comes from the fourth attempt |
| `ChannelReads.FourthAnswers` | internal/channelmonitor/query.go:284-292 | The fourth attempt always answers, so the conflict error does not happen |
| `ChannelReads.InFlightIsMissed` | internal/channelmonitor/query.go:252-297 | A record in flight throughout the read is missed and nothing is found amiss |
| `ChannelReads.CommitTears` | internal/channelmonitor/query.go:252-297 | A batch committed between the two reads is in the errors of the answer and not in its metrics |
| `Histogram.HistogramIndex` | internal/channelmonitor/histogram.go:13-23 | A latency falls into the first bucket whose bound it does not exceed |
| `Histogram.Percentile` | internal/channelmonitor/histogram.go:25-62 | A percentile exists exactly for a non-empty histogram and 0 < p <= 1, and is the interpolation in the first bucket whose cumulative count reaches the target |
| `Histogram.QuantileInBucket` | internal/channelmonitor/histogram.go:25-62 | A percentile lies within the bounds of that bucket |
| `Histogram.QuantileIsNearest` | internal/channelmonitor/histogram.go:25-62 | It is the whole number nearest to the point that lies as far into the bucket as the target does among the latencies of the bucket |
| `Histogram.PercentilesInOrder` | internal/channelmonitor/memory.go:285-292 | Percentiles of one histogram are monotone in p, so P50 <= P90 <= P95 |
| `YamlMerge.MergeAgreesExactly` | internal/config/config_yaml.go:179-281 | For every generated tree, any document and any path: after the merge every generated key agrees recursively with the generated value (absent only if zero or a known default, null standing for an empty list at most, lists with the generated length and order) exactly when no list element that takes over an original one, at any depth to which old values are merged, has a key of white space only with a value worth keeping |
| `YamlMerge.MergeAgrees` | internal/config/config_yaml.go:179-281 | So it does, whatever the document was, if no list of the generated tree has an element with such a key |
| `YamlMerge.MergeKeeps` | internal/config/config_yaml.go:179-213 | Keys that only the file has keep their value and all its keys their order; new keys come after them |
| `YamlMatches.ValueIsCarried` | internal/config/config_yaml.go:179-213 | A generated scalar that is neither zero nor the value of a known default, or an integer weight, stands under its key after the merge, whatever the document was |
| `YamlMatches.ZeroIsNotAdded` | internal/config/config_yaml.go:203-211 | A key that the document does not have is not added with a zero value, but for integer weights |
| `YamlMatches.ZeroIsPruned` | internal/config/config_yaml.go:354-388 | Nor does a new mapping bring zero values with it |
| `YamlMatches.NullStays` | internal/config/config_yaml.go:226-229 | Null in the document stands for an empty list as before |
| `YamlMatches.PprofAddress` | internal/config/config_yaml.go:308-352 | The default of pprof.addr is known under its path |
| `YamlMatches.RoutingStrategy` | internal/config/config_yaml.go:308-352 | That of routing.strategy is |
| `YamlMatches.PanelRepository` | internal/config/config_yaml.go:308-352 | That of remote-management.panel-github-repository is |
| `YamlMatches.ErrorLogFiles` | internal/config/config_yaml.go:308-352 | That of error-logs-max-files is |
| `YamlMatches.GoneKeysGo` | internal/config/config_yaml.go:628-657 | A list element that takes over an original one has only keys of the new element |
| `YamlMerge.MatchesAreDistinct` | internal/config/config_yaml.go:481-501 | No original list element is taken over twice |
| `YamlMerge.PrunedAgrees` | internal/config/config_yaml.go:354-388 | A new value without its defaults says what the whole one said |
| `YamlMerge.ZeroPruned` | internal/config/config_yaml.go:354-388 | What prunes to zero consisted of zeros and known defaults |
| `YamlMerge.ElementAgrees` | internal/config/config_yaml.go:628-657 | After removing the keys that are gone, a list element agrees exactly when each key of white space only had a value not worth keeping and each other key agreed before |
| `YamlMerge.ItemAgreesExactly` | internal/config/config_yaml.go:244-259 | Any list element agrees after the merge exactly when it is a copy, or has no such key itself and what is merged below its other keys survives |
| `YamlMerge.BlankKeyIsLost` | internal/config/config_yaml.go:628-657 | Such a key is lost even when an element is merged into one equal to it |
| `YamlMerge.NestedBlankKeyIsLost` | internal/config/config_yaml.go:244-259 | So it is in a list inside a list element that has no such key itself, and with a document equal to the generated one |
| `YamlMerge.MergeNodePreserve` | internal/config/config_yaml.go:218-281 | The recursive merge of one node computes the merged tree |
| `YamlMerge.MergeMappingPreserve` | internal/config/config_yaml.go:179-213 | The loop over the generated keys: merge in place, or add what is left after pruning |
| `YamlMerge.ReorderSequence` | internal/config/config_yaml.go:481-501 | The loop that assigns original elements to generated ones |
| `YamlMerge.MatchSequenceElement` | internal/config/config_yaml.go:503-544 | The search for one element computes its match, of which `YamlMatches.MatchIs` says which it is |
| `YamlMatches.MatchIs` | internal/config/config_yaml.go:503-544 | A mapping with an identity takes over the first unused mapping of equal identity, a scalar that is not blank the first unused one of equal value; where there is none, and for all others, it is the first unused element of equal structure, and none exactly if there is none |
| `YamlMatches.IdentityDecides` | internal/config/config_yaml.go:481-544 | Where the elements of both lists have distinct identities, each new one takes over the original one of its identity, whatever the two orders, and none exactly if there is none |
| `YamlMatches.IdentityIs` | internal/config/config_yaml.go:546-590 | A mapping is identified by the first of the well-known keys under which it has a scalar, up to case and white space, if that is not blank |
| `YamlMatches.StructureIdentity` | internal/config/config_yaml.go:503-590 | Elements of equal structure have equal identities |
| `YamlMerge.PruneMissingMapKeys` | internal/config/config_yaml.go:628-657 | The loop that removes entries whose key is gone |
| `YamlMerge.PruneKnownDefaults` | internal/config/config_yaml.go:354-388 | The loop that drops default-valued descendants of a new value |
| `YamlMerge.RemoveMapKey` | internal/config/config_yaml.go:659-669 | Only the first entry with the key goes |
| `YamlCopy.DeepCopy` | internal/config/config_yaml.go:436-459 | Copying ends on any finite graph, shared and cyclic edges included; exactly the reachable nodes have a fresh copy each, and the copies refer to one another as the nodes do |
| `YamlCopy.DeepCopySeen` | internal/config/config_yaml.go:440-459 | Every step keeps the copies made so far one-to-one, fresh and complete but for the nodes still open |
| `ReleaseFlusher.MarkKeeps` | internal/home/concurrency_release.go:76-99 | Recording a sequence keeps the invariant: Acked <= Latest, Acked was sent, every open waiter is above Acked and at most Latest |
| `ReleaseFlusher.AckKeeps` | internal/home/concurrency_release.go:207-228 | So does noting a successful send, which closes each covered ticket once |
| `ReleaseFlusher.AckedWasSent` | internal/home/concurrency_release.go:207-228 | A ticket is closed only after a send of at least its sequence succeeded, and is otherwise above Acked and at most Latest |
| `ReleaseFlusher.IdleHasNoWaiters` | internal/home/concurrency_release.go:234-265 | When no group has anything left to send, every ticket ever issued has been closed |
| `ReleaseFlusher.Flusher.MarkDirty` | internal/home/concurrency_release.go:76-99 | A ticket is handed out for every well-formed request, closed at once if its sequence has been acknowledged; nothing acknowledged is taken back |
| `ReleaseFlusher.Flusher.Ack` | internal/home/concurrency_release.go:211-228 | An acknowledgement raises Acked and never lowers it, closing just the tickets it covers; no channel is closed twice |
| `ReleaseFlusher.Flusher.CloseWaiters` | internal/home/concurrency_release.go:215-224 | The loops over the waiters close each ticket of a covered sequence once and keep the others |
| `ReleaseFlusher.Flusher.Idle` | internal/home/concurrency_release.go:256-265 | Idle exactly when no group has anything left to send |
| `ReleaseFlusher.Flush` | internal/home/concurrency_release.go:186-231 | With other goroutines stepping in between any two of its sections, a flush with a sender that reports no failure has had all that was dirty at its start acknowledged |
| `RespCodec.ArrayReads` | internal/api/redis_queue_protocol.go:413-485 | Reading a printed array returns its strings, with any bytes in them, and leaves the rest of the stream untouched; nil reads as the empty string |
| `RespCodec.CertificateReads` | internal/home/certificate.go:345-377 | The certificate client reads a printed bulk string back and takes nil for an error |
| `RespWire.WireFormat` | internal/api/redis_queue_protocol.go:511-541 | The bytes that are written for a string, the empty string, nil and an array |
| `RespWire.BulkEnds` | internal/api/redis_queue_protocol.go:455-475 | A bulk string that the stream ends in is not read, nor one that CRLF does not follow |
| `RespCodec.EncodeArray` | internal/home/certificate.go:330-343 | The certificate client prints what the server prints |
| `RespCodec.Reader.ReadArray` | internal/api/redis_queue_protocol.go:413-438 | The reader's answer, errors included, and the stream it leaves are those of the grammar |
| `RespCodec.Reader.ReadBulkString` | internal/api/redis_queue_protocol.go:455-475 | A bulk string: its size line, that many bytes, and CRLF; any negative size reads as empty |
| `RespCodec.Reader.ReadCertificateBulk` | internal/home/certificate.go:345-377 | The client's bulk reader: trimmed size, no look at the final CRLF, errors for nil and for a refusal |
| `RespCodec.Writer.WriteArray` | internal/api/redis_queue_protocol.go:528-541 | The printer appends the printed array, nil items as $-1 |
| `ClusterPush.SingleFlight` | internal/cluster/service.go:357-389 | In every run at most one pusher runs, and when none does the configuration has been read since a push was last asked for |
| `ClusterPush.Service.EnqueuePush` | internal/cluster/service.go:365-371 | The section of a request starts a pusher exactly when none is running, else leaves a mark for it |
| `ClusterPush.Service.PushDone` | internal/cluster/service.go:379-386 | The section after a push goes on exactly when a request came in meanwhile |
| `ClusterPush.UpdatedNeverRegresses` | internal/cluster/service.go:343-352 | The applied time stamp never moves backwards under any interleaving of apply calls |
| `ClusterPush.UpdatedIsNewest` | internal/cluster/service.go:343-352 | In every run it is the stamp of a payload that was marked, and no payload that was marked has a later one; there is none as long as none had one |
| `ClusterPush.HashIsOfNewest` | internal/cluster/service.go:300-352 | In every run that marks a payload hash and time stamp are those of one newest payload exactly when the last payload marked had a stamp and would not have been refused at the time it was marked (for the converse, payloads marked with an equal hash have an equal stamp) |
| `ClusterPush.UndisturbedCall` | internal/cluster/service.go:300-352 | A call that no other comes between leaves them so |
| `ClusterPush.HashMayRegress` | internal/cluster/service.go:300-352 | Two overlapping calls can leave the hash of the older payload with the time stamp of the newer |
| `BoundedLru.Cache.GetOrAdd` | internal/cache/bounded_lru.go:37-65 | The residents stay the most recently used keys, map and list agree, and what was created is resident or evicted, as multisets |
| `BoundedLru.Cache.Get` | internal/cache/bounded_lru.go:67-76 | A hit counts as a use, a miss changes nothing |
| `BoundedLru.Cache.Len` | internal/cache/bounded_lru.go:78-82 | The number of residents is that of the recent keys, up to the capacity |
| `BoundedLru.RecentByLastUse` | internal/cache/bounded_lru.go:37-76 | The reference list holds the used keys, each once, in the order of their last use |
| `BoundedLru.HitKeeps` | internal/cache/bounded_lru.go:39-44 | Moving an element to the front is what a further use makes of the recent keys within the capacity |
| `BoundedLru.MissKeeps` | internal/cache/bounded_lru.go:46-57 | So is pushing a new one and dropping the last |

## Left out

Replay caches

- AntigravityHome.ExecInv: a stored value is a marker with its generation, branch and items; its JSON text is not modelled, and a value that other code wrote appears as a foreign one that carries just what the normalizer accepts of it and belongs to no branch.
- AntigravityReplay.LocalCache.ReplaceIfUnchanged: items come normalized; the normalizer, the hash in the key and the check of the key's parts are not modelled. Revisions do not wrap around at 64 bits.
- CodexReplay.AppendsLinearize: an item carries what its JSON says of markers and turn ids; a register that cannot be parsed, the limit on a serialized value and the difference between a missing and an empty list are not modelled, nor is Codex's in-process map.
- ThinkingReplay.Cache.Store: does not promise that what was just written is still there, because a batch that frees bytes takes 128 entries whatever their age.
- ThinkingReplay.Cache.Get: a snapshot that found nothing is handed out only with an error, which no caller uses, and so is not part of a run; a generation is never issued twice; their 128 random bits are not modelled. A content is given with its size, and Home mode is left out, being the protocol of the Antigravity cache with fewer branches.
- The xAI replay cache and the signature cache: plain maps with a time to live.

HTTP/1.1 header rewriter

- OrderedConn.StreamIsWhole: the machine has no limit on the size of a header, because how much is buffered when the code looks at its limit depends on where the writes are cut; `OrderedConn.Connection.Write` says when the limit strikes.
- OrderedConn.Connection.Write: after a header could only be written in part, it says that what came out is a prefix of what was due and that the connection stands between two requests, not which bytes were lost.
- HeaderOrder.OrderRequestHeader: names are compared with ASCII case folding; the desired order of names for a target is a parameter.
- The mutex around a write, deadlines and closing.

Channel monitor

- ChannelService.Service.CommitFlush: the records of a batch are from 1970 on, since `ChannelStore.ParentContains` fails before; records of any time are buffered.
- ChannelService.Service.Collect: states the case in which no other step intervenes, and ranges without a row that has lost a sample (`ChannelQuery.LoadedShows` says that it must be so); `ChannelReads` has the interleavings, for records as such.
- ChannelService.Service.BeginFlush: the filter of what is recorded, the queue of usage events in front of the buffer, the ticker and the retry delay are not modelled.
- ChannelStore.Store.Persist: table semantics only, with metrics and latency histograms in one row; SQL, the pragmas, the opening and moving of the database file, and the watermark with which a response reports its coverage are left out.
- ChannelMemory.Memory.Add: counters do not wrap around at 64 bits; the sample message and the request id kept with an error are left out.
- ChannelReads.MissedExactly: the database stays the same during a query, apart from being closed; scalars and latency histograms are read at one time.
- Rates and averages derived from the counters, and the order of the groups in a response.

YAML

- YamlMerge.MergeAgrees: trees with distinct scalar keys, as a rendered configuration has, without aliases on the generated side; comments, styles, anchors and nodes shared within the old document are not modelled, nor are removed legacy keys. Merging twice need not be merging once, since pruning may change which elements match.
- YamlMerge.MatchSequenceElement: white space around an identity is ASCII.
- YamlCopy.DeepCopy: kind, tag, value, alias and children are copied; other scalar fields of a node are copied alike and left out.

Release flusher, cluster push, RESP and LRU

- ReleaseFlusher.Flush: the loop around it, its delays, the wake-up and force channels and the end of a waiting context are left out; other calls step in between its sections.
- ClusterPush.SingleFlight: what a push sends to each slave and the outcome there are left out.
- ClusterPush.HashIsOfNewest: parsing and saving a payload may succeed or fail and are not modelled further.
- RespCodec.Reader.ReadArray: says nothing of the stream after an error, and does not model how much memory a long announced size takes; the buffer behind the reader is the rest of the stream.
- The printers of simple strings, integers, errors and publications.
- BoundedLru.Cache.GetOrAdd: the created value is given; the code creates it only on a miss, under the same lock.
- Routes, middleware, authentication, TLS, sockets and clients; logging; the configuration's structs, sanitizers and validators; the terminal interface and the commands.
