# Verification models of a bounded-memory Qwen3.6 runtime

This project models, in Dafny, the parts of the runtime whose correctness is hardest to see
by reading them, and proves what they promise:

- **the incremental output decoder** and the batch parser it has to agree with: a stream cut
  anywhere must show what the whole text shows, and nothing sent may be taken back
  (`Text`, `StreamDecoder`, `ChunkIndependence`, `Generation`, `StreamAgreement`), both against what
  the model wrote (`Rendering`), and the decode loop that feeds it (`DecodeLoop`);
- **the expert caches**: the tile replay cache, an intrusive list over a slab with a hash index
  (`LruModel`, `TileCache`, `LruTheorems`, `LruReuse`, `TileReplay`); the live whole-expert cache, a
  transaction protocol with a prefetch thread beside it (`ExpertModel`, `ExpertEviction`,
  `ExpertPins`, `ExpertCache`, `ExpertPinLeak`, with the parallel reads it stages through in
  `FetchAll`); and the two whole-expert replays with the transition predictor (`ReplayModel`,
  `ReplayCaches`, `ReplayForesight`, `ReplayAgreement`, `ReplayInclusion`, `Predictor`);
- **the memory broker**: every interleaving of its locks, counters and snapshots
  (`MemoryLedger`, `BrokerProtocol`, `BrokerOutcomes`);
- **vector coding**: bit packing, grouped quantisation and the in-place Walsh-Hadamard rotation
  (`BitPacking`, `GroupedQuant`, `Hadamard`);
- **retrieval**: tokenisation, the lexical index and BM25 search, marker counting and
  incremental sync (`Tokens`, `Naming`, `LexicalIndex`, `LexicalSearch`, `LexicalRanking`,
  `MarkerScan`, `SyncEngine`).

Code that works by changing things step by step is a class or a method with loops, proved against
a function on values; the promises are then lemmas about that function. `hide` statements keep
each proof's context small. `dafny verify dfyconfig.toml` checks everything.

## Findings

- The stream is independent of how its text was cut **exactly** when no stop sequence is a proper
  prefix of `<tool_call>` and no watched string occurs strictly inside another that can win
  (`ChunkIndependentIffNoConflict`). Stops `abc` and `b` are the smallest counterexample.
- A route of the tile cache, of distinct experts, succeeds **exactly** when its own tiles fit,
  whatever is resident.
- `get_or_load` beside an active plan can break the plan's pins, and does **exactly** when, over
  its whole run of evictions, an unpinned copy of a pinned expert ends up in front of the pinned
  entry (`GetOrLoad`, `EvictionsKeepPinsIff`). It cannot while no unpinned entry repeats the key of
  a pinned one (`NoCopiesNoneMisplaced`), nor while every such copy is further from the end than
  the number of evictions (`CopiesOutOfReach`). It does happen, with predictions the predictor makes:
  one route demanded at two layers in turn, the second prefetch delivered after the first plan is
  finished, a second plan over the same eight experts, one load beside it and a successful finish
  leave a pin. In every run from any state no pin over the active plan's own is ever given back
  (`RunCache`), so this one stays whatever is called afterwards (`LatePrefetchLeaksPin`).
- The LRU policy replay succeeds **exactly** when there is nothing to replay or the distinct
  experts of every route, of a positive size, fit; with eight distinct experts in each route it then
  agrees with the prefetch replay at depth zero (`ReplaysAgreeExactlyWhenRoutesFit`). A route that
  names an expert twice is counted differently by the two: on an empty cache they agree on the hits
  **exactly** when its experts are distinct (`FirstRouteAgreesIff`).
- A broker snapshot's breakdown sums to its total **exactly** when the grants and releases between
  its two reads cancel out (`SnapshotAgreesIff`), in particular when no other call overlaps it
  (`UndisturbedSnapshotAgrees`). It can be torn (`SnapshotsCanTear`), but its peak is never below
  its total.
- The output a generation returns is the batch parser's for the text it pushed **exactly** when
  the run was not cut off (it ended with a tool call, at the end of stream, or because the client
  left) and the decoder emitted no shown text and no tool call after a failed send, in the same push
  or in the flush (`StreamedOutputMatchesBatch`). A client who hangs up during the push of
  `A</think>B` gets stop and no text (`HangUpLosesText`).
- The transition predictor's decay does what its comment says and a little more: the half-life is 23
  events, and three stale sightings stop outranking a fresh one after 37 (`HalfLife`,
  `FreshOutranksStale`).
- At width 1 the grouped quantiser's largest level is zero and it divides by it: groups of zeros
  come back, every other value is lost (`EncodeThenDecode`).
- Where comments and code disagree the model follows the code. `pack_bits` is called
  most-significant-bit first and is least-significant-bit first
  (`src/retrieval/tqvec.rs:46-67`). The prefetch replay's comparator says probation entries go
  first and sorts them last (`src/experts/prefetch.rs:226-233`; `ProbationLeavesLast`,
  `DemandedLeavesFirst`). The drain's test for demand looks at the expert and not at its layer
  (`src/experts/mod.rs:600`; `DemandIgnoresLayer`, `OtherLayerIsAdmitted`). `OwnerReserved` says
  nine owners and has ten (`src/memory/mod.rs:62-76`).

## Model

| member | source | states |
|---|---|---|
| `Text.FindIs` | src/runtime/stream_decoder.rs:211 | substring search finds the first occurrence, or reports that there is none |
| `Text.FindAnyIs` | src/runtime/stream_decoder.rs:283-292 | the earliest position over several needles, or none occurs at all |
| `Text.HoldIs` | src/runtime/stream_decoder.rs:295-301 | what is held back is the longest suffix that is a proper prefix of some watched string |
| `Text.HoldIsSafe` | src/runtime/stream_decoder.rs:26-30 | whatever text follows, no watched string completed later reaches into what was released |
| `Text.HoldIsNeeded` | src/runtime/stream_decoder.rs:295-301 | and no less may be held: some continuation completes a watched string at the first held character |
| `Text.FindAfterHold` | src/runtime/stream_decoder.rs:228-246 | searching the held suffix with the rest of the text finds what searching everything would |
| `StreamDecoder.TurnShrinks` | src/runtime/stream_decoder.rs:146-252 | every turn of the drain loop that goes round again shrinks pending plus tool buffer, so draining terminates |
| `StreamDecoder.SuffixThatCouldGrowInto` | src/runtime/stream_decoder.rs:302-321 | the loop with early exits returns exactly the hold |
| `StreamDecoder.IncrementalOutputDecoder.constructor` | src/runtime/stream_decoder.rs:89-103 | a fresh decoder, with the empty stop sequences dropped |
| `StreamDecoder.IncrementalOutputDecoder.PushText` | src/runtime/stream_decoder.rs:110-118 | events, error and whole new state are the push of the model; nothing happens once stopped or on empty text |
| `StreamDecoder.IncrementalOutputDecoder.Finish` | src/runtime/stream_decoder.rs:128-142 | a final drain, then `Length` inside a tool call, `ToolCalls` after one, `Stop` otherwise |
| `StreamDecoder.IncrementalOutputDecoder.DrainInto` | src/runtime/stream_decoder.rs:146-252 | the loop over five exits computes the recursive drain, on the error path too |
| `StreamDecoder.IncrementalOutputDecoder.DrainThinking` | src/runtime/stream_decoder.rs:153-171 | one turn before `</think>` |
| `StreamDecoder.IncrementalOutputDecoder.DrainToolCall` | src/runtime/stream_decoder.rs:173-189 | one turn inside a tool call: parse, keep waiting, or fail |
| `StreamDecoder.IncrementalOutputDecoder.TrimPending` | src/runtime/stream_decoder.rs:191-204 | newlines after `</think>` are dropped until something else arrives |
| `StreamDecoder.IncrementalOutputDecoder.DrainText` | src/runtime/stream_decoder.rs:206-250 | one turn of visible text: the first delimiter wins, a tie goes to the tool call |
| `StreamDecoder.IncrementalOutputDecoder.TakePrefix` | src/runtime/stream_decoder.rs:257-273 | removes and returns the prefix, all of it on the final flush |
| `StreamDecoder.IncrementalOutputDecoder.ToolBufferEnd` | src/runtime/stream_decoder.rs:275-280 | joins pending to the buffer and looks for the closing tag in both |
| `StreamDecoder.IncrementalOutputDecoder.FirstStopMatch` | src/runtime/stream_decoder.rs:283-292 | the earliest match of any stop sequence |
| `ChunkIndependence.RunDecoder` | src/runtime/stream_decoder.rs:110-142 | driving a decoder over a list of chunks is the model's run |
| `ChunkIndependence.WinnerAppend` | src/runtime/stream_decoder.rs:206-250 | without interference, a delimiter that wins in a prefix still wins when more text follows |
| `ChunkIndependence.EarlierMatchConflicts` | src/runtime/stream_decoder.rs:206-250 | a match that more text could displace means one watched string lies strictly inside another |
| `ChunkIndependence.DrainComposes` | src/runtime/stream_decoder.rs:146-252 | draining what has arrived and then the rest is draining everything at once, from every state |
| `ChunkIndependence.PushAllIsOneDrain` | src/runtime/stream_decoder.rs:110-118 | pushing chunk by chunk is one drain of the concatenation |
| `ChunkIndependence.RunIsOneShot` | src/runtime/stream_decoder.rs:110-252 | without interference every run equals the run on the uncut text: reasoning, text, calls, stopped, finish and failure |
| `ChunkIndependence.ConflictIsDependent` | src/runtime/stream_decoder.rs:210-228 | interfering stop sequences are always told apart by some text, whole and cut in two |
| `ChunkIndependence.ChunkIndependentIffNoConflict` | src/runtime/stream_decoder.rs:206-250 | the stream ignores chunking if and only if the stop sequences do not interfere |
| `ChunkIndependence.NestedStopsDependOnChunks` | src/runtime/stream_decoder.rs:283-292 | the counterexample: stops `abc` and `b` |
| `ChunkIndependence.PendingIsExactlyTheHold` | src/runtime/stream_decoder.rs:165-171 | after any non-final drain exactly the hold of the text since the last delimiter is pending, no more and no less, and the rest of that text has been released |
| `ChunkIndependence.NothingIsRetracted` | src/runtime/stream_decoder.rs:28-30 | what has been sent begins what the whole text shows, whatever follows |
| `Generation.FromModelText` | src/runtime/generation.rs:65-93 | the batch loop computes the recursive split into text and calls, with both protocol errors |
| `Generation.IntoOutput` | src/runtime/generation.rs:831-868 | shown text and calls in event order, reasoning left out, and `Length` when cut off |
| `StreamAgreement.TextDrainSplits` | src/runtime/generation.rs:65-93 | a drain without stops finds the batch parser's text and calls |
| `StreamAgreement.StreamMatchesBatch` | src/runtime/generation.rs:95-103 | for every text and every way of cutting it, the stream agrees with `from_qwen_continuation`; it fails exactly when a complete block does not parse, and an unterminated block gives `Length` |
| `Rendering.NewlinesTrimmed` | src/runtime/stream_decoder.rs:191-204 | trimming drops the carriage returns and line feeds in front of a text that begins with neither, and nothing else |
| `Rendering.BodyTrimmed` | src/runtime/stream_decoder.rs:181 | a tool body is handed on without the blanks around it (listed by code point) and otherwise whole |
| `Rendering.WrittenIsParsed` | src/runtime/generation.rs:65-119 | the batch parser reads back what was written: reasoning, `</think>`, newlines, text and `<tool_call>` blocks, a body that does not parse, a call left open |
| `Rendering.UnreasonedIsParsed` | src/runtime/generation.rs:109-119 | and the same without an end of reasoning, with an opening `<think>` or without one |
| `Rendering.WrittenIsShown` | src/runtime/stream_decoder.rs:110-252 | however the written answer is cut, the stream shows its reasoning, its text and its calls, each as it was meant; it fails exactly where a body does not parse and reports `Length` exactly where a call is left open |
| `Rendering.StopEndsTheText` | src/runtime/stream_decoder.rs:206-226 | where stop sequences do not interfere, the first to occur ends the answer: the text before it is shown, nothing of it or after it |
| `DecodeLoop.Deliver` | src/runtime/generation.rs:732-743 | events are collected and sent one by one, up to and including the first whose send fails |
| `DecodeLoop.DecodeTokens` | src/runtime/generation.rs:715-748 | the loop over sampled tokens on the decoder object is the model's loop, with its breaks and its protocol error |
| `DecodeLoop.Decode` | src/runtime/generation.rs:660-805 | loop, flush and delivery give the model's decode run: events collected, finish, end of stream, stopped, client gone |
| `DecodeLoop.LoopReads` | src/runtime/generation.rs:715-748 | only a protocol error, a stop sequence or the client cuts the loop short of the end of stream or the token budget |
| `DecodeLoop.LoopPushesAll` | src/runtime/generation.rs:728-743 | what was pushed went through the decoder once, and came out collected or, in the last push, dropped |
| `DecodeLoop.LoopDelivers` | src/runtime/generation.rs:735-748 | nothing is dropped unless a send fails, and then exactly the successful sends and one more event are collected |
| `DecodeLoop.GoneWhenSendsRunOut` | src/runtime/generation.rs:735-791 | the client counts as gone if and only if more events were emitted than sends succeed; at most two more than those are collected |
| `DecodeLoop.StreamedOutputMatchesBatch` | src/runtime/generation.rs:782-868 | for every token stream and every moment a client may leave, the output is the batch parser's for the text pushed if and only if the run was not cut off and no shown text or call came after a failed send; `Length` from the decoder is an unterminated block, and otherwise a cut-off run has the batch parser's text and calls; a protocol error is the batch parser's |
| `DecodeLoop.HangUpLosesText` | src/runtime/generation.rs:739-742 | the input that shows it: the client hangs up in the push of `A</think>B` |
| `TileCache.TileReplayCache.Unlink` | src/experts/tiling.rs:117-128 | takes one slot out of the list; the links still describe the rest in order |
| `TileCache.TileReplayCache.PushMru` | src/experts/tiling.rs:131-139 | puts a slot at the front; the links describe it before all others |
| `TileCache.TileReplayCache.SwapRemove` | src/experts/tiling.rs:181-217 | after `swap_remove` the renamed slot keeps its place, payload and index entry |
| `TileCache.TileReplayCache.Relink` | src/experts/tiling.rs:195-214 | the moved entry's neighbours, ends and index follow it to its new slot |
| `TileCache.TileReplayCache.EvictSlot` | src/experts/tiling.rs:181-217 | unlink, drop, relink and account come to removing one tile from the recency sequence |
| `TileCache.TileReplayCache.FindVictim` | src/experts/tiling.rs:160-175 | walking from the lru end finds the least recent unpinned tile |
| `TileCache.TileReplayCache.MakeRoomFor` | src/experts/tiling.rs:159-217 | the eviction loop is the model's, including where it gives up |
| `TileCache.TileReplayCache.CountDemands` | src/experts/tiling.rs:146-158 | demands, hits, misses and missing bytes of a route |
| `TileCache.TileReplayCache.TouchDemands` | src/experts/tiling.rs:218-250 | each demanded tile moves to the front or is fetched |
| `TileCache.TileReplayCache.RouteExact` | src/experts/tiling.rs:141-252 | the route on list, slab and index is the route on the recency sequence, success and failure |
| `TileCache.TileReplayCache.IndexMeansResident` | src/experts/tiling.rs:78-89 | the hash index holds exactly the resident keys |
| `TileCache.TileReplayCache.SlotPosition` | src/experts/tiling.rs:78-89 | and maps each to the slot that carries it in the list |
| `LruTheorems.MakeRoomIs` | src/experts/tiling.rs:159-217 | eviction keeps the pinned tiles and the longest recent run of the others that fits |
| `LruTheorems.TouchAllIs` | src/experts/tiling.rs:218-250 | serving a route puts it, last demand first, in front of what was kept |
| `LruTheorems.RouteIs` | src/experts/tiling.rs:141-252 | a route succeeds exactly when its own bytes fit, and its contents then are the route over the most recent others that fit |
| `LruTheorems.RouteKeepsInclusion` | src/experts/tiling.rs:159-250 | one route keeps a smaller cache a prefix of a larger one |
| `LruTheorems.LargerCacheIncludesSmaller` | src/experts/tiling.rs:159-250 | the LRU stack theorem for batched, pinned, variable-size routes: contents included, hits monotone, on every admissible trace |
| `LruTheorems.ReplaySucceedsIffAdmissible` | src/experts/tiling.rs:159-180 | a trace replays exactly when each route fits by itself |
| `LruTheorems.RouteKeepsBooks` | src/experts/tiling.rs:141-252 | one route keeps demands = hits + misses, reads = misses, fetched = resident + evicted, resident ≤ peak ≤ capacity |
| `LruTheorems.ReplayBalances` | src/experts/tiling.rs:46-64 | and so does every successful replay |
| `LruReuse.WastedIsNeverReused` | src/experts/tiling.rs:58-60 | `fetched_never_reused_bytes`, from the order of demands and hits alone: the bytes of the misses not followed by a hit of the same tile, less what is resident and may yet be hit |
| `TileReplay.ReplayTraceTiled` | src/experts/tiling.rs:257-291 | the trace loops compute the model's replay, with every error condition |
| `TileReplay.MinimumRouteCapacityIsEightExperts` | src/experts/tiling.rs:308-311 | the pin floor is eight whole experts under every tiling |
| `TileReplay.TileSizesAreAligned` | src/experts/tiling.rs:26-43 | every tile of every tiling is 4096-aligned |
| `TileReplay.RouteDemands` | src/experts/tiling.rs:142-158 | distinct experts demand each tile once, for all of their bytes |
| `TileReplay.CanonicalReplay` | src/experts/tiling.rs:308-311 | `minimum_route_capacity` is the exact threshold of the canonical replay, whose books balance and whose hits never fall with capacity |
| `FetchAll.ChunksCover` | src/io/mod.rs:87-101 | the chunks handed to the workers join up to the items, none is empty, and only the last can be short |
| `FetchAll.RunWorkers` | src/io/mod.rs:88-108 | in any completion order each worker has fetched, in order, as many of its items as it had turns |
| `FetchAll.FetchAll` | src/io/mod.rs:70-113 | with any worker count and any schedule every slot is filled once, the result is the serial map-collect, and no more threads are started than asked for |
| `FetchAll.CollectIs` | src/io/mod.rs:109-112 | all values in order, or the error of the lowest failing index |
| `FetchAll.NoMoreThanWorkers` | src/io/mod.rs:76-86 | the chunk size keeps the number of threads within the workers asked for, and is the smallest that does |
| `ExpertCache.WholeExpertLfuCache.RemoveEntry` | src/experts/mod.rs:1316-1333 | one entry goes, its bytes come off, unused speculative bytes count as wasted |
| `ExpertCache.WholeExpertLfuCache.FindColdest` | src/experts/mod.rs:1283-1314 | the victim is the first unpinned entry outside the route in eviction order, probation before demanded |
| `ExpertCache.WholeExpertLfuCache.EvictColdestExcluding` | src/experts/mod.rs:1283-1314 | the coldest entry outside the route goes, if there is one |
| `ExpertCache.WholeExpertLfuCache.MakeRoom` | src/experts/mod.rs:776-787 | evicts coldest first, only while the bytes do not fit, never an expert of the route; gives up only when nothing is evictable |
| `ExpertCache.WholeExpertLfuCache.AdmitDelivery` | src/experts/mod.rs:586-616 | one delivery becomes a probation entry if it fits or is demanded, and waste otherwise |
| `ExpertCache.WholeExpertLfuCache.DrainPrefetchInbox` | src/experts/mod.rs:576-621 | the inbox is taken in order; drained = promoted + wasted + still on probation; nothing is evicted |
| `ExpertCache.WholeExpertLfuCache.AdvancePrefetch` | src/experts/mod.rs:629-695 | the transition from the last route is observed, demand clocks are noted, and with prefetching on and no batch in flight one is started for what the predictor expects on the history so far, given what is resident at that layer |
| `ExpertCache.WholeExpertLfuCache.WorkerDelivers` | src/experts/mod.rs:672-694 | a thread delivers, at any moment, what of its batch could be read; no pin moves |
| `ExpertCache.WholeExpertLfuCache.WorkerRetires` | src/experts/mod.rs:690-694 | and gives its in-flight slot back |
| `ExpertCache.WholeExpertLfuCache.ValidateRoute` | src/experts/mod.rs:169-197 | accepted exactly when eight distinct experts below 256 have non-negative weights whose sum is within a ten-thousandth of one |
| `ExpertCache.WholeExpertLfuCache.PlanIds` | src/experts/mod.rs:700-727 | the hit mask is residence, the bytes are those of the misses |
| `ExpertCache.WholeExpertLfuCache.StageMisses` | src/experts/mod.rs:789-805 | every miss is read before any becomes visible; one failure stages nothing |
| `ExpertCache.WholeExpertLfuCache.BindPlanned` | src/experts/mod.rs:810-856 | every planned expert ends up bound and pinned, entry by entry; the lost-hit and unstaged-miss errors are unreachable |
| `ExpertCache.WholeExpertLfuCache.Materialize` | src/experts/mod.rs:752-857 | evict, read and bind; each failure leaves what eviction left, unpinned |
| `ExpertCache.WholeExpertLfuCache.PlanAndBind` | src/experts/mod.rs:700-857 | plan, evict, read and bind: the whole effect on success, and the exact cause of each failure |
| `ExpertCache.WholeExpertLfuCache.DrainIdle` | src/experts/mod.rs:576-621 | with no plan active a drain changes no expert's pins |
| `ExpertCache.WholeExpertLfuCache.BindIdle` | src/experts/mod.rs:700-857 | with no plan active a transaction that succeeds leaves each of its experts at least one pin more and takes none from the others, in any state; one that fails takes none away |
| `ExpertCache.WholeExpertLfuCache.DrainAndBind` | src/experts/mod.rs:745-857 | drain, validation and binding of one route, with each error's cause and the counters |
| `ExpertCache.HitsByRoute` | src/experts/mod.rs:1023-1047 | counting a chunk's hits expert by expert, with multiplicity, is counting its routes' resident experts |
| `ExpertCache.WholeExpertLfuCache.PrepareExactRoute` | src/experts/mod.rs:733-859 | the whole transaction from drain to binding; at most one plan; exactly the planned experts pinned if the pins were in order; resident bytes within capacity afterwards; from any state no stray pin is given back |
| `ExpertCache.WholeExpertLfuCache.PlannedExpert` | src/experts/mod.rs:861-887 | inside its plan a lookup always finds the expert, with the file's value; outside it is refused |
| `ExpertCache.WholeExpertLfuCache.ReleasePins` | src/experts/mod.rs:1178-1199 | one pin of each planned expert is given back and nothing else changes; the lost-pin error is unreachable |
| `ExpertCache.WholeExpertLfuCache.FinishExactRoute` | src/experts/mod.rs:1178-1199 | only the active plan can be finished, in every state it can, taking back no more than the plan's pins; no pin is left if the pins were in order |
| `ExpertCache.WholeExpertLfuCache.DistinctExperts` | src/experts/mod.rs:954-963 | the union of a chunk's routes, each expert once |
| `ExpertCache.WholeExpertLfuCache.PrepareBatchRoute` | src/experts/mod.rs:937-1074 | the same transaction over the union of several routes, without a drain; every demand for a resident expert is a hit, every missing expert one miss |
| `ExpertCache.WholeExpertLfuCache.PlannedBatchExpert` | src/experts/mod.rs:1079-1131 | a batch plan's lookups always succeed inside it |
| `ExpertCache.WholeExpertLfuCache.FinishBatchRoute` | src/experts/mod.rs:1133-1154 | releases exactly the batch's pins |
| `ExpertCache.WholeExpertLfuCache.GetOrLoad` | src/experts/mod.rs:1201-1269 | a hit is touched, a miss evicts and pushes; beside a plan the pins survive if and only if the evictions put no copy in front of a pinned entry, and always when there are no copies |
| `ExpertCache.WholeExpertLfuCache.LoadMissing` | src/experts/mod.rs:1217-1268 | makes room for one expert, reads it and pushes it, or reports the exact reason why it cannot |
| `ExpertEviction.EvictionsKeepPinsIff` | src/experts/mod.rs:1271-1333 | any run of evictions beside a plan keeps its pins if and only if it puts no unpinned copy of a pinned expert in front of it |
| `ExpertEviction.OnlyTheTailMoves` | src/experts/mod.rs:1316-1333 | a run of `n` evictions moves none but the last `n` entries |
| `ExpertEviction.NoCopiesNoneMisplaced` | src/experts/mod.rs:1271-1333 | while no unpinned entry repeats a pinned key no run of evictions can break the pins |
| `ExpertEviction.CopiesOutOfReach` | src/experts/mod.rs:1271-1333 | nor while every copy is further from the end than the run is long |
| `ExpertEviction.VictimGoesFirst` | src/experts/mod.rs:1296-1314 | in the entries' own fields: the victim is not pinned and not the route's; if any such entry is on probation it is; of its kind none is worth less, and of equals none was used longer ago, or has a smaller layer and expert |
| `ExpertEviction.GoneGoesBeforeKept` | src/experts/mod.rs:1283-1314 | over a whole run of evictions all that goes may go, and goes no later than anything that stays and might have gone; no demanded entry goes while a probation entry that may go stays |
| `ExpertEviction.NoMoreThanNeeded` | src/experts/mod.rs:776-787 | until the last eviction the bytes do not fit |
| `ExpertEviction.NothingElseMayGo` | src/experts/mod.rs:776-787 | where the run leaves too little room, only pinned entries and the route's own are left |
| `ExpertPins.RoomKeepsPins` | src/experts/mod.rs:1283-1333 | no run of evictions changes any expert's pins |
| `ExpertPins.BoundPins` | src/experts/mod.rs:810-856 | binding a transaction pins each of its experts once more, and no other, from any state |
| `ExpertPins.ReleasedPins` | src/experts/mod.rs:1178-1199 | a release takes at most one pin from each expert of its plan, wherever its lookups find them |
| `ExpertPins.InOrderHasNoSurplus` | src/experts/mod.rs:1178-1199 | with its pins in order a plan holds every pin there is |
| `ExpertPins.SurplusIsOutOfOrder` | src/experts/mod.rs:1178-1199 | a pin over the plan's own keeps the pins from being in order and its expert pinned |
| `ExpertPinLeak.Expected` | src/experts/prefetch.rs:86-119 | after one route at two layers in turn the predictor names its first expert for a transition it has seen, and nobody for one it has not |
| `ExpertPinLeak.LatePrefetchLeaksPin` | src/experts/mod.rs:576-621 | a run of the real calls, from an empty cache and with real predictions, whose plan is finished successfully and leaves a pin; after any further run of calls and prefetch steps the expert is still pinned and the pins are not in order |
| `ExpertModel.DemandIgnoresLayer` | src/experts/mod.rs:600 | the drain's test for demand differs from one of expert and layer exactly on a delivery for another layer of an expert the route names |
| `ExpertModel.OtherLayerIsAdmitted` | src/experts/mod.rs:600-616 | such a delivery enters a full cache |
| `ExpertCache.ForwardWithObserver` | src/experts/mod.rs:1485-1531 | the plan is released on success and on every failure, a computation succeeds exactly if no step of it fails, and the result is the route over the file's weights |
| `ExpertCache.Step` | src/experts/mod.rs:303-334 | every call and prefetch step, in every state, has its effect (`Happens`), keeps the accounts and gives back no pin over the plan's own; pins in order stay so unless a load's evictions misplace a copy |
| `ExpertCache.RunCache` | src/experts/mod.rs:303-334 | every interleaving of calls, single loads at any moment and prefetch steps, each of which happens, keeps the accounts, the in-flight bound and a pin on each planned expert, and never gives back a pin over the plan's own |
| `ExpertCache.CarefulRun` | src/experts/mod.rs:303-334 | where single loads, and nothing else, are left out while there are copies, exactly the planned experts stay pinned, once each |
| `ReplayModel.FindVictim` | src/experts/policy.rs:113-126 | the scan finds the entry that goes first, whatever the order of the vector |
| `ReplayModel.HoldingSwapRemove` | src/experts/prefetch.rs:238 | `swap_remove` drops one key and nothing else |
| `ReplayModel.EvictionIs` | src/experts/prefetch.rs:219-255 | eviction keeps pinned entries and makes room exactly when the pinned ones leave it |
| `ReplayModel.MarkEvictAdmit` | src/experts/prefetch.rs:265-328 | marking hits before evicting and admitting last equals evicting first and serving the route after |
| `ReplayModel.ProbationLeavesLast` | src/experts/prefetch.rs:219-236 | a probation entry is evicted only when no demanded entry is left to evict |
| `ReplayModel.DemandedLeavesFirst` | src/experts/prefetch.rs:226-233 | of a demanded expert and an older speculative one the demanded one goes |
| `ReplayModel.EvictedGoFirst` | src/experts/prefetch.rs:219-255 | over a whole run of evictions what goes goes before all unpinned entries that stay: demanded ones first, then by last use, layer and expert |
| `ReplayModel.FirstsAreAllIff` | src/experts/policy.rs:136-141 | a route has fewer distinct experts than names exactly when one is named twice |
| `ReplayCaches.ReplayCache.PlanMisses` | src/experts/policy.rs:134-154 | the distinct missing experts with their sizes, or the first unusable size, for routes that repeat experts too |
| `ReplayCaches.ReplayCache.MakeRoom` | src/experts/policy.rs:162-172 | the eviction loop on the vector is eviction on the contents |
| `ReplayCaches.ReplayCache.ServeOne` | src/experts/policy.rs:174-204 | a hit becomes most recent, a miss is admitted at its planned size; the lost-size error is unreachable |
| `ReplayCaches.ReplayCache.Route` | src/experts/policy.rs:128-206 | verdict, contents and counters of one route, whose repeated experts are hits; misses = evictions + resident entries |
| `ReplayCaches.PrefetchReplayCache.EvictFor` | src/experts/prefetch.rs:219-255 | demanded entries go first, then by last use, layer and expert; unused speculative bytes are wasted |
| `ReplayCaches.PrefetchReplayCache.Deliver` | src/experts/prefetch.rs:198-217 | a delivery is admitted on probation unless resident |
| `ReplayCaches.PrefetchReplayCache.Route` | src/experts/prefetch.rs:265-328 | contents and all counters of one route event, repeated experts or not; delivered = wasted + promoted + on probation |
| `ReplayCaches.ForeseenIsBounded` | src/experts/prefetch.rs:131-141 | precision cannot exceed one |
| `ReplayAgreement.RouteFits` | src/experts/policy.rs:155-172 | a route of uniform experts is served exactly when its distinct experts fit, whatever is resident |
| `ReplayAgreement.RunsAgree` | src/experts/policy.rs:128-206 | route by route of distinct experts both replays hold the same contents and counts |
| `ReplayAgreement.ReplaysAgreeExactlyWhenRoutesFit` | src/experts/prefetch.rs:336-398 | the policy replay succeeds if and only if the trace is empty or the distinct experts of each route, of a positive size, fit; with exact routes both replays then agree |
| `ReplayAgreement.FirstRouteAgreesIff` | src/experts/prefetch.rs:265-328 | on an empty cache the replays agree on a route's hits exactly when its experts are distinct |
| `ReplayAgreement.ReplayTrace` | src/experts/policy.rs:209-235 | the trace loop computes the model's run, with every error |
| `ReplayForesight.TargetsAre` | src/experts/prefetch.rs:376-380 | what is predicted after a route is the next layer of its step, and layer 0 at the step's end |
| `ReplayAgreement.ReplayPrefetch` | src/experts/prefetch.rs:336-398 | for every depth and every predictor each counter is the sum of what the trace and the predictor make each event count: predictions issued one event earlier, demands they name, experts fetched, hits, bytes paid for, and waste as what was neither demanded nor is left; precision and recall are at most one |
| `ReplayAgreement.NothingForetold` | src/experts/prefetch.rs:381-383 | at depth zero the replay is the one that prefetches nothing |
| `ReplayAgreement.CompareReplays` | src/experts/prefetch.rs:336-398 | when the policy replay of one trace succeeds, for any routes; with exact routes both replays then report the same hits and miss bytes |
| `ReplayInclusion.EvictedDidNotFit` | src/experts/policy.rs:162-172 | an expert is evicted only if what is used after it, with it, does not fit |
| `ReplayInclusion.KeptIsUpward` | src/experts/policy.rs:162-172 | nothing used after a kept expert is evicted |
| `ReplayInclusion.ServedIffFits` | src/experts/policy.rs:137-172 | a route of experts of any sizes is served exactly when its sizes are known, positive and fit |
| `ReplayInclusion.LargerPolicyCacheIncludesSmaller` | src/experts/policy.rs:113-206 | the inclusion theorem for the LRU policy: contents included, hits never fewer, miss bytes never more |
| `Predictor.TransitionPredictor.Observe` | src/experts/prefetch.rs:63-80 | lazily decayed scores stand for the eager decay of every sighting, and exactly the pairs sighted have one |
| `Predictor.WeightIsDecayedSightings` | src/experts/prefetch.rs:21-25 | a score is the sum of all sightings, each decayed by the events since |
| `Predictor.Predict` | src/experts/prefetch.rs:86-119 | the best candidates up to the budget, none resident, by total score and then expert |
| `Predictor.PredictionIsUnique` | src/experts/prefetch.rs:86-119 | the observed history alone decides the prediction, so neither the iteration order nor the contents of the tables can show |
| `Predictor.PredictionNamesTheBest` | src/experts/prefetch.rs:86-119 | a prediction names candidates only, each once and the better first, at most the budget; one is left out only where better ones use the budget up |
| `Predictor.HalfLife` | src/experts/prefetch.rs:21-26 | a score halves in 23 events and not before, and falls to a third in 37 and not before |
| `Predictor.QuietDecays` | src/experts/prefetch.rs:21-26 | events that do not show a pair only make its score decay |
| `Predictor.FreshOutranksStale` | src/experts/prefetch.rs:21-26 | three sightings, none among the last 37 events, do not outrank one in the last event |
| `MemoryLedger.PutThenGet` | src/memory/mod.rs:78-109 | a change to one owner's slot leaves the nine others alone |
| `MemoryLedger.GrantCharges` | src/memory/mod.rs:186-191 | a grant adds its bytes to the total and to one owner |
| `MemoryLedger.ReleaseDischarges` | src/memory/mod.rs:223-235 | a release takes off just its bytes, so neither saturating subtraction clips |
| `MemoryLedger.BreakdownSums` | src/memory/mod.rs:62-76 | a breakdown that shows the live leases sums to their total |
| `MemoryLedger.LegalStaysInBudget` | src/memory/mod.rs:175-186 | no history of fitting grants is ever over budget, not even at its peak |
| `MemoryLedger.NetIsTheChange` | src/memory/mod.rs:186-235 | the charge changes over a stretch of history by its grants less its releases |
| `MemoryBroker.MemoryBroker.Reserve` | src/memory/mod.rs:149-200 | uninterrupted: granted exactly when well formed and within what is left, and otherwise nothing changes |
| `MemoryBroker.MemoryBroker.Drop` | src/memory/mod.rs:222-236 | the lease's bytes come back, the peak stays |
| `MemoryBroker.MemoryBroker.Snapshot` | src/memory/mod.rs:202-219 | uninterrupted, the parts of a snapshot agree |
| `BrokerProtocol.StepKeepsInv` | src/memory/mod.rs:149-236 | every lock, unlock, read and write of every thread keeps the accounts, locks, leases and looks in order |
| `BrokerProtocol.ReservedIsTheLiveLeases` | src/memory/mod.rs:149-200 | in every interleaving `reserved` is the sum of the live leases, within the budget, and no lease leaks |
| `BrokerProtocol.AccountsAgreeWhenFree` | src/memory/mod.rs:170-236 | whenever the reserved mutex is free the breakdown sums to the total and the peak is the highest total ever |
| `BrokerProtocol.QuiescentMeansInHand` | src/memory/mod.rs:128-134 | with no call under way the live leases are exactly those callers hold |
| `BrokerProtocol.SnapshotsAreOrdered` | src/memory/mod.rs:202-219 | every snapshot shows three moments, the total's the earliest; so peak is never below reserved |
| `BrokerProtocol.SnapshotsCanTear` | src/memory/mod.rs:202-219 | a schedule whose snapshot's breakdown does not sum to its total |
| `BrokerProtocol.SnapshotAgreesIff` | src/memory/mod.rs:202-219 | in every interleaving a snapshot's breakdown sums to its total if and only if the grants and releases between its two reads cancel out |
| `BrokerProtocol.UndisturbedSnapshotAgrees` | src/memory/mod.rs:202-219 | a snapshot that no other call overlaps shows one moment, and its parts agree |
| `BrokerProtocol.NothingClips` | src/memory/mod.rs:78-109 | in every reachable state no saturating operation clips and nothing wraps |
| `BrokerProtocol.SomeThreadCanStep` | src/memory/mod.rs:149-236 | no deadlock: while a call is under way some thread can step |
| `BrokerOutcomes.PowerOfTwoIs` | src/memory/mod.rs:156-164 | the test for alignment accepts just the powers of two |
| `BrokerOutcomes.CallsBegin` | src/memory/mod.rs:149-236 | an idle thread can always reserve or take a snapshot, and can drop just what is in its callers' hands |
| `BrokerOutcomes.CallTurnsOut` | src/memory/mod.rs:149-236 | in every interleaving each call is decided at one moment between its start and its end: a well-formed request is granted in full if it fitted then and refused with what was available if not, an ill-formed one is refused, a drop has released its lease |
| `BrokerOutcomes.StepsRunDown` | src/memory/mod.rs:149-236 | a call takes at most fifteen steps of its own, its start among them, and no other thread sets it back |
| `BitPacking.PackBits` | src/retrieval/tqvec.rs:50-67 | the bytes hold the codes' bits in order, least significant first, then fewer than eight zero bits |
| `BitPacking.UnpackBits` | src/retrieval/tqvec.rs:69-86 | reads the codes back and never runs out of bytes |
| `BitPacking.FitsU32` | src/retrieval/tqvec.rs:50-86 | the accumulator stays within 32 bits |
| `BitPacking.SplitBits` | src/retrieval/tqvec.rs:56-60 | masking and shifting split a value's bits without loss |
| `BitPacking.PackThenUnpack` | src/retrieval/tqvec.rs:50-86 | the round trip, for every width from 1 to 8 and every length |
| `GroupedQuant.CodeIsNear` | src/retrieval/tqvec.rs:163-197 | a value in its group's range is coded without clipping and decoded within half a step |
| `GroupedQuant.CodesInRange` | src/retrieval/tqvec.rs:163-175 | every code fits its width, from width 1 on |
| `GroupedQuant.Encode` | src/retrieval/tqvec.rs:154-178 | group scales and packed codes are those of the values |
| `GroupedQuant.Decode` | src/retrieval/tqvec.rs:186-197 | each value comes back from its own code and its group's scale: within half that scale, or not at all where the scale is infinite |
| `GroupedQuant.HalvesGoOut` | src/retrieval/tqvec.rs:170 | codes are rounded half away from zero |
| `GroupedQuant.PeakComesBack` | src/retrieval/tqvec.rs:159-192 | a value of its group's largest magnitude comes back exactly |
| `GroupedQuant.EncodeThenDecode` | src/retrieval/tqvec.rs:154-197 | the whole round trip, for all 1024 values and widths 1 to 8: from width 2 on every value comes back to within half of its group's largest magnitude over `2^(bits-1)-1`, and exactly at that magnitude; at width 1 exactly the groups of zeros |
| `Hadamard.FwhtInPlace` | src/retrieval/tqvec.rs:258-277 | the in-place triple loop computes the recursive Walsh-Hadamard transform, normalised |
| `Hadamard.TransformInPlace` | src/retrieval/tqvec.rs:259-272 | for every power-of-two length |
| `Hadamard.LevelInPlace` | src/retrieval/tqvec.rs:261-271 | one pass over the array is one level of butterflies on every block |
| `Hadamard.LevelDoublesDot` | src/retrieval/tqvec.rs:261-271 | each level multiplies every inner product by two |
| `Hadamard.TransformScalesDot` | src/retrieval/tqvec.rs:258-277 | the transform multiplies every inner product by the length |
| `Hadamard.RotationSigns` | src/retrieval/tqvec.rs:246-256 | the loop generates the fixed xorshift64 sign vector |
| `Hadamard.FirstSigns` | src/retrieval/tqvec.rs:244-256 | the first states and signs of the generator, as numbers |
| `Hadamard.NeverZero` | src/retrieval/tqvec.rs:246-256 | the generator never reaches zero |
| `Hadamard.Rotate` | src/retrieval/tqvec.rs:284-292 | flips the fixed signs, then transforms, normalised: the rotation of the model |
| `Hadamard.RotationPreservesDot` | src/retrieval/tqvec.rs:279-292 | rotating both vectors leaves their inner product exactly as it was |
| `Tokens.RawTokensAreTheWords` | src/retrieval/lexical.rs:80-84 | raw tokens are the maximal runs of word characters, each where it stands in the text, in order, and together are all its word characters |
| `Tokens.SplitIdentifier` | src/retrieval/lexical.rs:88-121 | the loop computes the recursive split, with its lookahead and last-byte test |
| `Tokens.SplittingLosesOnlyUnderscores` | src/retrieval/lexical.rs:86-121 | the parts are non-empty and join up to the identifier without its underscores |
| `Tokens.IdentifierCuts` | src/retrieval/lexical.rs:88-121 | an identifier is cut exactly at its underscores and boundaries: no part contains one and every part ends at one on each side |
| `Tokens.OnePart` | src/retrieval/lexical.rs:66-75 | a token `may_split` rejects has just one part |
| `Tokens.TokenizeRaw` | src/retrieval/lexical.rs:40-64 | passing such tokens over changes no token stream |
| `Naming.LoweringIs` | src/retrieval/lexical.rs:46-60 | lowering turns each of the 26 capitals into its small letter and leaves all else alone |
| `Naming.LastByteIs` | src/retrieval/lexical.rs:103 | what is looked at of the character before is the last byte of its UTF-8 form |
| `Naming.BoundaryIs` | src/retrieval/lexical.rs:100-113 | where a part ends, as a table over capitals, small letters and digits |
| `Naming.SpeltIsSplit` | src/retrieval/lexical.rs:86-121 | an identifier spelt out of words in snake, camel, Pascal and screaming case, acronyms and numbers is split into exactly those words |
| `Naming.TermsAre` | src/retrieval/lexical.rs:40-64 | the terms of a text are the lowered forms of its words and of their parts, and nothing else |
| `LexicalIndex.Build` | src/retrieval/lexical.rs:153-212 | the built index says exactly what the documents say, in both lanes |
| `LexicalIndex.PostingsAreSorted` | src/retrieval/lexical.rs:138 | a postings list is strictly increasing by chunk, each entry the term's count there |
| `LexicalIndex.PostingsAreComplete` | src/retrieval/lexical.rs:176-182 | and lists every chunk the term occurs in |
| `LexicalIndex.CountsSumToLength` | src/retrieval/lexical.rs:166-182 | a chunk's counts sum to its token count |
| `LexicalIndex.ExactListsOccurrences` | src/retrieval/lexical.rs:184-197 | the exact lane lists a chunk if and only if the raw token occurs in it, once and in order |
| `LexicalIndex.ExportRoundTrips` | src/retrieval/lexical.rs:220-278 | exporting a built index and rebuilding it is the identity |
| `LexicalIndex.ExactLookupIs` | src/retrieval/lexical.rs:335-344 | exact lookup names the documents holding the identifier |
| `LexicalSearch.FrequencyIsListLength` | src/retrieval/lexical.rs:314 | a postings list is as long as the number of documents with the term |
| `LexicalSearch.ScoreAll` | src/retrieval/lexical.rs:309-323 | the scores accumulated through the index are the BM25 sums over the documents, for exactly the chunks that match |
| `LexicalSearch.Rank` | src/retrieval/lexical.rs:324-326 | all scored chunks, best first |
| `LexicalSearch.SearchWithParams` | src/retrieval/lexical.rs:297-331 | the matching documents with the highest query scores, with their paths and scores |
| `LexicalRanking.ScoreIsPositive` | src/retrieval/lexical.rs:314-321 | a term that occurs scores something |
| `LexicalRanking.RarerScoresMore` | src/retrieval/lexical.rs:314-321 | the fewer documents have the term the more it scores, strictly |
| `LexicalRanking.OftenerScoresMore` | src/retrieval/lexical.rs:314-321 | the more often it occurs the more, strictly |
| `LexicalRanking.LongerScoresLess` | src/retrieval/lexical.rs:314-321 | the longer the document the less, strictly |
| `LexicalRanking.AverageLengthIsNeutral` | src/retrieval/lexical.rs:319-320 | a document of average length scores as if there were no lengths |
| `LexicalRanking.AverageTimesCount` | src/retrieval/lexical.rs:200-204 | the average length times the number of documents is all their tokens |
| `LexicalRanking.RarerOftenerShorterFirst` | src/retrieval/lexical.rs:297-331 | in every answer, of two documents that match one query term each, asked for equally often, the one with the rarer term, the more occurrences or the fewer tokens stands first, if neither of the others speaks against it |
| `MarkerScan.CountMarkers` | src/retrieval/classify.rs:353-372 | one overlapping scan with a cursor per pattern counts what rescanning for each pattern alone would |
| `MarkerScan.Counted` | src/retrieval/classify.rs:365-372 | a match at or after the cursor is the next one a rescan would find |
| `MarkerScan.RescanIsDisjoint` | src/retrieval/classify.rs:356-362 | what a rescan counts are occurrences that do not overlap |
| `MarkerScan.RescanIsMost` | src/retrieval/classify.rs:356-362 | and no choice of occurrences that do not overlap is larger |
| `SyncEngine.FullCorrectnessWalk` | src/retrieval/sync.rs:75-108 | every path is reported once, by its standing against the table, and the contents are the readable Rust files |
| `SyncEngine.LiveIs` | src/retrieval/sync.rs:85-99 | sync sees a path exactly if it is a readable Rust file's, with that file's text |
| `SyncEngine.SyncEngine.ApplyStructuralLexical` | src/retrieval/sync.rs:143-180 | the state after a commit, for any plan and contents |
| `SyncEngine.SyncEngine.RecordFresh` | src/retrieval/sync.rs:161-174 | new and changed paths are recorded and marked pending |
| `SyncEngine.SyncEngine.DropDeleted` | src/retrieval/sync.rs:175-179 | deleted paths leave all three maps |
| `SyncEngine.SyncEngine.ProcessPendingSemantic` | src/retrieval/sync.rs:188-208 | at most the budget is taken off the backlog, each path with contents gets their vector, and an embedding failure stops there |
| `SyncEngine.SyncEngine.DrainBacklog` | src/retrieval/sync.rs:182-208 | any positive budget, repeated, empties the backlog or stops at a file that cannot be embedded |
| `SyncEngine.SyncEngine.Sync` | src/retrieval/sync.rs:61-180 | walk and commit leave the engine current with what was walked |
| `SyncEngine.ApplyKeepsCurrent` | src/retrieval/sync.rs:143-180 | after a commit the table is exactly path to hash, and every live path is pending or has a vector for its recorded hash |
| `SyncEngine.RewalkReportsOnlySame` | src/retrieval/sync.rs:85-106 | an immediate re-walk reports only unchanged paths |
| `SyncEngine.BatchIs` | src/retrieval/sync.rs:195-207 | a batch comes off the backlog exactly, and its vectors are those of the contents |
| `SyncEngine.BatchKeepsCurrent` | src/retrieval/sync.rs:188-208 | processing on the last walked contents keeps the engine current, whether or not it stops short |
| `SyncEngine.DocumentsAreTheLiveFiles` | src/retrieval/sync.rs:148-158 | the lexical lane is rebuilt over every live file, each once |

## Left out

- HTTP servers, the command line, reporting, GUI, MCP transport, process launch, configuration files and file watching.
- Model kernels, GPU residency and uploads, the router softmax and the embedding encoder: an expert is a key with a value and a byte size, weights are reals, a loader is a function that may fail, an embedding with its normalisation is one function that may fail.
- `parse_tool_call`, JSON, content hashing and the automaton of the marker scan: functions, or a contract (every occurrence reported, by nondecreasing end).
- Text is a sequence of characters, so rounding to character boundaries disappears; only the splitter's look at the last UTF-8 byte is kept.
- Floating point: scores, weights, scales and rotations are reals, so IEEE rounding, NaN and infinities (but for the infinite scale at width 1), the half-precision rounding of group scales and the accumulation order of scores are not modelled.
- Counters and clocks are naturals: saturation and wrap-around are not modelled, except in the memory broker and the bit packer, where bounds are proved.
- Masks, shifts and ors in the bit packer are division, remainder and sum; that no carries arise is proved.
- The LFU and decayed keep-values of the live cache are a function of the entry and the clock; the policy replay is modelled for `Lru`.
- A call of the live cache reads the prefetch inbox once, so prefetch threads step between its calls; `demand_io_nanos` and plan identifiers' wrap-around are not kept.
- The routes of `replay_trace_tiled`'s canonical theorem are of distinct experts, as the router guarantees; a tile route that repeats an expert counts its bytes again.
- `pack_sign_bits`, `hamming`, score functions, the raw fingerprint scores and the choice of a winner, the debounce queue and the bounded event sink: they would only add easy members.
- `DecodeLoop`: cancellation, tokenizer and model errors, and token counts; the sampled tokens with their texts are the input, and a client is the number of sends that still succeed.
- Poisoned mutexes and panics of worker threads.
- The persisted forms of `export` are values; the file format that stores them is not part of this model.
- GroupedQuant.Encode: widths 1 to 8; a width of 0 shifts by a negative amount, and above 8 a code is cut to a byte. A multiple of infinity is no value here, where the source has a NaN.
- SyncEngine.SyncEngine.DrainBacklog: a loop over the source's method, which itself only promises one call.
- SyncEngine.ApplyKeepsCurrent: a changed file whose hash does not change is not seen, so vectors are those of a text with the recorded hash.
- ReplayAgreement.ReplayPrefetch: the predictor is an argument, any function of the routes seen; that the source's predictions are one, over reals, is `Predictor.PredictionIsUnique`.
- Predictor.Predict: the candidate list is a map until it is sorted.
