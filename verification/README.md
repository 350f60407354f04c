# Verified model of tradingview-go

A Dafny model of the SDK's stateful parts, and proofs of what they promise over every input, every run and every
interleaving. `dafny verify dfyconfig.toml` checks all of it.

| file | modules | what of the SDK |
|---|---|---|
| `Types.dfy` | `Types` | candles and chart data |
| `ValueArea.dfy` | `RealSums`, `ValueArea` | the POC scan and the greedy value area of the volume profile |
| `VolumeProfile.dfy` | `VolumeProfile` | binning of candles, `compute` as a whole |
| `CacheSpec.dfy` | `CacheSpec` | the TTL+LRU cache as a recency sequence, over whole runs |
| `LruCache.dfy` | `LinkedList`, `LruCache` | the cache object: doubly linked list and index map |
| `PoolSpec.dfy` | `Tally`, `PoolSpec` | the pool's lock regions as functions |
| `Pool.dfy` | `Pool` | the pool object: free slice, in-place reap |
| `PoolProtocol.dfy` | `Wire`, `PoolProtocol` | fetches, reaper and closer as one step relation; the order of a conn's messages |
| `PoolSafety.dfy`, `PoolTheorems.dfy` | `PoolSafety`, `PoolTheorems` | what every step keeps; what every reachable state satisfies |
| `PoolProgress.dfy` | `PoolProgress` | which fetches can still end, and what a panic takes from the others |
| `Framing.dfy` | `Decimal`, `Framing` | decimal numbers, length-prefix frames, heartbeats |
| `ConnSession.dfy` | `ConnSession`, `SessionRefinement` | one fetch on one conn; it is a run of the pool protocol |
| `Client.dfy` | `Requests`, `Fetching`, `Client` | normalization, cache keys, cached Fetch |
| `FetchMulti.dfy` | `Collecting`, `FetchMulti` | the collection of partial results, and FetchMulti over interleaved Fetch calls |
| `FetchResults.dfy` | `FetchResults` | what FetchMulti returns, in terms of what the client replied |
| `FetchOrder.dfy` | `FetchOrder` | when the outcome of FetchMulti depends on the order in which its tasks finish |

How the model reads the code:

- float64 is `real`; `int(x)` truncates towards zero; a Go `string` is a `string` with one char per byte; `int` is
  unbounded except in `Atoi`, which has the 64-bit range.
- The clock, the network, `json.Valid`, the meaning of a frame's JSON, and `strings.ToUpper` after `strings.TrimSpace`
  are parameters. A theorem about them holds for every choice.
- A concurrent component is a function from a state and an event to the next state. An event is one lock region or one
  semaphore, socket or clock operation; what the environment decides is part of the event. A run is any sequence of
  possible events, so every interleaving of any number of fetches is covered.
- Code that updates fields or arrays is a class or a method with loops. Its contract ties the new state to a function
  of the old one, and the lemmas are about that function.

Where the code does less than one would expect, the code is modelled as it is, with an input and the exact condition:

- Bars that lie entirely at the top price add nothing to the profile (`FlatTopBarIsDropped`, `VolumeConserved`).
- The value area can end below 70% at a gap: three candles do it (`GapStopsBelowTarget`), and it happens exactly when the
  bins that lie around the POC without a gap hold less (`ReadingReachesIffClusterDoes`).
- `decodeFrames` panics exactly when a header it reaches carries a negative length (`NegativeLengthPanics`,
  `PanicIffNegativeLength`); an input in which no `~m~` is followed by `-` is safe (`NoMinusNoPanic`). On a panic the
  deferred delete still runs, but neither the conn nor the permit is given back. So after shutdown everything is closed
  and given back exactly if no fetch panicked (`LeakHappens`, `NothingLeaks`). From the panic on, a waiting fetch can get
  a permit exactly if fewer fetches have panicked than the pool has permits; a fetch that has not panicked and is past
  that point can always run to its end (`StuckHappens`, `WaitingIsAdmitted`, `NeverStuck`).
- `fetchSeries` never compares a frame's session with its own, so it returns the bars of another session
  (`SessionIgnored`, `OthersCandlesReturned`). The candles are its own exactly if the frame that decides the fetch, the
  first with bars in the first message that is not passed over, carries its session id (`CandlesAreOwn`). If upstream
  sends bars only for sessions created on the conn, they are sure to be exactly for the first fetch on it (`OwnIffFirst`);
  a later one can get a late frame of its predecessor (`LateFrameHappens`).
- A message with bars is answered as a ping and dropped whole exactly if `~h~` occurs anywhere in it
  (`PingSwallowsBars`, `BarsDroppedIffTagged`).
- The comment at conn.go:121-122 says that a broken conn is dropped on the next acquire. `acquire` has no such check.
  A conn on which the delete failed is kept exactly if the fetch got its candles and the pool is open
  (`LossyConnIsKept`), and the next fetch gets it (`LossyConnIsReused`, `LossyReuseHappens`). What an idle conn has sent
  is whole sessions exactly if no delete was lost on it (`IdleConnSentWholeSessions`).
- The month that upstream spells `1M` is read as one minute: the alias table is consulted before the set of valid
  resolutions (`MonthIsReadAsMinute`). It is the only valid resolution that changes its meaning (`ValidIsKept`).
- The outcome of FetchMulti can depend on the order in which its tasks finish, for instance if "60" and "1H" are
  requested together (`OrderMatters`). It does not exactly if no string is requested twice and no resolution is, the
  latter only if the symbol is not empty and the number of bars not too large; or if the client was closed before
  (`IndependentIffDistinct`).

## Model

| member | source | states |
|---|---|---|
| ValueArea.FindPoc | ta/ta.go:649-654 | the POC is the first of the fullest bins, bin 0 if no bin is positive |
| ValueArea.Expand | ta/ta.go:656-681 | the loop, with its three branches on an array, ends for any volumes, and where the greedy growth from the POC ends |
| ValueArea.ValueAreaContract | ta/ta.go:655-681 | for any volumes: acc is the sum over the window, and the loop ends at 70% or between two empty or absent neighbours |
| ValueArea.ExpansionIsChain | ta/ta.go:656-681 | for any volumes: the window is the last of the one chain from the POC in which each step adds the fuller existing neighbour, the upper one on a tie, and that ends at the first window at 70% or between two empty or absent neighbours; at most Bins-1 steps |
| ValueArea.TargetReachedIffClusterHoldsIt | ta/ta.go:659-681 | for any POC: the area reaches its target iff the bins that lie around the POC without a gap hold that much |
| ValueArea.ValueAreaIsOptimal | ta/ta.go:649-681 | unimodal profile: the target is reached, every bin inside is at least as full as every bin outside, no set of at most as many bins holds more, no set of fewer bins reaches the target |
| VolumeProfile.SpanIsEmptyOnlyAtTop | ta/ta.go:635-642 | a bar's bins are in range, and there is at least one iff its low is below the top price |
| VolumeProfile.ShareIsWorth | ta/ta.go:635-647 | in prices: a bar gives each bin whose price interval it meets the same part of its volume, the volume divided by the number of such bins, and nothing to any other |
| VolumeProfile.ProfileIsWorth | ta/ta.go:631-648 | in prices: each bin holds the sum of those parts over all bars |
| VolumeProfile.AddBar | ta/ta.go:634-648 | the inner loop, in place: each bin gains the bar's share, the running total stays the sum of the bins, no index is out of range |
| VolumeProfile.FillBins | ta/ta.go:632-648 | after all bars the array is the profile and the total its sum |
| VolumeProfile.VolumeConserved | ta/ta.go:631-648 | the binned total is all volume less that of the bars lying at the top price, and all of it iff those carry none |
| VolumeProfile.FlatTopBarIsDropped | ta/ta.go:635-647 | a flat bar at the top gets start bin Bins and end bin Bins-1, and its volume is lost |
| VolumeProfile.PriceRange | ta/ta.go:619-627 | least low and greatest high |
| VolumeProfile.ReadingIsExpansion | ta/ta.go:649-684 | poc is the middle of the first of the fullest bins, val and vah are the outer edges of the last window of the chain that grows from there to 70% of the binned volume |
| VolumeProfile.ReadingInsideRange | ta/ta.go:655-684 | minPrice <= val < poc < vah <= maxPrice |
| VolumeProfile.ReadingIsOptimal | ta/ta.go:619-684 | from candles to prices: for a unimodal profile val..vah spans the fewest bins that hold 70% |
| VolumeProfile.OrderedCandlesReading | ta/ta.go:619-684 | for candles with low <= high and a range: the order of the three prices and the conservation of volume, with no assumption on the grid |
| VolumeProfile.ReadingReachesIffClusterDoes | ta/ta.go:655-681 | from candles to prices: val..vah holds 70% iff the bins around the POC without a gap do; always if there is no volume |
| VolumeProfile.GapStopsBelowTarget | ta/ta.go:668-670 | three candles with a price gap for which the value area ends at 40% |
| VolumeProfile.Compute | ta/ta.go:615-685 | zeros for no bars, the flat price for a flat range, otherwise the reading of the profile of the bars |
| CacheSpec.ContentShape | cache.go:38-80 | after any run keys are distinct and there are at most max entries |
| CacheSpec.BiggerCacheNeverHitsLess | cache.go:38-80 | two caches fed the same operations: the smaller content is a subsequence of the larger with identical entries, sizes differ by at most the difference of the limits, every hit of the smaller is the same hit in the larger |
| CacheSpec.HitIsLatestPut | cache.go:38-80 | a hit is the value of the latest effective put of the key, marked as cached, no later than its expiry |
| CacheSpec.MissLeavesNoEntry | cache.go:41-50 | after a miss no entry of the key is left; an expired one was removed |
| CacheSpec.ContentOrderedByUse | cache.go:51-51 | recency order agrees with the order of last use, over any run |
| CacheSpec.EvictedOnlyAfterMaxOthers | cache.go:70-79 | a key leaves on a put only after at least max distinct other keys were put or hit since its own last use |
| CacheSpec.ExactWithinWindow | cache.go:38-80 | with a monotone clock and fewer than max other keys used since, a lookup answers exactly as an unbounded map of latest puts with expiry |
| CacheSpec.HitIffWithinWindow | cache.go:38-80 | if nothing expires, a lookup hits iff the key was put and fewer than max other keys were used since |
| LinkedList.List.Remove | cache.go:47-47 | unlinks one element; the list is the old one without it |
| LinkedList.List.MoveToFront | cache.go:51-51 | relinks one element at the front |
| LruCache.Cache.Get | cache.go:38-55 | list and index stay in bijection; new content and answer are those of the recency sequence |
| LruCache.Cache.Put | cache.go:57-80 | the same for a store: ignored, update, or insert and evict |
| LruCache.Cache.Evict | cache.go:72-79 | the eviction loop ends and keeps the most recent max entries |
| PoolSpec.ReapPartitions | pool.go:110-118 | kept and dropped conns together are the old free list |
| PoolSpec.ReapDropsPrefix | pool.go:110-118 | on a list sorted by idle time the reaper drops exactly a prefix |
| Pool.ConnPool.TakeConn | pool.go:53-65 | acquire's lock region on the slice |
| Pool.ConnPool.GiveBackConn | pool.go:82-87 | release's lock region, append included |
| Pool.ConnPool.ReapSelect | pool.go:109-119 | filtering into the backing array that is being read overwrites no unread element, and keeps and drops what the filter says |
| Pool.ConnPool.CloseMark | pool.go:127-135 | the first close takes the whole list, later ones nothing |
| PoolSafety.StepBounded | pool.go:49-141 | every step keeps the permit count and the pool bound |
| PoolSafety.StepOwned | pool.go:49-141 | every step keeps each dialed conn in exactly one place |
| PoolSafety.StepDisciplined | conn.go:113-196 | every step keeps every conn's trace in the phase its owner expects |
| PoolSafety.StepStained | conn.go:120-124 | every step keeps a conn on which a delete was lost from ever having sent whole sessions only |
| PoolSafety.StepUniqueCharts | protocol.go:181-188 | every step keeps chart ids unique across drawn and sent ones |
| PoolSafety.RunSafe | pool.go:49-141 | all invariants hold after every run, for any pool size, any number of fetches and any interleaving |
| PoolTheorems.PoolBound | pool.go:49-92 | free, dialing and leased conns never exceed PoolSize; open and dialing sockets never exceed twice PoolSize |
| PoolTheorems.PermitsAccounted | pool.go:49-92 | held permits are the fetches between acquisition and release, at most PoolSize; a release is always covered; none are held when all have finished |
| PoolTheorems.ExclusiveUse | pool.go:11-14 | no conn is closed twice, used after it was closed, used by two fetches, or leased while free |
| PoolTheorems.NothingLeaks | pool.go:126-141 | closed pool, ended fetches, finished closing loops: free list empty, and all permits back and every conn ever dialed closed exactly once iff no fetch panicked; each that did keeps one of both |
| PoolProgress.LeakHappens | client.go:121-126 | a run after which a closed pool has a conn open and a permit held, after a panic |
| PoolTheorems.ClosedStaysEmpty | pool.go:54-58 | a closed pool's free list is empty and stays so |
| PoolTheorems.IdleConnSentWholeSessions | conn.go:113-196 | an idle conn has sent auth and whole sessions (create, resolve, create_series, pongs, delete) and nothing else iff no delete was ever lost on it |
| PoolTheorems.EveryConnSentSessions | conn.go:88-171 | every dialed conn has sent auth, sessions and at most one unfinished one; all sessions before that end with their delete unless one was lost on the conn |
| PoolTheorems.SessionsNeverInterleave | conn.go:17-22 | on every conn each session message names the chart of the last create before it, even after a lost delete |
| PoolTheorems.ChartsNeverShared | conn.go:114-117 | no two sessions on any conns are created with the same chart id |
| PoolTheorems.LossyConnIsKept | pool.go:77-92 | a conn whose delete has just failed goes back to the free list iff the fetch got its candles and the pool is open |
| PoolTheorems.LossyConnIsReused | conn.go:121-123 | and then the next fetch gets it, in every such reachable state |
| PoolTheorems.LossyReuseHappens | conn.go:121-123 | a run in which that happens |
| PoolTheorems.AcquireOutcome | pool.go:53-74 | acquire refuses iff the pool is closed, dials iff it is open and no conn is free, and otherwise takes the last free conn and nothing else |
| PoolTheorems.ReturnedConnIsKept | pool.go:77-92 | a conn that comes back is kept, stamped with the time, iff its fetch got its candles and the pool is open; otherwise it is closed |
| PoolTheorems.ReusesMostRecent | pool.go:59-63 | acquire reuses the conn that became idle last |
| PoolTheorems.ReaperCutsPrefix | pool.go:107-124 | the reaper cuts off a prefix: exactly the conns idle since before the cutoff, all for longer than the timeout |
| PoolTheorems.ReapIsByTimeout | pool.go:107-124 | a reap hands to closing exactly the free conns that had been idle for longer than the timeout when it read the clock, whatever happens before it takes the lock; the others stay |
| PoolTheorems.IdleConnsAreReaped | pool.go:94-124 | whenever no reap is under way one can begin, and after time d it takes exactly the conns then idle for longer than the timeout |
| PoolProgress.ClosersCanFinish | pool.go:107-141 | from every reachable state the reaper and the closer can close all that is pending |
| PoolProgress.CanShutDown | pool.go:126-141 | every reachable state can be shut down, and then all permits are back and every conn is closed exactly once iff no fetch had panicked |
| PoolProgress.WaitingIsAdmitted | pool.go:49-52 | a waiting fetch can get a permit, with or without help from the network, iff fewer fetches have panicked, be it only just, than there are permits |
| PoolProgress.NeverStuck | pool.go:49-92 | any fetch can run to its end without being cancelled, with or without help from the network, iff it has not panicked and has a permit or can get one |
| PoolProgress.StuckHappens | client.go:121-126 | a run in which a panic has just used up the only permit: the waiting fetch can neither be admitted nor end |
| Wire.AcceptedIsBlocks | conn.go:113-171 | the message automaton accepts only auth, sessions and one unfinished one; only the one for lost deletes accepts sessions without theirs |
| Wire.NeverInterleaved | conn.go:113-171 | in an accepted trace every session message names the last created chart |
| Framing.DecodeFrames | protocol.go:29-61 | the loop computes Decode, panic included |
| Framing.DecodeWire | protocol.go:19-61 | frames come back in order with their bodies when lengths are exact, or one too large before another frame; a last frame with a larger length comes back iff its body is valid JSON |
| Framing.DecodeEncode | protocol.go:19-61 | decodeFrames undoes encodeFrame for every body |
| Framing.LeadingJunkIsSkipped | protocol.go:32-36 | whatever precedes the first mark is skipped |
| Framing.BadLengthAfterFrames | protocol.go:41-44 | behind any frames, anything between two marks that is no number ends the parse with the bodies so far, and a negative number panics |
| Framing.NoHeaderNoFrames | protocol.go:32-40 | without two marks nothing is found |
| Framing.DecodeFrameThen | protocol.go:46-58 | a frame with anything behind it: its length in bytes is taken, one less if a mark starts with the last of them, and the parse goes on there |
| Framing.DecodeResyncs | protocol.go:32-58 | what stands between a frame and the next mark is skipped |
| Framing.DecodeEmbeds | protocol.go:29-61 | the bodies are disjoint parts of the input, in order, each behind at least 7 header bytes |
| Framing.EmbeddedLength | protocol.go:29-61 | all bodies and 7 bytes for each fit into the input |
| Framing.PanicIffNegativeLength | protocol.go:46-57 | the slice panics iff a header carries a negative length |
| Framing.NoMinusNoPanic | protocol.go:41-57 | no panic if no mark is followed by a minus sign |
| Framing.NegativeLengthPanics | protocol.go:46-57 | a concrete input that panics |
| Framing.PingIsEchoed | protocol.go:64-78 | a well-formed ping at the head of a message is echoed unchanged, whatever follows |
| Framing.PongOfTag | protocol.go:64-78 | the pong carries what stands between the first tag, wherever it is, and the next tilde or the end |
| Framing.PongIffTagged | protocol.go:64-70 | there is a pong iff there is a tag |
| Framing.PongIsFixpoint | protocol.go:64-78 | every pong decodes to one heartbeat body without a further tilde, and its own pong is itself |
| Decimal.AtoiPrint | protocol.go:41-41 | strconv.Atoi reads back every printed int |
| Decimal.AtoiReads | protocol.go:41-41 | strconv.Atoi reads an optional sign, leading zeros and a printed number, if the value fits into 64 bits |
| Decimal.OnlyNumbersAreRead | protocol.go:41-41 | and reads nothing else |
| ConnSession.Conn.FetchSeries | conn.go:113-196 | result and messages sent, for every pattern of failing sends and every sequence of reads, deferred delete included |
| ConnSession.ExchangeShape | conn.go:113-171 | the conn gets the requests of the session up to the first that fails, the pongs if none does, and the delete last, iff the session was created and the delete succeeds |
| ConnSession.LoopOutcome | conn.go:145-194 | the loop ends at the first message that it does not pass over; it has sent one pong for each message with a tag before that; and exactly when that is a panic, candles or a failure |
| ConnSession.FetchReturnsToReady | conn.go:113-196 | a completed exchange takes a conn from ready back to ready, unless its delete is lost |
| ConnSession.CandlesIffDecided | conn.go:145-193 | the fetch ends with candles iff some frame decides it: the first with bars in the first message that is not passed over; and with that frame's |
| ConnSession.DecidedOnce | conn.go:173-193 | at most one frame decides |
| ConnSession.SessionIgnored | conn.go:185-191 | the session ids in the frames play no part in the outcome |
| ConnSession.CandlesAreOwn | conn.go:185-191 | the candles are the fetch's own iff the deciding frame carries its session id |
| ConnSession.OthersCandlesReturned | conn.go:185-191 | an input: a frame with another session's bars decides the fetch, and they are returned |
| ConnSession.BarsDroppedIffTagged | conn.go:163-171 | a message whose bars would end the fetch is dropped, whatever follows, iff the heartbeat tag occurs anywhere in it |
| ConnSession.PingSwallowsBars | conn.go:163-171 | an input: bars batched behind a ping decode but do not end the fetch |
| ConnSession.SessionIdsDiffer | protocol.go:181-188 | ids drawn with different counter values differ, whatever the prefix and the time |
| SessionRefinement.FetchSeriesIsRun | conn.go:113-196 | for every pattern of failing sends and every sequence of messages, fetchSeries is a run of the pool protocol, one read per message, with the same messages sent and the same outcome, panic included |
| SessionRefinement.OwnIffFirst | conn.go:185-191 | if upstream sends bars only for sessions created on the conn, every run of frames is decided by own bars iff no other session was created on it |
| SessionRefinement.LateFrameHappens | conn.go:185-191 | a run in which a second fetch reads on a conn that served another session, whose late bars it then returns |
| Requests.NormalizedByMeaning | protocol.go:133-172 | a spelling is accepted iff it is nM or nMIN (n minutes), nH (n hours), a word for a day, a week or a month, or a resolution on the wire; and as that |
| Requests.NormalizedIsOnWire | protocol.go:133-172 | normalization yields one of 13 resolutions, none with a separator; normalizing it again leaves it alone if upper-casing and trimming do |
| Requests.MonthIsReadAsMinute | protocol.go:140-167 | an input: the valid resolution 1M becomes the one for a minute |
| Requests.ValidIsKept | protocol.go:133-172 | every valid resolution is accepted; it is passed on unchanged iff it is not 1M, 1D or 1W, and means the same iff it is not 1M |
| Requests.CheckedExactly | client.go:69-85 | each error is given exactly in its own case; an accepted query has the normalized symbol and resolution and the requested number of bars, or 300 |
| Requests.CacheKeyInjective | cache.go:15-17 | the key determines symbol, resolution and bars when the resolution has no separator, whatever the symbol contains |
| Requests.CacheKeyAmbiguous | cache.go:15-17 | with a separator in the resolution two queries share a key |
| Fetching.RunCoherent | client.go:68-112 | after any interleaving of calls the cache's history agrees with the history of fetches, query by query |
| Fetching.HitIsLatestFetch | client.go:68-112 | a hit carries the normalized symbol and resolution asked for and the candles of the latest successful fetch of that query, stored at most a TTL ago |
| Fetching.HitIffLatestIsLive | client.go:87-92 | if the clock readings of the events never go back and fewer than CacheSize other keys were used since, a call hits iff that fetch is still live |
| Fetching.CompletionServes | client.go:94-111 | in every run a call on the network gets what the network answers, whatever happened in between, and that is then the latest fetch |
| Fetching.CallServes | client.go:68-112 | after any run, an uninterrupted call gives the error of the checks, the latest live fetch, or what the network answers, which is then the latest fetch |
| Client.Client.Begin | client.go:68-92 | on the cache object: the checks and the lookup are a step of the run, with its reply, and the fields stay what the run leads to |
| Client.Client.Complete | client.go:94-111 | the same for the store after the network |
| Client.Client.Fetch | client.go:68-112 | both halves together are the run's uninterrupted call, so its reply is what CallServes says |
| Collecting.CollectAll | client.go:157-162 | the maps after the tasks completed in some order |
| Collecting.KeysAreExact | client.go:157-162 | slab keys are exactly the resolutions of the successes, error keys exactly the raw strings of the failures |
| Collecting.ValuesAreReported | client.go:157-162 | every recorded value is one that a task reported under that key |
| Collecting.IndependentIffConsistent | client.go:150-165 | the result is the same for every completion order iff no two tasks report different values under one key |
| FetchMulti.RunSound | client.go:150-165 | whatever the tasks, other calls and Close interleave to: no two tasks share a call, each result is for its own request, and exactly the deposited results are collected |
| FetchResults.ResultIffGiven | client.go:154-162 | in every run, a task has a result iff the client gave it one: the error of the checks, the data its cache had when the task started, or without them what the network answered; and then that |
| FetchResults.EveryRequestIsRecorded | client.go:133-173 | when all tasks are done: slab keys are the normalized resolutions of the requests that were given data, error keys the strings of the others, and every value, candles included, is what the client gave some request of that key |
| FetchResults.CanBeFinished | client.go:150-165 | every run can be continued until all tasks are collected |
| FetchResults.DistinctRequestsAreIndependent | client.go:133-173 | with distinct raw strings and distinct normalized resolutions every result is in the maps, which are those of the order of the requests, whatever the interleaving |
| FetchOrder.IndependentIffDistinct | client.go:133-173 | for any history, the outcome is the same for all orders of the same results iff the client was closed before, or the strings are distinct and, if the request can be served at all, so are the resolutions |
| FetchOrder.OrderMatters | client.go:157-162 | an input: two runs with the same results for "60" and "1H" whose slab is that of the task that finished last |

## Left out

- WebSocket and HTTP calls, dial retries and backoff, deadlines and goroutine creation: an operation succeeds or fails
  as the event says, time passes by events. The sockets of failed dial attempts are not counted.
- JSON encoding and decoding, `parseCandles`, `asFloat`: bodies are arbitrary strings, a frame's meaning is a parameter.
- What a panic does above `fetchOnce`: it is taken to be recovered by the caller, so that the process goes on. A panic in a
  task of `FetchMulti` is not modelled.
- Rounding, NaN and infinities: the per-bin volume of a bar that spans no bin is a quotient the code never uses.
- `strings.ToUpper` and `strings.TrimSpace`: a parameter, of which nothing is assumed.
- The sentinel of `container/list`: the list has a first and a last link instead. Only the operations used are modelled.
- Pointer sharing of `ChartData` between the cache and the first caller: data are values.
- Partial writes: a failed send puts nothing on the wire.
- PoolTheorems.LossyConnIsReused: says what follows from a lost delete; that a write error is usually permanent on a
  real socket, so that the reuse fails and the conn is closed then, is not modelled.
- PoolProgress.NeverStuck: says whether a run to the end exists; fairness between fetches and the order in which the semaphore
  admits waiters are not modelled.
- The other indicators, annotation formatting, search, streaming, the MCP server, the commands, loggers, error texts and
  config loading: branch tables or calls into libraries that are not part of this model.
- Latency values and fetch timestamps are carried through, not computed; `FetchMulti` setting an empty error map to nil,
  its own checks for a closed client and an empty list, and its limit on concurrent tasks are not modelled.
- Client.Client.Fetch: the method is one call without interruption; calls that interleave are runs of `Begin` and
  `Complete`.
