# Verification of the load generator

A load generator sends requests on a fixed timetable and measures how late the answers are against
that timetable, so that a slow target cannot hide its slowness by slowing the generator down. This
project models the parts on which that promise rests, and proves what they promise over every run,
every interleaving of tasks and streams, and every way of cutting bytes into reads.

Each part is a class or method with the fields and branches of the code, tied by its contract to a
function on values, and lemmas about that function.

| module | what it covers |
|---|---|
| `Arithmetic`, `Sequences`, `Counting` | floor division, ceiling division and integer square root through their Galois connections; facts about prefixes; how many positions have a property |
| `Verdicts` | the inline assertion tiers, one set of counters, sums and differences of counters |
| `Scheduler`, `RampSchedule` | the per-connection schedule: constant and ramp timetables, catch-up at twice the rate, origin shift |
| `ConnectionLoop` | the loop wait, send, receive, perhaps back off, advance; its run log and its counters |
| `Timeline` | every request of a run told from its turns alone: when it is due, what becomes of it, whether there is one, and what each counter counts |
| `CatchUp` | pacing inside a catch-up window, and how soon a late connection is back on pace |
| `SendBudget` | how many requests a connection and a fleet send, and what a priced run costs |
| `BackoffTranslation`, `ZeroPause` | a 429 pause moves the rest of the run in time and changes nothing measured, and exactly when it does not |
| `Histogram`, `OrderStatistics` | clamp, paired recording, lossless merge, quantiles of merged histograms; which sample a quantile reads |
| `LiveCounters`, `LiveResponses` | tasks and tick emitter interleaved over shared counters; the first-429 onset; both in terms of the responses that arrived |
| `TickEmitter`, `LiveSnapshots` | per-second differences and the numbered partials of a worker |
| `Aggregation`, `FleetStreams` | the coordinator's per-tick aggregator under every interleaving of the workers' streams |
| `TickContents` | each field of a fleet's tick from what the workers sent, and from their snapshots and samples |
| `FleetTotals`, `DispatchSummary` | conservation of counts from the workers' counters to the final report |
| `Octets`, `Framing` | one HTTP response at a time out of a 64 KiB buffer that is shifted in place |
| `Utf8`, `EventStream` | the server-sent-event printer and the CLI's drain loop, fed chunks of bytes that it decodes one by one |
| `Replay` | ticks persisted row by row and replayed with running totals |
| `Pagination` | keyset pages and their cursor |
| `RpsMeter`, `MeterRace`, `Injector` | the mock's rolling meter, its races, and failure injection, and what the engine counts of it |

Conventions. Times are whole microseconds (milliseconds in the mock). Rates are exact fractions of
requests per microsecond, and `f64 as u64` is floor division. What the environment does is an input:
a run of a connection is a sequence of turns made of delays, so clock readings never go back and
every sequence of turns is a possible run; an interleaving is a sequence of steps or of worker
indices; a socket is a sequence of arrivals. Parsers are parameters: the HTTP header parser, of
which only prefix stability is known (`Framing.BlankLineIsStable` shows that a whole class of
parsers has it), and the JSON decoder. So is the lossy UTF-8 decoder (`Utf8.SomeDecoderIsLossy`).

Some promises do not hold as one would first state them. For each there is a counterexample, and the
exact condition except where it says otherwise.

- A back-off is a pure time translation unless it has length zero and follows a request that was
  paced while behind on a constant timetable. `Retry-After: 0` then leaves the catch-up window armed,
  although the comment on `defer_origin` speaks of every honoured `Retry-After`. Two pauses of
  different lengths are told apart by what follows if and only if that is the case
  (`ZeroPause.TranslationCondition`), and in every run that has time left they can be
  (`ZeroPause.ZeroPauseMatters`, with an example in `ZeroPause.ZeroPauseExample`).
- The rolling meter, fed atomic records at any times and in any order, never counts more than the
  records of its ten slots, and counts them all if and only if none of them is followed by a record
  of another slot of the same bucket (`RpsMeter.ReadingIffNotOvertaken`). With times that do not go
  back that is always so (`RpsMeter.ReadingBetween`).
- When records are not atomic, simultaneous records of one new slot are all counted if and only if
  none adds between another's successful claim and its store (`MeterRace.ExactIffNoneInBetween`,
  `MeterRace.SomeRaceLoses`). For interleaved records of different slots of a bucket there are only
  examples: a late record takes the bucket back (`MeterRace.DelayedRecordMisplaces`), and a late
  addition is counted under the wrong slot (`MeterRace.LateAdditionMisplaces`). No exact condition is
  given for them.
- Storing a 64-bit counter in a signed column gives it back exactly when it is below 2^63
  (`Replay.ColumnRoundTrip`).
- A stream of one-line tick payloads and comments comes back exactly if every payload is not empty,
  does not start with a space and does not end with a carriage return (`EventStream.TextRoundTrip`).
- The CLI decodes each chunk of bytes by itself. The chunks join to the text that was sent if and
  only if none cuts a character, unless the text has a replacement character itself
  (`Utf8.ChunksDecodeIffWhole`, with an example in `Utf8.SplitLetterIsLost`). Ticks carry sampled
  response bodies, so their payloads need not be ASCII; for those that are, any chunking will do
  (`EventStream.AsciiStreamRoundTrip`).

## Model

| member | source | states |
|---|---|---|
| Scheduler.ConnSched.New | engine/src/sched.rs:53-63 | A constant schedule starts caught up, at its origin, with nothing sent. |
| Scheduler.ConnSched.NewRamp | engine/src/sched.rs:66-76 | The same for a linear ramp. |
| Scheduler.ConnSched.UsecToNextSend | engine/src/sched.rs:100-131 | Leaves the intended slot alone. On pace the wait ends exactly on it; a ramp that is behind does not wait; a constant schedule that is behind opens a window and does not wait, or waits for the window's slot at twice the rate. |
| Scheduler.ConnSched.AdvanceOne | engine/src/sched.rs:134-136 | Only the request index moves. |
| Scheduler.ConnSched.DeferOrigin | engine/src/sched.rs:149-152 | Every later slot moves by exactly the pause, and the catch-up window is re-armed. |
| Scheduler.ConstantSlotBefore | engine/src/sched.rs:84-86 | On a constant timetable slot n is before t if and only if n is below rate times t. |
| Scheduler.SlotMono | engine/src/sched.rs:82-95 | Intended send times never go back, on either timetable. |
| RampSchedule.RampSlotBefore | engine/src/sched.rs:87-92 | Ramp slot n is at or before t if and only if 2Dn is below R(t+1)^2: slots invert the cumulative integral. |
| RampSchedule.SlotsByCounts | engine/src/sched.rs:87-92 | The slots at or before t are exactly the first SlotsBy(t). |
| RampSchedule.SlotsByMatchesIntegral | engine/src/sched.rs:87-92 | That number brackets R*t^2/(2D) from above by less than one slot and one microsecond. |
| RampSchedule.GapsNeverGrow | engine/src/sched.rs:87-92 | A gap between ramp slots exceeds the gap before it by at most one microsecond, square-root and division rounding included. |
| ConnectionLoop.HonourRateLimit | engine/src/worker.rs:974-1012 | The policy arm: pause capped, clock slept, origin shifted by the pause even when an abort cuts the sleep; abort stops the loop. |
| ConnectionLoop.Connection.Write | engine/src/worker.rs:840-875 | Either the loop ends without a request, or one leaves at the time the run model gives. |
| ConnectionLoop.Connection.Receive | engine/src/worker.rs:890-1026 | Both latencies recorded, verdict tallied, policy honoured, schedule advanced: the state is that of the run model. |
| ConnectionLoop.Connection.Lose | engine/src/worker.rs:872-888 | A failed write, a timeout or a broken read is counted and ends the loop. |
| ConnectionLoop.Connection.Iterate | engine/src/worker.rs:840-1027 | One iteration is one step of the run model. |
| ConnectionLoop.ConnectionTask | engine/src/worker.rs:829-1030 | The whole task: its counters are those of the model run's log, and the log's samples join whatever the shared histograms already hold. |
| ConnectionLoop.RunConnections | engine/src/worker.rs:575-612 | All connections of a worker: each one's counters are those of its own log, and the shared histograms hold the samples of all. |
| ConnectionLoop.RunKeepsInv | engine/src/worker.rs:840-1027 | In every run, request i is the i-th of the schedule, waits out its slot, is inside the deadline, and is paced from the state its predecessor left. |
| ConnectionLoop.NeverEarly | engine/src/worker.rs:850-892 | No request of any run leaves before its intended slot, and its corrected latency is at least the uncorrected one. |
| ConnectionLoop.CorrectedQuantilesDominate | engine/src/worker.rs:890-897 | For any connections of a worker and any order in which their samples were recorded, the shared corrected histogram reads at least the uncorrected one at every quantile. |
| ConnectionLoop.SummariesDominate | engine/src/hist.rs:87-97 | So does every figure of their summaries, and both count the same responses. |
| Timeline.LogFollowsTurns | engine/src/worker.rs:840-1027 | In every run, request by request: it leaves when it is due, its latencies run from its slot (offset, timetable and earlier pauses) and from its write, its verdict is the one its response meets, its pause is what a 429 asks for up to the cap; and there is a next request exactly when nothing has ended the run and its wait ends before the deadline. |
| Timeline.WhenRequestsLeave | engine/src/sched.rs:100-131 | On a ramp every request of every run leaves at the later of the clock and its slot; on a constant timetable one that is behind leaves at the later of the clock and anchor + floor(k/(2 rate)), k requests after its window's first. |
| Timeline.CountersCount | engine/src/worker.rs:890-975 | Each counter of a connection is the number of logged requests it is named after: answered, of each verdict, timed out, broken; the back-off total is the sum of their pauses. |
| Timeline.SamplesAreLatencies | engine/src/worker.rs:890-897 | The samples recorded are the latencies of the answered requests in order; only the last request of a run can lack one. |
| CatchUp.PaceInWindow | engine/src/sched.rs:117-130 | Inside a window the wait ends on or after the catch-up slot and is at most ceil(1/(2 rate)). |
| CatchUp.CatchUpIsPaced | engine/src/worker.rs:851-866 | In every run the k-th request of a window leaves no earlier than anchor + floor(k/(2 rate)), and no wait while behind exceeds ceil(1/(2 rate)). |
| CatchUp.TimetableOvertakes | engine/src/sched.rs:117-130 | After floor(2 rate (L+1)) + 1 slots the timetable has gained more than L on the catch-up slots. |
| CatchUp.RecoversInBoundedRequests | engine/src/sched.rs:117-130 | A connection that falls L behind and is answered before each next catch-up slot is back on pace within floor(2 rate (L+1)) + 1 requests. |
| SendBudget.BudgetCountsSlots | engine/src/sched.rs:82-95 | The budget is the number of slots before the deadline, on either timetable. |
| SendBudget.SendsWithinBudget | engine/src/worker.rs:840-872 | Under any delays, catch-up and back-offs a connection sends at most its budget, ceil(rate * duration) when constant. |
| SendBudget.RampBudgetIsHalf | engine/src/worker.rs:536-540 | Over the whole ramp the budget is half the peak rate times the duration, rounded up to a whole request. |
| SendBudget.BudgetIsReached | engine/src/worker.rs:840-872 | The budget is tight: an instantly answering target draws all of it. |
| SendBudget.FleetWithinBudget | engine/src/coordinator/dispatch.rs:212 | All connections of all workers together send fewer than target_rps * duration_s + workers * connections. |
| SendBudget.FleetReachesTarget | engine/src/worker.rs:532-534 | Connections without stagger whose target answers at once together send at least target_rps * duration_s. |
| SendBudget.CeilingMeans | control/internal/api/validate.go:70-89 | A priced run is accepted exactly when the price is not negative, an estimate is given, and the whole target's cost is at most 1.1 times it; each refusal names which of these fails. |
| SendBudget.AcceptedRunCost | control/internal/api/validate.go:70-89 | A priced run accepted at creation costs at most its ceiling plus one request per connection. |
| BackoffTranslation.PaceIsDisplaced | engine/src/sched.rs:100-131 | Schedules that differ by a displacement of origin and clock return the same wait and stay displaced. |
| BackoffTranslation.RunMovesOrigin | engine/src/worker.rs:991-1007 | The schedule origin has always moved by exactly the back-off time the connection reports. |
| BackoffTranslation.BackoffIsTranslation | engine/src/worker.rs:982-1009 | Two runs that differ only in the lengths of their pauses report the same waits, latencies and verdicts up to the deadline, their clocks apart by the difference of the pauses; a zero pause may stand against a positive one after any request that was not catching up. |
| ZeroPause.TranslationCondition | engine/src/sched.rs:118-152 | Schedules left by a shorter and a longer pause return the same waits at all correspondingly shifted clock readings if and only if the shorter pause is positive or the request before it was not behind on a constant timetable; otherwise readings a run can have, from any time on, tell them apart. |
| ZeroPause.ZeroPauseMatters | engine/src/worker.rs:982-1009 | In every run, after every request paced while behind, a zero and a positive pause lead to different reports of some common continuation, if the deadline leaves the time. |
| ZeroPause.ZeroPauseExample | engine/src/worker.rs:989-1008 | Two explicit runs: with `Retry-After` 0 and 1 ms the third request waits 0 and 500 microseconds. |
| ZeroPause.MomentsLogWaits | engine/src/worker.rs:846-872 | Requests paced at one clock reading log exactly the waits of their schedule. |
| Histogram.Histos.RecordPair | engine/src/hist.rs:58-63 | Each histogram then holds one more sample. |
| Histogram.Histos.Merge | engine/src/hist.rs:64-67 | Merging leaves the histograms of the two sample sequences taken together. |
| Histogram.OrderIrrelevant | engine/src/hist.rs:58-63 | Histograms of the same samples in any order are equal. |
| Histogram.MergeIsLossless | engine/src/coordinator/dispatch.rs:472-482 | Merged worker histograms equal one histogram of the pooled samples in any order. |
| Histogram.QuantilesDominate | engine/src/hist.rs:88-97 | Samples that dominate pointwise read at least as much at every quantile, after clamping and bucketing. |
| Histogram.MergedQuantileBetween | engine/src/coordinator/dispatch.rs:472-482 | At every quantile the merged histogram reads between the least and the greatest of the non-empty workers. |
| OrderStatistics.CountsAreSamples | engine/src/hist.rs:58-63 | The count below any bucket is the number of samples that fall there, each taken as it is between 1 us and 60 s and as the nearer bound outside. |
| OrderStatistics.QuantileIsOrderStatistic | engine/src/hist.rs:88-97 | A quantile q of n samples reads the bucket of the ceil(q*n)-th smallest: at least that sample, and in its bucket. |
| OrderStatistics.SummaryOfSamples | engine/src/hist.rs:87-97 | Each printed figure is the quantile it is named after of the samples recorded, the greatest is the last of them, and without samples all are zero. |
| LiveCounters.CountersConserved | engine/src/worker.rs:898-1013 | In every interleaving completed minus the six verdict counters is the number of tasks between their two increments. |
| LiveCounters.JoinSums | engine/src/worker.rs:730-750 | The joined totals are the sums of the tasks' own tallies. |
| LiveCounters.TalliesAgreeAtJoin | engine/src/worker.rs:738-750 | After the join both tallies agree in every field, verdicts partition completed, and each response was recorded once. |
| LiveCounters.OnsetStoredOnce | engine/src/worker.rs:956-972 | At most one onset is ever stored, and it is the offered rate at the slot of the rate-limited request that took the guard. |
| LiveCounters.OnsetIffLimited | engine/src/worker.rs:956-972 | With recording on, after the join there is an onset if and only if the rate-limited counter is not zero. |
| LiveResponses.CountersAreResponses | engine/src/worker.rs:898-955 | After the join each live counter is the number of responses that arrived, in all or meeting that verdict's rules, under every interleaving. |
| LiveResponses.OnsetIffSome429 | engine/src/worker.rs:956-972 | After the join there is an onset if and only if onsets are recorded and some response that arrived had status 429. |
| LiveResponses.OnsetIsOffered | engine/src/worker.rs:123-133 | At any time a stored onset is the rate offered at the slot of a 429 that arrived: the target, or its share of the ramp so far. |
| LiveResponses.QuietSnapshotIsExact | engine/src/worker.rs:639-662 | A snapshot taken while no task moves publishes the counters as they stand. |
| LiveCounters.SnapshotsAreSound | engine/src/worker.rs:639-662 | Every torn snapshot shows at most n completed responses without verdict, never goes back or ahead, and equals the sum of the published differences. |
| TickEmitter.EmitTicks | engine/src/worker.rs:626-724 | Tick k carries the k-th snapshot and its difference from the one before. |
| TickEmitter.ThisTicksTelescope | engine/src/worker.rs:646-662 | The differences up to a tick add up to its cumulative counters. |
| LiveSnapshots.LiveSnapshotsAreMonotone | engine/src/worker.rs:639-662 | In any interleaving of tasks and emitter the snapshots never go back and the published differences are the ticks' own. |
| TickEmitter.RunSlice | engine/src/worker_node.rs:125-141 | Partials are numbered 1, 2, ... in order, one a tick, with an empty final one last. |
| Aggregation.CombineSwaps | engine/src/coordinator/dispatch.rs:472-530 | Two partials can be combined in either order: counts, onset and both histograms. |
| Aggregation.FoldRemove | engine/src/coordinator/dispatch.rs:472-530 | A bucket adds up to the same whichever partial comes last, so the order of the map does not matter. |
| Aggregation.Aggregator.SumBucket | engine/src/coordinator/dispatch.rs:444-524 | The loop over the map computes that order-free combination. |
| Aggregation.Aggregator.EmitTick | engine/src/coordinator/dispatch.rs:525-574 | Running totals grow by the tick's share and the tick carries them. |
| Aggregation.Aggregator.Receive | engine/src/coordinator/dispatch.rs:421-440 | A message is parked by tick, or completes its tick, which is taken out and emitted. |
| Aggregation.Aggregator.Loop | engine/src/coordinator/dispatch.rs:399-442 | The loop delivers the messages that arrive before the channel closes or the run is cancelled. |
| FleetStreams.DeliveryIsDetermined | engine/src/coordinator/dispatch.rs:421-440 | One delivery keeps the state a function of how far each worker has come. |
| FleetStreams.StateIsDetermined | engine/src/coordinator/dispatch.rs:399-442 | After any interleaving the parked and emitted ticks and the totals are that function. |
| FleetStreams.InterleavingsConfluent | engine/src/coordinator/dispatch.rs:399-442 | Interleavings that deliver the same ticks of each worker end in the same emitted ticks and totals. |
| FleetStreams.EmitsEveryCommonTick | engine/src/coordinator/dispatch.rs:421-440 | Exactly ticks 1..m come out, ascending and once each, m the fewest ticks any worker delivered, each with the combined share of all workers. |
| FleetStreams.EmitsPrefix | engine/src/coordinator/dispatch.rs:408-441 | What an interleaving has emitted at any point is a prefix of what it emits in the end. |
| FleetStreams.TickShareByWorker | engine/src/coordinator/dispatch.rs:493-500 | A tick's counts are the sum over the workers of the counts of their partials. |
| TickContents.EmittedTickCarries | engine/src/coordinator/dispatch.rs:444-577 | Every tick emitted in every interleaving: its rate is the sum of the workers', its bucket the step of ten that holds it, its onset the least of theirs, and its corrected and uncorrected histograms those of the corrected and of the uncorrected samples of the workers that sent any. |
| TickContents.FleetTickIsWhole | engine/src/coordinator/dispatch.rs:444-577 | Half and half is the whole, from the workers' snapshots on: the i-th tick carries the two histograms of all workers' samples pooled in any order, the least onset, and for every counter what it gained over all workers since their snapshots before; its rate is the completed ones of that second. |
| TickContents.StreamSnapshots | engine/src/worker_node.rs:125-141 | A worker's snapshots become the stream of partials that the fleet's ticks are made of. |
| TickContents.FleetTicksAreCommon | engine/src/coordinator/dispatch.rs:405-441 | Heard out, a fleet emits as many ticks as the worker with the fewest sent. |
| FleetTotals.DeliveryConserves | engine/src/coordinator/dispatch.rs:421-440 | A message adds exactly its own counts to what is emitted and parked. |
| FleetTotals.AggregationConserves | engine/src/coordinator/dispatch.rs:405-441 | At every step emitted plus parked counts equal the received ones, and the running totals are those of the emitted ticks. |
| DispatchSummary.RunOneWorker | engine/src/coordinator/dispatch.rs:344-394 | A worker's summary is the sum of everything it streamed, its least onset, and whether a final partial came. |
| DispatchSummary.Summarize | engine/src/coordinator/dispatch.rs:257-292 | The report adds the workers up, keeps the least onset, and counts unfinished workers as lost unless aborted. |
| DispatchSummary.ReceivedIsDelivered | engine/src/coordinator/dispatch.rs:365-392 | What the aggregator received is what the workers streamed so far. |
| DispatchSummary.ReportAccountsForTicks | engine/src/coordinator/dispatch.rs:257-285 | Heard out, the report's totals are the last emitted totals plus the parked counts; cut short by an abort, they are at least the emitted ones. |
| DispatchSummary.StreamTotalIsSnapshot | engine/src/worker.rs:646-662 | What a worker has streamed adds up to its counters at its last streamed snapshot. |
| DispatchSummary.FleetTicksShowCounters | engine/src/coordinator/dispatch.rs:525-527 | End to end: the totals of the fleet's i-th tick are the sums of the workers' live counters at their i-th snapshots. |
| Framing.Socket.Read | engine/src/worker.rs:1128-1133 | A read takes a non-empty prefix of what arrives, bounded by the room left, or reports how the stream stopped. |
| Framing.HeaderEndOfPrefix | engine/src/worker.rs:1065-1068 | Whether and where a header ends does not change as bytes follow it. |
| Framing.HeaderEndMeans | engine/src/worker.rs:1065-1068 | A header ends with the first CR LF CR LF, and nowhere if there is none. |
| Framing.BlankLineIsStable | engine/src/worker.rs:1065-1103 | Every parser that waits for the blank line and reads only the header is prefix stable. |
| Framing.FoundIffFits | engine/src/worker.rs:1087-1099 | A read succeeds if and only if the whole stream starts with a complete response no longer than the buffer. |
| Framing.WhenToStop | engine/src/worker.rs:1106-1133 | The verdict on the bytes so far is final as soon as they parse, and at the latest when the buffer is full, the stream stalls, or nothing more comes. |
| Framing.Reader.Fill | engine/src/worker.rs:1128-1133 | A read grows the buffer or tells how the stream stopped, and the unconsumed bytes stay the same. |
| Framing.Reader.ReadOne | engine/src/worker.rs:1054-1135 | The result depends only on the unconsumed bytes and how the stream ends, not on the reads, and none of those bytes is lost. |
| Framing.Reader.Shift | engine/src/worker.rs:1015-1024 | The buffer then holds exactly the bytes beyond the consumed response. |
| Framing.Reader.Next | engine/src/worker.rs:878-1024 | Consuming a response leaves exactly the suffix of the stream after it. |
| Framing.Reader.ReadUpTo | engine/src/worker.rs:840-1024 | Over a whole connection the responses are the first of those in the stream, and the rest of the stream is still to come. |
| Framing.MessagesRecovered | engine/src/worker.rs:1054-1135 | Any messages a server writes, each no longer than the buffer, come out one by one whatever follows them. |
| Framing.OversizeFails | engine/src/worker.rs:1124-1127 | A message longer than the buffer is never accepted and ends in an error. |
| EventStream.ParseSse | cli/src/main.rs:504-523 | The parser's loop computes the fold over the block's lines. |
| EventStream.DrainIsIncremental | cli/src/main.rs:487-494 | Draining what has arrived and then the rest yields the same blocks and the same rest as draining everything at once. |
| EventStream.Consumer.Feed | cli/src/main.rs:487-494 | One chunk drains every block it completes and keeps the incomplete one. |
| EventStream.Consumer.StreamTicks | cli/src/main.rs:469-497 | After any chunks of bytes the accumulator has handled exactly the events of the chunks' decoded texts put together. |
| EventStream.ItemIsBlock | control/internal/api/stream.go:356-363 | Each printed tick or comment is one block, whatever follows it. |
| EventStream.PayloadSurvivesIffClean | cli/src/main.rs:504-523 | A one-line payload comes back as sent if and only if it is not empty, starts with no space and ends with no carriage return. |
| EventStream.TextRoundTrip | cli/src/main.rs:488-493 | The ticks of a whole stream of one-liners come back, in order, if and only if all payloads are such. |
| EventStream.CommentIsNothing | control/internal/api/stream.go:333 | Comments and keepalives yield no event. |
| EventStream.StreamRoundTrip | cli/src/main.rs:485-495 | For any one-line ticks and comments and any chunks of the bytes that hold whole characters, the CLI finds exactly the tick payloads, in order, if and only if they are clean, with nothing left over. |
| EventStream.AsciiStreamRoundTrip | control/internal/api/stream.go:337-353 | With ASCII payloads and comments the same for every chunking of the bytes. |
| EventStream.BrokenStreamIsPrefix | cli/src/main.rs:485-496 | A connection that breaks anywhere, even inside a character, delivers a prefix of the ticks. |
| Utf8.EncodingIsStandard | cli/src/main.rs:487 | Every character takes the bytes that RFC 3629 gives it. |
| Utf8.ChunksDecodeIffWhole | cli/src/main.rs:486-487 | Chunks decoded one by one join to the text sent if none cuts a character, and only then unless the text has the replacement character itself. |
| Utf8.SplitLetterIsLost | cli/src/main.rs:487 | A two-byte letter in two chunks is lost under every lossy decoder. |
| Utf8.SomeDecoderIsLossy | cli/src/main.rs:487 | There is a decoder that inverts UTF-8 and marks whatever is not UTF-8, one mark for a character cut short at the end. |
| Utf8.AsciiChunksAreWhole | cli/src/main.rs:486-487 | No chunk of ASCII text cuts a character. |
| Utf8.BrokenChunksDecode | cli/src/main.rs:486-487 | A stream that breaks off inside a chunk decodes to the first characters of the text, and a mark if the break cut one. |
| EventStream.CliTotalsAreFleetTotals | cli/src/main.rs:557-563 | The totals the CLI sums or copies are the sums of what the aggregator emitted. |
| EventStream.EventsAreKnown | cli/src/main.rs:525-566 | Whatever events arrive, the CLI has counted exactly the ticks among them that decode: how many, their three sums, and the last one with its total. |
| Replay.ColumnRoundTrip | control/internal/api/stream.go:181-186 | A 64-bit counter comes back from its signed column if and only if it is below 2^63; otherwise as zero. |
| Replay.OrderBySorts | control/internal/store/ticks.go:67 | The query returns all rows in ascending order. |
| Replay.OnlyOneOrder | control/internal/store/ticks.go:67 | Rows with distinct seconds have one ascending order, however they were inserted. |
| Replay.Table.PersistTick | control/internal/api/stream.go:102-128 | A tick is stored as one row, or dropped if its second does not fit the column. |
| Replay.Table.GetTicks | control/internal/api/stream.go:147-177 | The loop replays the ordered rows with 64-bit running totals. |
| Replay.ReplayIsLive | control/internal/api/stream.go:135-178 | Replaying a fully stored stream gives back every live tick, totals included, in whatever order the writes landed. |
| Replay.EmittedTicksAreLive | engine/src/worker.rs:646-662 | A worker's ticks are such a stream: replay gives back its cumulative counters. |
| Replay.FleetTicksAreLive | engine/src/coordinator/dispatch.rs:525-527 | So are the coordinator's, at every point of every interleaving. |
| Pagination.CursorMeans | control/internal/store/store.go:336-355 | Which text is a cursor, the key it gives, and which of the four errors any other text gives. |
| Pagination.CursorRoundTrip | control/internal/store/store.go:336-355 | A cursor decodes to the key it was made of, and is never the empty one. |
| Pagination.SelectIsExact | control/internal/store/store.go:155-175 | The query selects exactly the wanted rows below the cursor, strictly descending. |
| Pagination.SelectMeans | control/internal/store/store.go:155-175 | The same spelled out: the status asked for if any, earlier or equally early with a smaller identifier, in strictly descending order. |
| Pagination.Store.ListRuns | control/internal/store/store.go:144-205 | A page is the first rows of the selection, as many as the limit from 1 to 100 says and otherwise 20, with a next cursor on the last of them if and only if there are more; a bad cursor is an error. |
| Pagination.NextPage | control/internal/store/store.go:158-175 | A cursor on a later table with newer rows selects exactly the rest of the first table's rows. |
| Pagination.Store.Walk | control/internal/store/store.go:144-205 | Walking to exhaustion gives every row once in descending order, even as newer rows arrive between pages. |
| RpsMeter.Meter.Record | mock/src/lib.rs:79-99 | An atomic record at any time keeps the ring a refinement of the log: each bucket holds its last slot and the records since it last changed slots. |
| RpsMeter.Meter.CurrentRps | mock/src/lib.rs:102-113 | The reading is at most the number of logged records in the current and the nine slots before it, and equals it if and only if none of them is overtaken in its bucket. |
| RpsMeter.ReadingIffNotOvertaken | mock/src/lib.rs:79-113 | For atomic records at any times in any order a reading never exceeds the records of its ten slots, and equals them if and only if none is followed by a record of another slot of the same bucket. |
| RpsMeter.OrderedIsNotOvertaken | mock/src/lib.rs:79-113 | Records at times that do not go back overtake none that a later reading covers. |
| RpsMeter.ReadingBetween | mock/src/lib.rs:60-62 | With records in order a reading covers exactly the last 900 ms and the passed part of the current slot, so it lies between the counts of the last 900 and 1000 ms. |
| RpsMeter.CountsAreOfRecords | mock/src/lib.rs:60-62 | The counts that readings are compared with are the numbers of records in those tenths of a second, and of records younger than an age. |
| MeterRace.ExactIffNoneInBetween | mock/src/lib.rs:79-99 | When n simultaneous records of a new slot are through, the bucket has counted n if and only if no addition's turn fell between another record's successful compare-exchange and its store. |
| MeterRace.SomeRaceLoses | mock/src/lib.rs:88-94 | A schedule of two records for which the bucket counts one, and shows the old count under the new slot meanwhile. |
| MeterRace.DelayedRecordMisplaces | mock/src/lib.rs:81-95 | For two slots that share a bucket: a late record of the older one takes the bucket back, and the newer one's record is no longer counted. |
| MeterRace.LateAdditionMisplaces | mock/src/lib.rs:84-87 | An addition that comes after the bucket has changed slots is counted under the wrong slot. |
| MeterRace.AloneIsAtomic | mock/src/lib.rs:79-99 | A record whose operations nobody interrupts is the atomic record. |
| Injector.App.Handle | mock/src/lib.rs:266-271 | Each request is recorded, numbered, and decided on the meter's reading, which with requests in order is that of the last second including itself. |
| Injector.DecideMeans | mock/src/lib.rs:167-226 | A request is hit if and only if the load is above the cliff and the percentage reaches its number within its hundred; a hit request gets its mode's failure and nothing else, any other the healthy response. |
| Injector.SelectedInClosedForm | mock/src/lib.rs:170 | The selected among any consecutive numbers, in closed form. |
| Injector.HundredsAreExact | mock/src/lib.rs:170 | Any whole number of hundreds contains exactly its percentage, wherever it starts. |
| Injector.SelectionIsEven | mock/src/lib.rs:170 | Among any n consecutive requests the number selected is within p(100-p)/100 of np/100. |
| Injector.VerdictOfDecision | engine/src/worker.rs:228-276 | What each injection mode looks like to a worker that checks only for status 200. |
| Injector.OracleAgrees | mock/src/lib.rs:167-226 | Under any load the engine's fail_status tally is exactly the number of requests hit by a fast500, 429s are counted apart, everything else passes. |
| Injector.MeasuredRateIsConfigured | mock/src/lib.rs:167-192 | The measured failures of n consecutive requests above the cliff differ from n times the percentage by at most p(100-p)/100. |
| Verdicts.VerdictsMean | engine/src/worker.rs:228-276 | A response gets exactly the verdict it meets, with every rule spelled out: 429 first, then the first of status, latency, size and type that is broken, and a pass when none is. |
| Verdicts.AddUp | engine/src/coordinator/dispatch.rs:365-376 | The loop over a partial's buckets computes their sum. |
| Verdicts.DifferencesTelescope | engine/src/worker.rs:646-662 | Differences between totals that never go back add up to the last total. |

## Left out

- Floating point: the code computes slots, rates, costs and the meter's reading in `f64`; here they are exact, so a slot can differ from the code's by the rounding of one division or square root.
- Widths: `u64` and `usize` counters are unbounded except where storage narrows them (`Replay`); the wrap of header end plus Content-Length is not modelled.
- Scheduler.ConnSched.DeferOrigin: adds without the saturation at the largest `u64`.
- ConnectionLoop.HonourRateLimit: does not keep the last `Retry-After` nor the shared back-off total, which are only reported.
- ConnectionLoop.Connection.Receive: does not sample bodies; the shared counters it would bump are those of `LiveCounters`.
- ConnectionLoop.RunConnections: runs a worker's connections one after the other; tasks that interleave record the same samples in another order, which leaves the same histograms (`Histogram.OrderIrrelevant`), and share counters as in `LiveCounters`.
- TickContents.FleetTickIsWhole: takes each worker's partial with both histograms, as its node ships them; absent ones are in `TickContents.EmittedTickCarries`.
- LiveCounters.SnapshotsAreSound: atomic operations interleave but are not reordered, so what relaxed memory ordering could add to the tearing of a snapshot is not modelled.
- MeterRace.ExactIffNoneInBetween: is about simultaneous records of one new slot; for interleaved records of different slots of a bucket there are examples and no exact condition.
- RpsMeter.Meter.Record: is one atomic step; the retry loop around the compare-exchange is in `MeterRace`.
- Histogram.MergedQuantileBetween: the quantile 0 and the internal bucket layout of the HDR crate are not modelled; a layout is any monotone bucketing whose reported value lies in the bucket, not below the values that fall there.
- Aggregation.Aggregator.EmitTick: the percentiles of a tick are not stored in it, being read off the merged histogram it carries; undecodable histogram bytes, which the code skips, count as absent.
- DispatchSummary.Summarize: a worker task that panics, the warning text and the dispatch with no workers are not modelled, nor is an abort accepted after the report has read the flag.
- DispatchSummary.ReportAccountsForTicks: is stated one counter at a time.
- Framing.Reader.ReadOne: `Content-Length` and the other header fields are what the header parser reports; `httparse` itself is not part of this model. A deadline that has already passed when a full buffer is examined is a timeout in the code and an error here.
- EventStream.StreamRoundTrip: chunks that cut a character are covered as text, by `Utf8.ChunksDecodeIffWhole`; which events a damaged text still yields is not stated.
- Utf8.ChunksDecodeIffWhole: for a text that has the replacement character itself only the one direction is stated, and how many marks a decoder puts for malformed bytes is left to it.
- EventStream.Consumer.StreamTicks: the printed table and the time limit around the stream are not modelled; ticks the broker drops for a slow subscriber are outside the stream.
- Replay.Table.PersistTick: of a failed write only the out-of-range second is modelled; per-tick correctness buckets and sampled bodies are not stored.
- Pagination.Store.Walk: rows keep their status and are not deleted while a walk is under way.
- Injector.App.Handle: sleeping, headers and bodies beyond their kind are not modelled.
- Connecting, the start barrier, TLS, sockets, gRPC, HTTP handlers, Postgres and clocks: replaced by step arguments.
- Sampling of response bodies and the offload evaluator: no effect on what is counted.
- The cliff detectors, cost guard, comparison and regression arithmetic: one scan or formula each, with no state that outlives a call.
- The registry, reaper, tick broker and run lifecycle: insertions, removals and status changes that none of the modelled components reads back.
