# zou-bench, modelled and proved

zou-bench drives load at a database and publishes numbers: deliveries missing, latency
quantiles, dollars, violations, idle rates. Whether such a number is true is decided by
bookkeeping that is stateful, concurrent and arithmetic, and that bookkeeping is what this
project models in Dafny and proves things about. Nothing here runs; the verifier is the
only judge.

`dafny verify dfyconfig.toml` checks everything.

## What is modelled

**The socket run** (`SocketRun`, `SocketInvariants`, `SocketTheorems`, `SocketRuns`,
`SocketReaders`, `SocketWriters`). A step machine: writers stamp, commit, acknowledge or
fail batches; the control thread opens the window with two separate stores; every reader
loads the two halves of the window on its own; sixty-four sheets are merged one by one
while readers may still be at work. The published `missing` is rows times sockets minus
deliveries. It is proved, over every schedule, what that number is (`MissingIdentity`),
and exactly when it is the count of owed deliveries nobody read, run by run
(`MissingIsExactIff`) and over all clean runs of a set of sockets
(`ExactOnEveryCleanRunIff`). Two finished runs show it wrong when the clock stands still
across the opening of the window and when a socket is refused out of order.

`Writer` proves how evenly the writers spread their rows; `Tally` and `Collectors` that
folding the sheets equals one sheet fed everything, and `Readings` what that sheet says of
the deliveries: which wait is in the histogram, and the mean and the worst of each second.
Both are tied to the machine: in every run the merged total is the histogram's count of what
the merged collectors recorded (`DeliveredIsOneSheet`), and after every push the row counts
are the writers' walks counted shard by shard (`RowsAreTheWritersHits`). `Histogram` proves
the one percent bound of the published quantiles, `WebSocket` the frames of sections 5.2 to
5.5 of RFC 6455, bit by bit.

**The soak** (`Ledger`, `Tpcb`, `TpcbBalance`, `Drills`). Clients interleave, statements
fail, acknowledgements are lost, servers are killed. The TPC-B identity holds in every
reachable state; the acked-write check succeeds exactly when every acked id is in the
table; a server that keeps what it commits is never accused, and one lost row is caught.

**Counters to dollars** (`Counters`, `Pricing`, `Repricing`). 830 counter slots become a
bill along two independent paths, one as the run ends and one from the file it wrote.
`RepricingAgreesOnCardIff` says exactly when the two bills agree on one price card,
`RepricingAgreesIff` when they agree on every one.

**Idle rates** (`IdleRates`). One pass over samples of cumulative counters puts every
interval on one pile; on a truly linear node the two published rates are exactly right
however it is sampled.

**Self-contained algorithms.** The process-tree walk (`ProcessTree`), the crash-safe state
file (`FleetState`, `FleetDurability`), the encoding that is both signed and sent
(`CanonicalQuery`), placeholder rewriting (`Expand`), the probe's retry accounting
(`Probe`) and time buckets with their order statistics (`Buckets`).

`Options`, `ByteStrings`, `Sorting`, `Sums` and `RoundRobin` hold what the others share.
Objects that the source updates in place are classes whose methods are proved against
specification functions; protocols with more than one actor are step machines over values.

## Where the code and what is said of it differ

The model follows the code; each point below is a lemma.

- `sockets/sockets.go:396-398` works out a shard's sockets from how many are held, and
  `sockets/sockets.go:303-306` says only shards with a socket are written to. Both are
  right when the ids that are up are evenly dealt (`BalancedIffEvenlyDealt`,
  `WrittenShardsAreJoined`), and the published missing is right on every clean run
  exactly then (`ExactOnEveryCleanRunIff`). In `RefusedOutOfOrder` a shard nobody joined
  is written to and its row reads as missing.
- `sockets/writer.go:150-151` says warm-up rows are owed to nobody. One stamped in the
  very microsecond the window opens is still counted by its readers (`ClockStandsStill`).
- `fleet/idle.go:133-137` speaks of what follows the last detach. The code leaves out
  every quiet interval that begins before the drain of any attached sample is over, be
  that sample an earlier or a later one (`QuietIsDrainedIff`); in `QuietBetweenIsLeftOut`
  half an hour of quiet between two attached samples is lost.
- `fleet/state.go:72-74` promises a ref is written as it becomes ready. After a save that
  failed, a second `Add` of the same ref returns no error and writes nothing
  (`AcknowledgedIsOnDiskIff`, `FailedThenForgotten`).
- `probe/probe.go:79-80` promises every key is deleted before the run returns. A run that
  fails leaves a key behind unless the operations that took effect end in front of a
  round trip of the warm-up, just after the warm-up, or with the last delete
  (`FailureLeavesKeys`); `RefusedRun` is such a run for every operation that can fail.
- `cmd/zoubench/sustain.go:738-740` says only a stable wrong answer counts as data loss. The
  first answer decides, whatever a second would have read (`FirstAnswerDecides`,
  `OneShortAnswerIsAViolation`), and a check nobody answered is a violation too
  (`UnreadableIsAViolation`), told apart only by its recorded error.
- `zoustats/zoustats.go:163-171` leaves out classes with a zero count, bytes and all, while
  `Sum` adds them (`RepricingAgreesIff`, `RepricingAgreesOnCardIff`); `OddCountersPriceApart`
  has counters that are billed differently as the run ends and from its file.
- `resthttp/resthttp.go:297` draws from a range whose width is worked out in 64 bits. A
  field of 2^63 integers or more stops the program instead of being filled; `Expand`
  returns exactly if no field is so wide (`AllFit`), and `WidestRangePanics` is the
  narrowest range from zero that is.
- `sockets/ws.go:227` makes room for whatever length a frame declares. One of 2^63 bytes or
  more stops the program (`PanicsIff`).

## Model

| member | source | states |
|---|---|---|
| Histogram.Index | sockets/hist.go:68-85 | the bucket of a duration, computed in 64 bits without overflow, past the last decade at a thousand seconds |
| Histogram.Upper | sockets/hist.go:91-98 | the inclusive bound of a bucket, without overflow |
| Histogram.BucketMonotone | sockets/hist.go:68-85 | a longer duration never lands in an earlier bucket |
| Histogram.WithinFits | sockets/hist.go:80-83 | the clamp to the last hundredth of a decade never fires |
| Histogram.BoundIsACeiling | sockets/hist.go:91-98 | the bound of the bucket a duration lands in is never under it, and at most one percent over it |
| Histogram.BucketIsASpan | sockets/hist.go:68-85 | bucket i of decade d holds exactly the durations from 100+i to 101+i hundredths of ten to the d |
| Histogram.UpperEndsTheSpan | sockets/hist.go:91-98 | the bound of that bucket is the end of its span in whole microseconds |
| Histogram.Hist.Add | sockets/hist.go:44-66 | one more duration in the history, with zero and negative ones recorded as zero |
| Histogram.Hist.Merge | sockets/hist.go:102-118 | the history of both; nothing and an empty one change nothing |
| Histogram.OfConcat | sockets/hist.go:102-118 | recording two histories one after the other is merging their histograms |
| Histogram.OfCounts | sockets/hist.go:19-26 | every bucket, the overflow and the total count what they are named for |
| Histogram.OfSum | sockets/hist.go:44-66 | the sum is that of every duration recorded |
| Histogram.OfBounds | sockets/hist.go:44-66 | the kept extremes enclose the history and are members of it |
| Histogram.HistorySorts | sockets/hist.go:125-141 | every history has the sorted order a quantile is about |
| Histogram.Hist.Quantile | sockets/hist.go:125-141 | after any history of adds and merges, the published bound is at least the ceil(q n)-th smallest duration and at most one percent above it in range |
| Tally.SheetPermutation | sockets/sockets.go:769-817 | a sheet does not depend on the order its deliveries came in |
| Tally.TallyIsOneSheet | sockets/sockets.go:432-485 | however deliveries are split over collectors and ordered, the fold is the sheet of one collector fed all of them |
| Tally.CountsAgree | sockets/sockets.go:795-814 | the shards and the seconds both add up to the histogram's count, and with the strays to every delivery |
| Readings.HistogramOfWaits | sockets/sockets.go:795-799 | a sheet's histogram is that of the microseconds from stamp to arrival of the deliveries in the window, none below zero |
| Readings.SecondsHold | sockets/sockets.go:800-813 | a second is there exactly when a delivery falls into its million microseconds, and holds how many do, the sum of their milliseconds and the longest |
| Readings.ShardsCount | sockets/sockets.go:793-800 | a shard's count is that of its deliveries in the window, and the strays are all the others |
| Collectors.Collector.Record | sockets/sockets.go:792-815 | a delivery in the window is in one bucket, one second and one shard, any other is a stray |
| Collectors.Collector.Tick | sockets/sockets.go:801-813 | the shard and the second of one counted delivery |
| Collectors.FoldShards | sockets/sockets.go:442-444 | shard counts of two sheets added, absent ones as zero |
| Collectors.FoldSeconds | sockets/sockets.go:445-456 | seconds of two sheets joined: counts and sums added, the worst kept |
| Collectors.SortTimes | sockets/sockets.go:463-467 | the insertion sort leaves the same seconds in ascending order |
| Collectors.TimelineOf | sockets/sockets.go:459-483 | every second once, in order, counted from the first, with the mean and the worst of its sum |
| Collectors.SlotShows | sockets/sockets.go:468-475 | a published second has the number of deliveries that fell into it, their mean wait in milliseconds and their worst |
| Collectors.TimelineShows | sockets/sockets.go:459-483 | the timeline shows exactly the seconds some delivery fell into, each so |
| Collectors.TimelineTotal | sockets/sockets.go:468-475 | the timeline adds up to what its seconds held |
| Collectors.TimelineFromZero | sockets/sockets.go:476-483 | the timeline starts at zero and is strictly increasing |
| Collectors.FoldInto | sockets/sockets.go:438-457 | folding one collector in appends what it recorded |
| Collectors.FoldSheets | sockets/sockets.go:432-458 | the collectors folded one after another are one sheet fed all they recorded |
| Collectors.TallySheets | sockets/sockets.go:432-485 | the published histogram, timeline, shards and strays are what the recorded deliveries say, second by second with mean and worst, and the timeline and the shards both sum to what was delivered |
| SocketRun.InOwed | sockets/sockets.go:366-369 | a delivery is owed when its row was counted by its writer and its socket joined on the row's shard |
| SocketInvariants.StepInv | sockets/sockets.go:243-378 | every step of a run keeps the window, the batches, the readers, the sheets and the row counts consistent |
| SocketInvariants.RunInv | sockets/sockets.go:243-378 | so does every run |
| SocketInvariants.OnlyTheFinalWindow | sockets/sockets.go:793-797 | a reader that loads the halves of the window at different moments counts only stamps inside the final window |
| SocketTheorems.MultiplicationExact | sockets/sockets.go:366-371 | rows times sockets is what those rows are owed, for all row counts, if and only if the assumed split is the one that joined |
| SocketTheorems.PrefixIsBalanced | sockets/sockets.go:399-405 | with no id refused the split is right |
| SocketTheorems.BalancedIffEvenlyDealt | sockets/sockets.go:399-405 | it is right exactly when shard counts never rise along the shards and differ by at most one |
| SocketTheorems.WrittenShardsAreJoined | sockets/sockets.go:407-417 | when it is right, the shards written to are exactly those with a socket |
| SocketTheorems.MissingIdentity | sockets/sockets.go:366-371 | in every reachable state, missing is the split's error plus owed and unread less counted and not owed |
| SocketTheorems.PhantomsAre | sockets/writer.go:143-161 | a counted delivery nobody owes is one of a failed insert that committed, or of a warm-up row stamped as the window opened |
| SocketTheorems.MissingIsExactIff | sockets/sockets.go:366-371 | with an even split missing is exactly the owed deliveries not read, if and only if there is no such delivery |
| SocketTheorems.MissingOnACleanRun | sockets/sockets.go:318-371 | on a run with no refused id, no failed insert and a moving clock it is, and it is zero exactly when all arrived |
| SocketTheorems.WarmupIsNeverCounted | sockets/sockets.go:318-340 | at no moment does a reader count a warm-up row stamped before the window opened |
| SocketRuns.OneRowRun | sockets/sockets.go:361-371 | a finished clean run for every shard that is written to, whose published missing is the sockets the shard is believed to have |
| SocketRuns.FinishRun | sockets/sockets.go:341-371 | from the end of any push, a run whose tally publishes exactly what was counted |
| SocketRuns.WrittenShardsDecide | sockets/sockets.go:399-417 | the split is right everywhere if it is right on the shards that are written to |
| SocketRuns.UnbalancedIsExposed | sockets/sockets.go:399-405 | wherever the split is wrong some finished clean run publishes a wrong missing |
| SocketRuns.ExactOnEveryCleanRunIff | sockets/sockets.go:366-371 | the published missing is the owed deliveries not read on every clean run, if and only if the ids that are up are evenly dealt |
| SocketRuns.ClockStandsStill | sockets/sockets.go:333-336 | a finished run whose published missing is minus one |
| SocketRuns.RefusedOutOfOrder | sockets/sockets.go:577-588 | a finished clean run, one id refused, whose published missing is one with nothing owed |
| SocketReaders.BooksAgree | sockets/sockets.go:769-817 | after every run each sheet is the number of in-window frames its collector has recorded, and the merged total that of the collectors merged, as they were then |
| SocketReaders.DeliveredIsOneSheet | sockets/sockets.go:432-485 | in every run the merged total is the histogram count of the one sheet fed all that the merged collectors recorded, and a finished run has merged every one |
| SocketWriters.MetHits | sockets/writer.go:114-163 | the batches a writer stamped, with the fate each met, credit each shard with the rows the writer's walk counts there |
| SocketWriters.RowsAreTheWritersHits | sockets/writer.go:73-163 | in every run whose push is over, the row count of each shard is what the writers count there between them |
| SocketWriters.RowsAreEven | sockets/writer.go:109-112 | so no two subscribed shards of a run differ by more rows than there are writers, whatever failed |
| Writer.SharesSumToRows | sockets/writer.go:93-102 | the shares of all writers are the whole rate |
| Writer.Counters.Pump | sockets/writer.go:93-163 | a writer counts the rows of its batches stamped in the window, up to its deadline or the first insert that fails |
| Writer.Counters.Drive | sockets/writer.go:114-163 | the ticking loop counts every such row once, on its shard |
| Writer.WriterStartsInTurn | sockets/writer.go:93-112 | a writer's rows are its share of the rate in batches no larger, from a start one batch further for each writer before it |
| Writer.HitsOfOneMore | sockets/writer.go:114-161 | what one more tick adds: its batch if it goes through with a stamp in the window, and nothing is added from the first that does not go through |
| Writer.WalkIsRound | sockets/writer.go:131-134 | the rows of a batch go round the shards |
| Writer.HitsAreAStretch | sockets/writer.go:112-161 | with stamps that never go back, the counted rows are one unbroken stretch of the walk over the shards |
| Writer.OneWriterIsEven | sockets/writer.go:109-112 | one writer's counted rows differ by at most one between any two shards |
| Writer.PushIsEven | sockets/writer.go:73-163 | all writers' together by at most the number of writers |
| WebSocket.FrameRoundTrip | sockets/ws.go:137-163 | reading a written frame gives it back and leaves what follows untouched, for every length and mask |
| WebSocket.EncodingIsMinimal | sockets/ws.go:140-152 | no encoding of the frame is shorter than the one written |
| WebSocket.UnmaskTwice | sockets/ws.go:153-156 | masking twice with one key is no masking |
| WebSocket.UnmaskMasks | sockets/ws.go:153-156 | a masked byte differs from the payload's in exactly the bits set in its byte of the key |
| WebSocket.ClientFrame | sockets/ws.go:137-163 | the bytes of a written frame: first byte, masked length, length bytes highest first, key, masked payload |
| WebSocket.FrameBits | sockets/ws.go:198-237 | what a read frame says of each bit of its head, the length it declares, and the bits of its payload |
| WebSocket.Opcodes | sockets/ws.go:171-196 | what each of the sixteen opcodes does to a read, and the bytes it is answered with |
| WebSocket.MessageRoundTrip | sockets/ws.go:171-196 | however a message is cut and interleaved with pings and pongs, reading gives it joined, answers every ping once in order, and stops behind it |
| WebSocket.Conn.Write | sockets/ws.go:137-163 | one final frame on the wire, byte by byte as `IsClientFrame` has it, with bit b of payload byte i flipped exactly where key byte i modulo 4 has it set; or nothing if writing fails |
| WebSocket.Conn.ReadFrame | sockets/ws.go:198-237 | the next frame with its last-fragment bit, four opcode bits and declared length, an error with nothing left when the input ends inside it, or a panic |
| WebSocket.Conn.ReadBody | sockets/ws.go:221-236 | the payload with the bits of the key taken off, a short input, or a panic on a length of 2^63 or more once the key is read |
| WebSocket.PanicsIff | sockets/ws.go:207-228 | reading panics exactly on a 64-bit length with its top bit set whose key, if any, arrived |
| WebSocket.Conn.Read | sockets/ws.go:171-196 | the next message, end, unknown opcode, failure or panic, with what is left unread and what was answered |
| WebSocket.Header | sockets/ws.go:138-151 | the first bytes of a frame with the shortest length form |
| WebSocket.UnmaskInPlace | sockets/ws.go:231-235 | every bit of byte i flipped exactly where byte i modulo 4 of the key has it set |
| Ledger.Ledger.Next | sustain/sustain.go:136-142 | ids are handed out once each, upwards |
| Ledger.Ledger.MaxAcked | sustain/sustain.go:159-166 | the highest acked id, zero when there is none |
| Ledger.Ledger.Chunks | sustain/sustain.go:173-182 | the acked ids in order, in full pieces but for the last |
| Ledger.WriteLedger | cmd/zoubench/sustain.go:768-794 | acked ids keep strictly increasing and an id whose insert did not answer is never tried again |
| Ledger.OneTick | cmd/zoubench/sustain.go:777-793 | what one tick does with and without a connection, a dial and an answer |
| Ledger.TicksConcat | cmd/zoubench/sustain.go:768-794 | and one series of ticks after another |
| Ledger.SoakQuery | cmd/zoubench/sustain.go:741-760 | the first of at most five attempts that answers |
| Ledger.FifthIsTheLast | cmd/zoubench/sustain.go:741-760 | the fifth attempt counts if none answered before it, a sixth does not |
| Ledger.CountIsMembership | cmd/zoubench/sustain.go:1009-1017 | counting a chunk in the keyed table finds its length exactly when every id of it is there |
| Ledger.VerifyLedger | cmd/zoubench/sustain.go:1000-1019 | the check succeeds exactly when every chunk is answered from a table that has all of it, and errors exactly when a query went unanswered first |
| Ledger.VerifyIsMembership | cmd/zoubench/sustain.go:1000-1019 | against one table, success is exactly that every acked id is in it |
| Ledger.StepInv | cmd/zoubench/sustain.go:768-794 | a dial, an attempt, a commit, a late commit, a broken connection or a kill keeps acked ids increasing and, without loss, in the table |
| Ledger.RunInv | sustain/sustain.go:119-126 | so does every run of them |
| Ledger.FirstWrite | cmd/zoubench/sustain.go:768-794 | the shortest run that acknowledges anything |
| Ledger.DurableRunsVerify | cmd/zoubench/sustain.go:984-999 | if committed rows survive, every acked id is in every table read later |
| Tpcb.Loop | tpcb/tpcb.go:113-158 | one client against any replies sends the seven statements in order, rolls back what fails, and counts commits and failures |
| Tpcb.RunScript | tpcb/tpcb.go:132-141 | one round sends its statements up to the first that fails |
| Tpcb.RoundsAccount | tpcb/tpcb.go:113-158 | against any replies every transaction begun is counted, failed or under way, and every failure is rolled back once |
| Tpcb.NextTurn | tpcb/tpcb.go:116-156 | what each reply leads to: the next statement, the rollback, a new round, or the end of the client |
| Tpcb.OneTransaction | tpcb/tpcb.go:121-129 | served alone, the seven statements add the delta to one account, one teller, one branch and the history, and the select reads the account balance just written |
| Tpcb.LoadedRows | tpcb/tpcb.go:117-119 | how many accounts, tellers and branches there are at each scale |
| TpcbBalance.UpdateInv | tpcb/tpcb.go:122-125 | an update under row locks leaves every open transaction holding exactly its own deltas |
| TpcbBalance.CommitMoves | tpcb/tpcb.go:121-129 | a commit moves all three tables by the same delta |
| TpcbBalance.CommitInv | tpcb/tpcb.go:127-158 | a commit keeps the identity, acknowledged or not, and leaves other open transactions correct |
| TpcbBalance.KillInv | cmd/zoubench/sustain.go:272-298 | a kill that drops the open transactions keeps it |
| TpcbBalance.StepInv | tpcb/tpcb.go:66-158 | so does every step of any number of clients |
| TpcbBalance.BalanceAlwaysHolds | cmd/zoubench/sustain.go:1021-1037 | from a fresh load the balance check holds in every reachable state, and history has one row per counted or unacknowledged commit |
| TpcbBalance.BalanceIsEveryTable | cmd/zoubench/sustain.go:1027-1038 | the check compares all three tables with the history |
| TpcbBalance.WrongRowIsCaught | cmd/zoubench/sustain.go:1021-1038 | where the balance holds, changing any one row by anything breaks it |
| TpcbBalance.LostHistoryIsCaughtIff | cmd/zoubench/sustain.go:1021-1038 | where it holds, losing one transaction from the history breaks it exactly if that moved anything |
| Drills.VerifyBalance | cmd/zoubench/sustain.go:1027-1037 | true exactly when an answer came and the identity held in it |
| Drills.Soak.AfterDrill | cmd/zoubench/sustain.go:308-329 | the drill records both verdicts and whether a check went unanswered, and violations stay the number of bad verdicts |
| Drills.UnreadableIsAViolation | cmd/zoubench/sustain.go:308-329 | a check that nobody answered is counted like one that came back broken |
| Drills.NoViolationIff | cmd/zoubench/sustain.go:308-329 | no violation exactly when every check of every drill held |
| Drills.HonestServerPasses | cmd/zoubench/sustain.go:308-329 | a server that keeps what it commits passes every check that is answered, through kills and lost acknowledgements |
| Drills.LostRowIsCaught | cmd/zoubench/sustain.go:1000-1019 | one acked row fails the drill if the query that names it is unanswered or reads a table without it, whatever the others read |
| Drills.FirstAnswerDecides | cmd/zoubench/sustain.go:741-760 | a chunk passes exactly when the first answer has all of it, whatever a second would have |
| Drills.OneShortAnswerIsAViolation | cmd/zoubench/sustain.go:738-760 | attempts whose first answer is short and second full fail the check |
| Counters.SlotsApart | zoustats/zoustats.go:84-114 | count and byte slots of different kinds and classes are different and inside the op section |
| Counters.SlotHolds | zoustats/zoustats.go:85-114 | the op section slot by slot: fourteen to a kind, a count and its bytes to a class, and conflicts at slot 284 of 830 |
| Counters.Diff | zoustats/zoustats.go:143-153 | fails exactly when some counter shrank, naming the first, and otherwise differences every slot |
| Counters.DiffsTile | zoustats/zoustats.go:143-153 | two phases that difference make a whole that does, and it is their sum slot by slot |
| Counters.Sum | zoustats/zoustats.go:313-334 | totals over classes, range gets with gets and conditional puts with puts |
| Counters.OneMoreOperation | zoustats/zoustats.go:313-334 | what n more operations or bytes in any slot add to the totals, and that they add nothing else |
| Counters.NothingCounted | zoustats/zoustats.go:313-334 | counters that never moved total nothing |
| Counters.TotalsTile | zoustats/zoustats.go:313-334 | the totals of two phases add up to those of the whole |
| Counters.KindBlock | zoustats/zoustats.go:162-177 | a kind's block counts all of it, and its bytes but for classes without operations |
| Counters.Report | zoustats/zoustats.go:159-187 | a block for exactly the kinds that saw traffic |
| Pricing.Compute | cost/cost.go:155-208 | the lines of a bill before rounding, those without a divisor left out; what each line is, is in the five rows below |
| Pricing.RequestPrices | cost/cost.go:146-150 | nothing without requests, and n more puts or lists cost n millionths of the class A price, n more gets of class B, n more deletes of the delete price |
| Pricing.StorageIsByTheGB | cost/cost.go:161-166 | bytes stored are billed by the GB, and nothing else is unless requests were measured |
| Pricing.TransferIsByTheGB | cost/cost.go:170-175 | bytes moved are billed by the GB at the price of their direction, on a line that is there only if it is positive |
| Pricing.EgressIsAboveTheAllowance | cost/cost.go:177-185 | egress is nothing up to the allowance, which grows with what is stored, and its price per GB above it |
| Pricing.WorkloadAndItsUnits | cost/cost.go:176-207 | the workload is requests, transfer and egress, and each unit price is there exactly when its units were counted and times them is the workload |
| Pricing.LinesAddUp | cost/cost.go:155-208 | the printed lines add up to the workload exactly when transfer is not negative, and each unit price times its units is the workload |
| Pricing.RequestsTile | cost/cost.go:146-150 | request dollars of two phases are those of the whole |
| Pricing.LoadPlusWindowIsWhole | cmd/zoubench/run.go:264-313 | loading and the timed window cost, request for request, what the whole would have |
| Pricing.RunUsage | cmd/zoubench/run.go:227-327 | what a run prices: growth and commits only when positive, operations only when there was traffic |
| Pricing.RunIsBilled | cmd/zoubench/run.go:227-327 | a run is billed for the store as it was left, per GB of what it grew by, and for the requests and bytes of its counters if they saw any |
| Pricing.TruncIsWhole | cmd/zoubench/run.go:227-327 | a float count loses its fraction towards zero |
| Pricing.RunUsageFromFile | cmd/zoubench/cost.go:121-159 | what the recorded file prices, missing or mistyped entries as nothing |
| Pricing.FileKeepsEgress | cmd/zoubench/cost.go:121-159 | asking for egress changes nothing else, and a file without counters prices as nothing measured |
| Pricing.MissingIsNothing | cmd/zoubench/cost.go:121-159 | an entry that is missing or of another type counts as nothing |
| Repricing.ReadBack | zoustats/zoustats.go:159-187 | a kind read back from the file has its count, and its bytes less those of silent classes |
| Repricing.Rebuilt | cmd/zoubench/cost.go:121-159 | the usage rebuilt from the file against the run's own, field by field |
| Repricing.RepricingAgrees | cmd/zoubench/cost.go:121-159 | for well-formed counters with traffic and every card, the file prices as the run did |
| Repricing.RepricingAgreesIff | cmd/zoubench/cost.go:121-159 | and on every card only for well-formed ones |
| Repricing.RepricingAgreesOnCardIff | cmd/zoubench/cost.go:121-159 | on one card the two bills are equal exactly when the bytes of classes without operations cost nothing on it |
| Repricing.OddCountersPriceApart | zoustats/zoustats.go:159-187 | one get and five bytes in a class without operations: billed apart by a card that charges for retrieval, alike by every card without transfer prices |
| Repricing.NoTrafficIsUnmeasured | cmd/zoubench/run.go:270-280 | a window without traffic is unmeasured both times |
| IdleRates.Rates | fleet/idle.go:138-201 | the samples are sorted in place and stably, every interval is put on its pile, the rates are those of the piles, and a dormant window is reported exactly when there is one |
| IdleRates.Classify | fleet/idle.go:152-181 | the pass over neighbouring samples, each interval on its pile |
| IdleRates.PilesAreSums | fleet/idle.go:161-181 | each pile holds, kind by kind, what that counter moved over its intervals, and their seconds and project seconds |
| IdleRates.PileMeans | fleet/idle.go:153-181 | an interval is dropped as a restart exactly when some counter fell over it, and attached exactly when none did and something was held as it began |
| IdleRates.OneQuietHour | fleet/idle.go:161-184 | a quiet node sampled twice an hour apart is said to do in an hour what each of its four counters moved |
| IdleRates.SortByElapsed | fleet/idle.go:143 | the same samples in order of time, those of one time in the order they came |
| IdleRates.After | fleet/idle.go:113-121 | exactly the samples from the given second on, none twice, order kept |
| IdleRates.SecondsConserved | fleet/idle.go:152-181 | every second between the first and the last sample is dormant, attached or dropped, once |
| IdleRates.QuietIsDrainedIff | fleet/idle.go:144-177 | a quiet interval is left out exactly when it begins before the drain of some attached sample, earlier or later, is over, and is dormant otherwise |
| IdleRates.QuietBetweenIsLeftOut | fleet/idle.go:133-177 | a hold with half an hour of quiet between two attached samples that has no dormant window |
| IdleRates.DormantComesLast | fleet/idle.go:170-176 | a dormant interval comes after every attached sample, with the drain between |
| IdleRates.RatesAccountForTheOps | fleet/idle.go:182-199 | the attached window charged at the published rates gives its ops, or the node's own share where that was more |
| IdleRates.RatesAreExact | fleet/idle.go:138-201 | on a node that grows at d an hour and p per attached project, the rates are exactly d and p however it is sampled |
| CanonicalQuery.UriEncode | probe/s3.go:151-164 | unreserved bytes kept, the slash in paths, every other as two upper-case hexadecimal digits |
| CanonicalQuery.EncodeRoundTrip | probe/s3.go:151-164 | percent-decoding gives the string back, in a path and in a query |
| CanonicalQuery.EncodingIsTheOnly | probe/s3.go:145-164 | the encoding is the one string that decodes to the input in which every percent has two of 0-9A-F behind it, every other byte stands for itself, and no triple stands for such a byte |
| CanonicalQuery.DigitsRead | probe/s3.go:151-164 | what a server makes of a hexadecimal digit of either case |
| CanonicalQuery.SignedPathIsSent | probe/s3.go:121-124 | the path signed, re-encoded from the decoded url, is the path sent |
| CanonicalQuery.CanonicalQuery | probe/s3.go:170-188 | keys sorted and each once, values sorted under their key |
| CanonicalQuery.CanonicalIsUnique | probe/s3.go:166-169 | there is one canonical form of a query |
| CanonicalQuery.ListRequest | probe/s3.go:81-87 | the canonical query of a list request for any prefix, character for character |
| ByteStrings.LeIsLexicographic | probe/s3.go:174-182 | keys and values are ordered by the first byte in which they differ, a prefix first |
| CanonicalQuery.QueryReadsBack | probe/s3.go:170-188 | a server that splits and decodes gets every key that has values, with its values in order |
| CanonicalQuery.QueryRoundTripIff | probe/s3.go:170-188 | nothing but value order is lost, exactly when every key has a value |
| CanonicalQuery.CanonicalIsInjective | probe/s3.go:170-188 | two queries whose keys have values are sent alike only if alike up to value order |
| CanonicalQuery.SignedQueryIsSent | probe/s3.go:121-128 | canonicalising the query of the sent url again gives the string that was sent |
| Expand.Expand | resthttp/resthttp.go:281-303 | returns exactly when every field the single pass meets holds fewer than 2^63 integers; rescanning then gives what the single pass gives, with no hexadecimal marker and no closable random marker left |
| Expand.FillFirst | resthttp/resthttp.go:283-297 | the first complete field replaced by an integer of its range, nothing to replace, or a panic exactly when that range is too wide |
| Expand.FillRandLoop | resthttp/resthttp.go:282-298 | the first loop is one pass from left to right, or a panic exactly when some field of that pass is too wide |
| Expand.OneFieldTemplate | resthttp/resthttp.go:291-297 | a template of one field returns exactly when its range holds fewer than 2^63 integers |
| Expand.WidestRangePanics | resthttp/resthttp.go:291-297 | the range from zero to 2^63-1 panics and the one a single integer narrower does not |
| Expand.Inert | resthttp/resthttp.go:297-301 | inserted text never helps to complete a marker |
| Expand.DrawIsInRange | resthttp/resthttp.go:291-297 | exactly the integers of the range can be inserted, if there are fewer than 2^63 and else none, and the text reads back as the integer |
| Expand.RangeOfField | resthttp/resthttp.go:292-297 | the range of a field: up to one where no upper end scanned, the lower end alone where the upper is below it |
| Expand.DecimalIsPlain | resthttp/resthttp.go:297 | an integer is printed with a sign exactly when it is negative and no leading zero |
| Expand.FillsInPlace | resthttp/resthttp.go:283-297 | the text before a field stays, the drawn integer stands for it, and the pass goes on behind it with the next draw |
| Expand.FillsWordInPlace | resthttp/resthttp.go:299-301 | and so with a word |
| Expand.HexWordReadsBack | resthttp/resthttp.go:300 | a word is eight lower-case digits that say the low 32 bits drawn |
| Expand.WordsKeepWritesApart | resthttp/resthttp.go:278-302 | two expansions of one template are equal only if every word drawn for them is |
| ProcessTree.ChildrenOf | sampler/tree.go:64-76 | the children of every pid in table order |
| ProcessTree.TreePids | sampler/tree.go:77-90 | for any table, cycles and repeats included, exactly the pids reachable from the root, once each, each after one of its parents |
| ProcessTree.StrangersStayOut | sampler/tree.go:77-90 | a process outside every closed set of children around the root is not counted |
| FleetState.LoadState | fleet/state.go:36-63 | an empty state without a file, refusal of another store or secret, and otherwise the file's list |
| FleetState.LoadMeans | fleet/state.go:49-62 | a file is refused exactly for another store or for two secrets that differ, and otherwise gives its list and the secret there is |
| FleetState.State.Add | fleet/state.go:75-85 | one call is one run of the step machine, and it returns an error exactly when a save it needed failed |
| FleetState.State.Save | fleet/state.go:96-116 | what each kind of failure leaves on disk |
| FleetState.ScriptRuns | fleet/state.go:75-116 | the steps of one call, put together |
| FleetDurability.StepInv | fleet/state.go:34-116 | every step, kill and reload keeps the file whole, the process ahead of it by at most its own call, and never loses a ref or changes the store or the secret |
| FleetDurability.RunInv | fleet/state.go:34-116 | so does every run |
| FleetDurability.FileIsAnEarlierList | fleet/state.go:94-116 | the file is absent or a complete sorted list some process held earlier |
| FleetDurability.ReloadFindsWhatReturned | fleet/state.go:72-85 | without a failed save, a kill and a reload find every ref whose Add returned |
| FleetDurability.FirstAdd | fleet/state.go:75-116 | a first call whose save works, as a run: acknowledged, on disk, no save failed |
| FleetDurability.AcknowledgedIsOnDiskIff | fleet/state.go:78-84 | a call that returns no error has its ref on disk exactly when the ref was new to the process or already in the file |
| FleetDurability.NextSaveCatchesUp | fleet/state.go:81-84 | the next save that works makes good every failed one |
| FleetDurability.FailedThenForgotten | fleet/state.go:78-80 | a run in which a ref is acknowledged and nothing was written |
| Probe.TryAccounts | probe/probe.go:238-259 | an operation that succeeds took one request more than it was throttled, at most three times, and acted on the bucket as if sent once |
| Probe.SameAnswer | probe/probe.go:238-259 | a store that always answers alike is asked four times for the five throttling statuses and once for any other |
| Probe.ExecAccounts | probe/probe.go:227-259 | so over any sequence of operations |
| Probe.TryEffect | probe/probe.go:238-259 | an operation acted on the bucket, once, exactly if one of its requests took effect |
| Probe.ExecFails | probe/probe.go:238-259 | a sequence that stops at an operation leaves the effect of those before it, and of that one if one of its requests took effect |
| Probe.RunFailsOnce | probe/probe.go:81-212 | a run that fails does so at exactly one operation of warm-up and measurement |
| Probe.Runner.Timed | probe/probe.go:238-259 | the retry loop, request by request |
| Probe.Run | probe/probe.go:81-212 | warm-up and then the measured operations in order, stopping at the first that fails |
| Probe.Defaults | probe/probe.go:46-65 | an option of zero or below takes its default, and any other is kept |
| Probe.AttemptsAccountForTheRun | probe/probe.go:67-74 | on success attempts are slowdowns plus every measured operation, and at most three in four requests were throttled |
| Probe.SuccessCleansUp | probe/probe.go:76-80 | on success the bucket is as before but for the run's own keys, and exactly as before when those were new |
| Probe.FailureLeavesKeys | probe/probe.go:79-212 | wherever a run fails, in the warm-up or after, the bucket holds the effect of the operations up to there, and is as before exactly when these end between two round trips of the warm-up or are all |
| Probe.RefusedRun | probe/probe.go:79-212 | for every operation a run that fails at it, and whether its keys are left |
| Buckets.WindowIsASpan | latency/latency.go:84-87 | a sample is in a window exactly when its second lies in the window's span |
| Buckets.ByWindow | latency/latency.go:84-87 | every window holds the values that fall into it, in the order they came |
| Buckets.BucketOf | latency/latency.go:95-105 | count, rate and the two order statistics of one window, the median not above the other |
| Buckets.Cut | latency/latency.go:73-108 | one bucket for every window that has a sample, in order; none without samples or width |
| Buckets.CutPartitions | latency/latency.go:71-108 | the windows together are a permutation of the samples, counts add up to them, starts are increasing multiples of the width from zero |
| Buckets.RankIsUnique | latency/latency.go:97-98 | there is one value with that many values before it in order |
| Buckets.CutIsUnique | latency/latency.go:73-108 | the description fixes every figure published |

## Left out

- Pricing.Compute: dollars are real numbers before `round4`, so printed cents are not modelled.
- Pricing.RunUsageFromFile: counts above 2^53 lose digits as floats in the decoded file; reals do not.
- Counters.Sum: slots are unbounded naturals, so the conversion from 64 unsigned to signed bits cannot wrap here.
- Counters.Report: errors, percentiles and the sections beyond the op blocks are not modelled; pricing does not read them.
- Histogram.Hist.Add: counts do not wrap at 64 bits, and the sum is whole microseconds rather than a float.
- Histogram.Hist.Quantile: the product of q and the count is a real product, and the division to milliseconds is not modelled.
- IdleRates.Rates: floats are reals, so the exactness results are about the arithmetic and not its rounding.
- Expand.Expand: what Sscanf accepts is a parameter that yields 64-bit integers.
- Buckets.Cut: values are reals before `round3`; NaN does not occur.
- WebSocket.Conn.ReadFrame: a declared length below 2^63 that the machine cannot allocate, where the source dies, reads as a short input.
- WebSocket.Conn.Write: one masking key per connection, as the source has it; section 5.3 of RFC 6455 asks for a fresh one per frame. A write that fails puts nothing on the wire, while a real one may put part.
- Writer.Counters.Pump: the two atomic loads of the window are one step, because nothing stores to it while a push runs; the latency sample is left out.
- Tpcb.Loop: statement times and the latency of a transaction are left out.
- FleetState.LoadState: a file that exists and cannot be read is one that does not parse; a kill is of the process, so nothing written is lost with the machine.
- FleetState.State.Add: the mutex is taken as given, so calls on one state follow one another, and two processes never share a file.
- Probe.FailureLeavesKeys: a request takes effect when it is answered or never, so a put answered 504 that lands after the run's own delete is not modelled.
- Probe.Run: the latency curves, the throughput estimate and the backoff pauses are left out; a request answered below 300 is taken to have had its effect.
- CanonicalQuery.SignedQueryIsSent: hashing, header canonicalisation and the signature itself are foreign functions here.
- SocketReaders.DeliveredIsOneSheet: the run's clock is taken to fit in 64 bits of microseconds.
- SocketRuns.ExactOnEveryCleanRunIff: a node that sends one frame twice is not modelled, and the two loads of how many sockets are held (`sockets/sockets.go:291` and `sockets/sockets.go:408`) are one.
- The spread summary over shards, the ramp, joining a topic and the heartbeat of the socket run: they decide no published total modelled here.
- Dialing, the upgrade handshake, tickers, pacing and goroutine scheduling appear only as steps that may happen in any order.
- Spawning and signalling processes, `ps`, shared memory and file locks: a kill, a rename and a parsed table are their whole effect here.
- The workload flattening of resthttp, fleet and REST load loops, result tables, dashboards, scenario defaults, pgbench output, pgwire and environment facts: easy members or plumbing.
- JSON as text: documents are decoded values.
