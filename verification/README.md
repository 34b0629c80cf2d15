# Block layer and crypto models

Dafny models of the request machinery of the Linux block layer and of two crypto files, with proofs
of what they promise.

* `Flush`, `FlushProofs`, `FlushTiming`, `FlushDates`, `FlushOrder`, `FlushInputs`, `FlushLate`, `FlushQueue`: the
  FLUSH/FUA sequencer, which splits a request into pre-flush, data and post-flush and lets many requests share
  one device flush.
* `Throttle*`: the I/O throttler, its slices, limits, groups, service tree and dispatch loop.
* `Segments`, `Requests`, `MergeRequests`: merging of bios and requests, segment counting and the
  scatterlist.
* `Completion`, `CompletionOutcome`, `CompletionQueue`: partial completion of requests.
* `Deadline*`: the deadline scheduler with the part of the elevator core it works with.
* `ElevatorHash`, `ElevatorQueue`: the merge hash of the elevator.
* `Tags`, `TagQueue`: tagged command queueing.
* `Cfq`: the choice of the next request in a CFQ queue.
* `AesRounds`, `Fips197`, `AesCode`, `AesTables`, `AesWords`, `AesContext`, `Aes`, `AesBlocks`: AES against
  FIPS-197.
* `Cprng`, `CprngContext`: the generator of ANSI X9.31 Appendix A.2.4.
* `Lists`, `Options`, `Sums`: what several of them share.

Each component is modelled twice. A state of plain values with step functions carries the theorems
about all inputs, all runs and all reachable states. A class with the same fields runs the steps as
the source does, loops and updates in place included, and is proved to take exactly those steps.

Every section under the queue lock is one step. Requests and bios are numbers; their fields are maps
or records. `jiffies` is an unbounded integer that does not decrease. Memory allocation, the verdict
of `elv_rq_merge_ok`, the number of requests in flight and the block cipher of the generator are
parameters. Integers are unbounded except where the source's width matters: the products and counters
of the throttler wrap at 64 and 32 bits, `writes_starved` is compared as an unsigned number, bytes and
words of the crypto code are bit vectors.

Some results say that the code does less than one would expect, and exactly when.

* The byte wait of the throttler can be one jiffy short, and never more
  (`ThrottleWait.BpsWaitSufficesIff`; `ThrottleWait.BpsWaitTooShort` has inputs).
* The I/O wait is long enough only while the slice lasts that was extended to cover it; at a later
  look a new slice starts, which may not grant a single I/O (`ThrottleWait.LateLook`,
  `ThrottleWait.IopsWaitMissed`).
* The I/O limit holds as long as no allowance is cut to 32 bits; after that the counter can wrap
  around and the limit be exceeded (`ThrottleWrap.IoRateUnsaturated`, `ThrottleWrap.IoRateFails`).
* A tag map can be replaced by a smaller one while tags beyond it are in flight; these are never given
  back (`Tags.ResizedKeeps`, `Tags.NeverFreed`).
* The search for the next CFQ request looks at two neighbours. Where these have the same flags, a
  better request is missed exactly when one has better flags (`Cfq.FindNextBestIff`,
  `Cfq.MixedFlags`); where they differ, a nearer one can be missed (`Cfq.MixedNeighbours`).
* A FLUSH and FUA request without data may end after one flush instead of two; it had nothing to
  make durable (`FlushProofs.FlushedAgain`, `FlushInputs.EndedAfterOneFlush`).
* The time kept for the pending flush queue can be older than every request on it, after a flush completion in
  which a request without data goes round for a second flush (`FlushDates.EndFlushDated`,
  `FlushLate.PendingTimeTooOld`); the next flush may then be issued early, past data in flight, but never late
  (`FlushDates.WaitsNoLonger`).
* The generator does not count the last byte of a partial copy as used, so the next call returns it
  again. Calls return consecutive bytes of the stream exactly when each but the last ends with the
  copy of a whole block (`Cprng.TwoCalls`, `Cprng.CallsFollowIff`), up to bytes that happen to be equal.
* A completion that finishes a request leaves its position alone, so completing in two steps and in
  one can leave different positions in a finished request (`Completion.UpdateTwice`,
  `Completion.PositionDiffers`).

## Model

| member | source | states |
|---|---|---|
| `FlushProofs.ActKeeps` | tegra/block/blk-flush.c:144-347 | every atomic step (insert, fetch, completion of data, completion of a flush) keeps the protocol invariant: at most one flush in flight, every sequenced request on exactly one of the two flush queues or the data list, on the one its current step asks for |
| `FlushProofs.ReachableInv` | tegra/block/blk-flush.c:144-347 | the protocol invariant holds in every reachable state |
| `FlushProofs.DataAfterPreflush` | tegra/block/blk-flush.c:144-192 | durability, first half: when the data of a request with a pre-flush is queued, a flush issued after its insertion has completed without error |
| `FlushProofs.EndAfterSequence` | tegra/block/blk-flush.c:144-192 | durability, second half: a request ends successfully only after every step of its policy, a post-flush having been issued after its data completed and having succeeded |
| `FlushProofs.PolicyOf` | tegra/block/blk-flush.c:94-108 | the steps recorded for a request are those its flags, its size and the device call for |
| `FlushProofs.SubmitterGuarantee` | tegra/block/blk-flush.c:298-347 | the two halves put together for what a submitter asked for, over every run; without data a post-flush comes after the submission |
| `FlushProofs.QuiescentMeansEnded` | tegra/block/blk-flush.c:194-285 | once nothing is under way at the device, every inserted request has ended, exactly once |
| `FlushProofs.CompletionProgress` | tegra/block/blk-flush.c:194-285 | every completion reported by the device strictly lowers the total of unfinished policy steps |
| `FlushProofs.InsertKeeps` | tegra/block/blk-flush.c:298-347 | inserting a request, sequenced or not, with data or without, keeps the invariant |
| `FlushProofs.EndIoKeeps` | tegra/block/blk-flush.c:275-285 | the completion of data keeps the invariant |
| `FlushProofs.EndFlushKeeps` | tegra/block/blk-flush.c:194-229 | the completion of a flush keeps the invariant although a new flush may be issued, and the pending queue exchanged, inside its loop |
| `FlushProofs.WalkKeeps` | tegra/block/blk-flush.c:208-213 | the loop over the queue of the flush that is over keeps the invariant, although requests may come back to the end of the queue while it is walked |
| `Flush.TurnsDrop` | tegra/block/blk-flush.c:208-213 | every turn lowers how often requests can still come up: the loop ends |
| `FlushProofs.MidStep` | tegra/block/blk-flush.c:208-213 | one turn of that loop leaves on the walked queue only requests whose flush is over, those that came back included |
| `FlushProofs.MidQueue` | tegra/block/blk-flush.c:144-213 | exactly when the request of a turn comes back to the end of the walked queue, and what else is on it |
| `FlushProofs.FlushedAgain` | tegra/block/blk-flush.c:144-213 | a request that comes back has no data, so nothing is left for another flush to do |
| `FlushInputs.EndedAfterOneFlush` | tegra/block/blk-flush.c:144-229 | a run from the empty queue in which a FLUSH and FUA request without data is met twice by one loop and ends after one flush |
| `FlushTiming.DueMeansInFlight` | tegra/block/blk-flush.c:144-273 | over every run, after every insertion or completion that takes a step of a sequenced request at time now: while requests wait, a flush is in flight if no data is, or if now has reached the pending time plus the timeout |
| `FlushTiming.NotBeforeTime` | tegra/block/blk-flush.c:144-273 | over every run, no action issues two flushes, and while the data of some request stays in flight none is issued before the pending time plus the timeout |
| `FlushTiming.OthersLeave` | tegra/block/blk-flush.c:298-347 | insertions and completions that pass the sequencer by change nothing about flushes |
| `FlushTiming.OpenTurn` | tegra/block/blk-flush.c:144-273 | one turn of the loop of the flush completion in full: queues, data in flight, times, and a flush issued exactly when it is due |
| `FlushTiming.WalkIssued` | tegra/block/blk-flush.c:208-213 | once that loop has issued a flush, the walked queue ends empty, or with its last request queued again |
| `FlushDates.ActDated` | tegra/block/blk-flush.c:144-192 | insertions, fetches and completions of data keep the pending time what it is: the time at which the oldest request of the pending queue joined it |
| `FlushDates.EndFlushDated` | tegra/block/blk-flush.c:144-273 | the completion of a flush keeps that exactly unless older requests wait, the first turn issues their flush, and the last walked request, alone behind the first, wants a second flush without data |
| `FlushDates.ReachableDated` | tegra/block/blk-flush.c:144-273 | so it holds over every run without a FLUSH and FUA request that has no data |
| `FlushLate.PendingTimeTooOld` | tegra/block/blk-flush.c:144-213 | a run from the empty queue after which the pending time is 5 and the only waiting request joined at 9 |
| `FlushDates.WaitsNoLonger` | tegra/block/blk-flush.c:144-273 | over every run, after every step of a sequenced request: a request that waits while no flush is in flight has waited for less than the timeout, and data is in flight |
| `FlushOrder.DataAhead` | tegra/block/blk-flush.c:144-273 | every step of a sequenced request leaves the dispatch queue in its order; data goes ahead of it and nothing but a flush behind it |
| `FlushOrder.PlainBehind` | tegra/block/blk-flush.c:298-347 | a request without steps to sequence goes to the end of the dispatch queue if it has data |
| `FlushOrder.FailsOnlyOnError` | tegra/block/blk-flush.c:144-285 | over every run a request ends with an error only after its data or some flush has failed |
| `FlushProofs.RetireKeeps` | tegra/block/blk-flush.c:194-207 | the checks at the top of the flush completion hold, and so does the invariant of its loop on entry |
| `FlushProofs.CompleteSeqKeeps` | tegra/block/blk-flush.c:144-192 | completing steps of one request keeps the facts about all other requests |
| `FlushQueue.WalkStep` | tegra/block/blk-flush.c:208-213 | the request under the cursor is the head of the queue, its step is a flush step, and the position fetched ahead is where the walk goes on |
| `FlushQueue.RequestQueue.constructor` | tegra/block/blk-flush.c:298-347 | an empty queue meets the invariant |
| `FlushQueue.RequestQueue.KickFlush` | tegra/block/blk-flush.c:244-273 | the new state equals the step of the protocol, and the result says whether a flush was queued; when it is, and when not, `FlushTiming.DueMeansInFlight` and `FlushTiming.NotBeforeTime` state over runs |
| `FlushQueue.RequestQueue.CompleteSeq` | tegra/block/blk-flush.c:144-192 | the new state for each next step; its two checks are what it asks of callers |
| `FlushQueue.RequestQueue.WalkRunning` | tegra/block/blk-flush.c:208-213 | the loop with a cursor fetched one element ahead meets the requests of the running queue in order, those that come back included, and equals the step of the protocol |
| `FlushQueue.RequestQueue.FlushEndIo` | tegra/block/blk-flush.c:194-229 | the whole flush completion, run in place, equals the step of the protocol and keeps its invariant |
| `FlushQueue.RequestQueue.EndIo` | tegra/block/blk-flush.c:275-285 | completion of a request, sequenced or not, equals the step of the protocol and keeps its invariant |
| `FlushQueue.RequestQueue.InsertFlush` | tegra/block/blk-flush.c:298-347 | insertion with its three special cases equals the step of the protocol and keeps its invariant |
| `ThrottleRate.ByteRate` | tegra/block/blk-throttle.c:496-756 | rate bound: with fixed limits, all bytes dispatched from the start of the first slice up to t are at most bps * (t - T0 + slice) / HZ, through any renewing, extending and trimming of slices |
| `ThrottleRate.IoRate` | tegra/block/blk-throttle.c:496-756 | the same bound for I/Os, for every run, exceeded by no more than 2^32 for each time the 32-bit counter of a slice has wrapped around |
| `ThrottleWrap.UnsaturatedNoWraps` | tegra/block/blk-throttle.c:593-641 | while no look finds an allowance that has to be cut to 32 bits, no dispatch finds the counter of I/Os full: it does not wrap around |
| `ThrottleWrap.IoRateUnsaturated` | tegra/block/blk-throttle.c:593-641 | so the I/O bound holds at all times in every such run, however long it is |
| `ThrottleWrap.FullPasses` | tegra/block/blk-throttle.c:619-628 | a full counter is within any limit, because one more I/O makes it zero |
| `ThrottleWrap.FloodPlay` | tegra/block/blk-throttle.c:534-641 | a run of empty bios, one in each slice for two seconds and then any number at once, in which nothing is trimmed and every one is dispatched |
| `ThrottleWrap.IoRateFails` | tegra/block/blk-throttle.c:593-641 | that run exceeds the I/O bound, by as much as one likes, once the allowance has been cut |
| `ThrottleRate.PlayBooks` | tegra/block/blk-throttle.c:496-756 | the running account behind both, for every run: what was dispatched never exceeds what elapsed time has granted, with no rounding drift, up to the wrap-arounds of the I/O counter |
| `ThrottleRate.TrimGrant` | tegra/block/blk-throttle.c:534-591 | what trimming takes off a counter is granted by the whole slices it takes off the time |
| `ThrottleCredit.TrimKeepsCredit` | tegra/block/blk-throttle.c:534-591 | the other side: while no product leaves its word and the counters cover what is trimmed, trimming lowers what may still be dispatched, at any later time of the slice, by at most one byte and one I/O |
| `ThrottleCredit.PlayKept` | tegra/block/blk-throttle.c:496-756 | the account from below, for every run: since a look at which its counter stood at zero, what was dispatched makes up for the counter and for the slices trimmed, less one byte or I/O for each of them |
| `ThrottleCredit.RefusedOnlyAtRate` | tegra/block/blk-throttle.c:496-756 | so a look of any run refuses a bio only if since some earlier look the rate has been used up, less one byte or I/O for each slice since then, or if the bio is more than a slice grants |
| `ThrottleCredit.AllowedInSlice` | tegra/block/blk-throttle.c:593-660 | anywhere within a slice of the elapsed time the whole of that slice is allowed, in bytes and in I/Os |
| `ThrottleCredit.IdleStartsAfresh` | tegra/block/blk-throttle.c:496-591 | two slices after a dispatch a look finds a new slice: time that was not used is not saved up |
| `ThrottleRate.DispatchBooks` | tegra/block/blk-throttle.c:746-756 | charging and then trimming keeps the account |
| `ThrottleRate.RenewBooks` | tegra/block/blk-throttle.c:695-728 | a slice renewed before a look lasts, and the account is kept |
| `ThrottleWait.RefusalCoversWait` | tegra/block/blk-throttle.c:695-744 | a refusal comes with a wait of at least one jiffy, and the slice is extended to cover it |
| `ThrottleWait.IopsWaitSuffices` | tegra/block/blk-throttle.c:593-744 | a bio refused for the number of I/Os may be dispatched at any look from the end of the wait to the end of the slice |
| `ThrottleWait.LateLook` | tegra/block/blk-throttle.c:695-744 | at a look after the slice has ended a bio may be dispatched exactly when one slice grants its bytes and an I/O, whatever it was told to wait |
| `ThrottleWait.IopsWaitMissed` | tegra/block/blk-throttle.c:593-744 | so when no slice grants an I/O, a bio looked at only after its slice is refused again although its wait is over |
| `ThrottleWait.IopsWaitMissedAt` | tegra/block/blk-throttle.c:593-744 | at one I/O per second a bio told to wait 101 jiffies is refused from jiffy 111 on |
| `ThrottleWait.BpsWaitAndAJiffy` | tegra/block/blk-throttle.c:643-683 | one jiffy more than the byte wait is always enough |
| `ThrottleWait.BpsWaitSufficesIff` | tegra/block/blk-throttle.c:643-683 | exactly when the byte wait itself is enough, in terms of remainders a caller can compute |
| `ThrottleWait.BpsWaitTooShort` | tegra/block/blk-throttle.c:643-744 | a family of bios that are refused again at the end of the wait they were given |
| `ThrottleWait.BpsWaitTooShortAt` | tegra/block/blk-throttle.c:643-744 | one of them: at 2550 bytes per second a sector is told to wait 20 jiffies, when 510 bytes are allowed |
| `ThrottleWait.BpsWaitShortByOne` | tegra/block/blk-throttle.c:643-744 | looked at again after the wait, the bio is within the byte limit, or it is one jiffy later, within the extended slice |
| `ThrottleCredit.IopsWaitNeeded` | tegra/block/blk-throttle.c:593-641 | the wait for I/Os is at most a slice longer than it need be: up to then the bio stays refused |
| `ThrottleCredit.BpsWaitNeeded` | tegra/block/blk-throttle.c:643-683 | so is the wait for bytes: up to a slice before it is over, a bio one byte larger stays refused |
| `ThrottleGroups.RefusedAgain` | tegra/block/blk-throttle.c:695-744 | a refused bio looked at again in the same jiffy is refused again, with a wait |
| `ThrottleGroups.ThrotlSound` | tegra/block/blk-throttle.c:593-744 | the limits never let a dispatch round spin |
| `ThrottleGroups.StuckGroup` | tegra/block/blk-throttle.c:771-842 | a group that gave up nothing is due only later once rescheduled |
| `ThrottleGroups.GroupShares` | tegra/block/blk-throttle.c:811-842 | a group gives up six reads and two writes at a time, fewer only if fewer wait or the next one is refused |
| `ThrottleGroups.RescheduleTime` | tegra/block/blk-throttle.c:771-789 | a rescheduled group is due at the end of the shorter of the waits of its directions |
| `ThrottleDispatch.RoundValid` | tegra/block/blk-throttle.c:844-873 | a dispatch round keeps: counters equal list lengths and sums over groups, a group is on the tree iff bios wait in it, a reference per bio and one for being listed, the tree ordered |
| `ThrottleDispatch.RoundProgress` | tegra/block/blk-throttle.c:844-873 | each round gives up a bio or leaves fewer groups due, and at most a group quantum |
| `ThrottleDispatch.RoundConserves` | tegra/block/blk-throttle.c:811-873 | a round takes bios off the front of the queues of one group and off no other queue |
| `ThrottleDispatch.RoundConservesAll` | tegra/block/blk-throttle.c:811-873 | conservation over all groups and both directions |
| `ThrottleDispatch.ConservesTwice` | tegra/block/blk-throttle.c:844-873 | conservation over successive rounds |
| `ThrottleLedger.HalfPays` | tegra/block/blk-throttle.c:811-842 | a dispatch loop takes the account through looks, and charges it for exactly the bios it lets go |
| `ThrottleLedger.RoundPaid` | tegra/block/blk-throttle.c:844-873 | a dispatch round does so to every account, looks for the next dispatch time included |
| `ThrottleLedger.PaidTwice` | tegra/block/blk-throttle.c:844-873 | and so do successive operations |
| `ThrottleQueue.SubmittedPaid` | tegra/block/blk-throttle.c:1177-1220 | and a submission, which charges for the bio exactly when it passes |
| `ThrottleLimits.StagesTraced` | tegra/block/blk-throttle.c:496-873 | through any operations, what a direction of a group lets go is what a run of looks at its account dispatches |
| `ThrottleLimits.BytesWithinLimit` | tegra/block/blk-throttle.c:496-1220 | the byte limit for whole queues: the bytes a direction of a group lets go, at once or from its queue, never exceed what its limit grants for the time and one slice |
| `ThrottleLimits.IosWithinLimit` | tegra/block/blk-throttle.c:496-1220 | the I/O limit likewise, up to wrap-arounds, of which there are none while no allowance is cut |
| `ThrottleQueue.ThrottleData.RbFirst` | tegra/block/blk-throttle.c:381-394 | the group of least dispatch time, through the cached leftmost entry |
| `ThrottleQueue.ThrottleData.FindSlot` | tegra/block/blk-throttle.c:421-447 | the position behind all groups that are not later |
| `ThrottleQueue.ThrottleData.Enqueue` | tegra/block/blk-throttle.c:421-462 | the tree, flag, count and cache after a group has been enqueued |
| `ThrottleQueue.ThrottleData.Dequeue` | tegra/block/blk-throttle.c:402-474 | the tree, flag, count and cache after a group has been dequeued |
| `ThrottleQueue.ThrottleData.DispatchOne` | tegra/block/blk-throttle.c:791-809 | one bio leaves; the checks of the source are met |
| `ThrottleQueue.ThrottleData.DispatchLoop` | tegra/block/blk-throttle.c:811-842 | one of the two loops equals the fold over the queue, up to its maximum |
| `ThrottleQueue.ThrottleData.DispatchGroup` | tegra/block/blk-throttle.c:811-842 | reads and writes given up by a group, and the new state |
| `ThrottleQueue.ThrottleData.UpdateDisptime` | tegra/block/blk-throttle.c:771-789 | the group is due after the lesser wait of its two heads and sits in the right place of the tree |
| `ThrottleQueue.ThrottleData.SelectDispatch` | tegra/block/blk-throttle.c:844-873 | the loop ends, gives up fewer than quantum plus group quantum bios, all from the fronts of queues, charges the accounts for exactly these, keeps everything valid, and stops short of the quantum only when no group is due |
| `ThrottleQueue.ThrottleData.AddBio` | tegra/block/blk-throttle.c:758-769 | the bio joins the tail of its queue and the group is on the tree |
| `ThrottleQueue.ThrottleData.ThrottleBio` | tegra/block/blk-throttle.c:1177-1220 | a bio is queued iff others of its direction wait or the limits refuse it; otherwise it is charged and passes; the data it leaves, and what it does to the accounts |
| `ThrottleQueue.ThrottleData.AddGroup` | tegra/block/blk-throttle.c:183-210 | a new group is idle, off the tree, and holds the one reference of being listed |
| `ThrottleQueue.ThrottleData.DestroyGroup` | tegra/block/blk-throttle.c:985-999 | the group leaves the list and is gone iff no bio waits in it |
| `ThrottleQueue.ThrottleData.NextDispatch` | tegra/block/blk-throttle.c:476-494 | the dispatch work is scheduled iff a bio waits, and for the earliest dispatch time of a group on the tree, or at once if that is past |
| `Segments.GreedyMinimal` | tegra/block/blk-merge.c:117-199 | no legal division of the vectors into segments has fewer segments than the scatterlist has entries |
| `Segments.GreedyAhead` | tegra/block/blk-merge.c:117-199 | the greedy division stays ahead of any other |
| `Segments.GreedyLegal` | tegra/block/blk-merge.c:117-199 | the scatterlist is itself a legal division |
| `Segments.Joined` | tegra/block/blk-merge.c:87-111 | two divisions joined where the middle segments fit together are legal, with one segment less and known end sizes |
| `Segments.SideBySide` | tegra/block/blk-merge.c:87-111 | two divisions side by side are legal, with all segments of both |
| `Segments.JoinedOnlyIf` | tegra/block/blk-merge.c:87-111 | the joined division is legal only if the two segments are linked and fit together |
| `Requests.RecalcSegments` | tegra/block/blk-merge.c:12-69 | the loop counts the segments of its division and records the sizes of the first and last segment; no legal division that keeps high pages apart has fewer, and without high pages the count is the length of the scatterlist |
| `Requests.RecalcCounts` | tegra/block/blk-merge.c:12-69 | that division is legal and its end segments are not longer than recorded |
| `Requests.RecalcMinimal` | tegra/block/blk-merge.c:12-69 | the division counted is legal with every high page a segment of its own, and no such division has fewer segments |
| `Requests.RecalcExact` | tegra/block/blk-merge.c:12-69 | without high pages the count is the number of scatterlist entries |
| `Requests.RecalcMeasures` | tegra/block/blk-merge.c:12-69 | the sizes recorded for a chain that was not measured before are those of its first and last segment |
| `Requests.ContiguousIff` | tegra/block/blk-merge.c:87-111 | two chains with exact sizes count as contiguous exactly when their last and first segments can be made one |
| `Requests.MergedExact` | tegra/block/blk-merge.c:277-315 | exact sizes stay exact through a merge of requests |
| `Requests.MergedCounts` | tegra/block/blk-merge.c:277-315 | the counter of a merge, less one if the middle segments are contiguous, stands for a legal division of the merged chain |
| `Requests.NotedCounts` | tegra/block/blk-merge.c:297-304 | the sizes noted on the way do no harm when the merge is then refused |
| `Requests.AppendCounts` | tegra/block/blk-merge.c:202-226 | adding a bio with all its segments counts the longer chain |
| `MergeRequests.CountSegments` | tegra/block/blk-merge.c:76-84 | a bio that has not been counted is counted once, with the least number of segments that keep high pages apart, and the count recorded |
| `MergeRequests.BackLinked` | tegra/block/blk-core.c:1102-1123 | a bio linked behind a chain it follows keeps the chain contiguous and counted |
| `MergeRequests.TryMergeByPlace` | tegra/block/elevator.c:116-132 | a bio is merged at the back exactly when it starts where the request ends, and at the front exactly when it ends where the request starts |
| `MergeRequests.FrontLinked` | tegra/block/blk-core.c:1125-1154 | a bio linked ahead of a chain keeps it contiguous and counted |
| `MergeRequests.Spliced` | tegra/block/blk-merge.c:367-447 | two chains spliced where the second follows the first tile one range |
| `MergeRequests.Request.constructor` | tegra/block/blk-merge.c:76-84 | a request made from one bio is valid |
| `MergeRequests.Request.Admit` | tegra/block/blk-merge.c:228-275 | a bio is admitted iff sectors and segments stay within the limits |
| `MergeRequests.Request.AttemptBackMerge` | tegra/block/blk-core.c:1102-1123 | merged iff it fits; the bios tile one range from the position on, each with its own sectors, the length is their sum, the counter covers the scatterlist |
| `MergeRequests.Request.AttemptFrontMerge` | tegra/block/blk-core.c:1125-1154 | the same at the front; the end of the request does not move |
| `MergeRequests.Request.AddUp` | tegra/block/blk-merge.c:277-315 | adding up two counters leaves both requests as they are and counts the two chains put together |
| `MergeRequests.Request.MergeChains` | tegra/block/blk-merge.c:277-447 | two requests that follow one another merge iff the limits allow it; otherwise both keep their data |
| `MergeRequests.Request.AttemptMerge` | tegra/block/blk-merge.c:367-447 | the whole merge of two requests, refusals included |
| `MergeRequests.Request.Recount` | tegra/block/blk-merge.c:71-74 | the request is counted anew from its vectors and stays valid; without high pages the count is the number of entries the scatterlist will have |
| `MergeRequests.Request.MapSg` | tegra/block/blk-merge.c:117-199 | the scatterlist entry by entry, each with the page and offset of its first vector: no more entries than the counter says, and together they address all the data in order, wherever the pages lie |
| `Segments.ScatterCount` | tegra/block/blk-merge.c:117-167 | the scatterlist has the least number of entries of all legal divisions |
| `Segments.ScatterBytes` | tegra/block/blk-merge.c:117-167 | the physical addresses the entries cover are those of the vectors, in their order, for every placement of pages in which mergeable vectors adjoin |
| `Segments.ScatterSizes` | tegra/block/blk-merge.c:117-167 | no entry is longer than a segment may be, unless it is a single vector that already is |
| `MergeRequests.MapVecs` | tegra/block/blk-merge.c:117-199 | the loop of the builder makes the greedy division |
| `Completion.RestBytes` | tegra/block/blk-core.c:2010-2158 | completing n bytes drops exactly the first n bytes of the chain |
| `Completion.RestFine` | tegra/block/blk-core.c:2010-2158 | the chain stays well formed and is empty exactly when all its bytes are completed |
| `Completion.UpdateKeeps` | tegra/block/blk-core.c:2010-2158 | the length of the request is the sum of the remaining sizes, and there is more data iff fewer bytes than that were completed |
| `Completion.EndsInOrder` | tegra/block/blk-core.c:150-176 | bios end in the order of the chain, each once, and the others are left |
| `CompletionOutcome.FailsIffTouched` | tegra/block/blk-core.c:150-176 | over any sequence of partial completions a bio ends with an error exactly if it had one before or a failed completion has touched one of its bytes |
| `CompletionOutcome.EndsWith` | tegra/block/blk-core.c:150-176 | a bio ends with the error of the completion of its last byte, or with EIO if only an earlier one failed |
| `CompletionOutcome.UpdateEnds` | tegra/block/blk-core.c:150-176 | the bios of a flush sequence are not ended; those of any other request are, in order |
| `CompletionOutcome.FsClears` | tegra/block/blk-core.c:2010-2030 | every completion of a file system request clears its error count, and no other does |
| `Completion.UpdateTwice` | tegra/block/blk-core.c:2010-2158 | completing a and then b bytes leaves the same bios, length and ends as a + b; the position agrees exactly when the second call does not finish what the first had moved |
| `Completion.PositionDiffers` | tegra/block/blk-core.c:2010-2158 | a bio of two sectors completed in two steps and in one: the finished request is at sector 1 or at sector 0 |
| `Completion.UpdateInPieces` | tegra/block/blk-core.c:2010-2158 | the same for any number of pieces |
| `Completion.UpdatePlaced` | tegra/block/blk-core.c:2010-2158 | the position of an unfinished request is that of its first remaining byte, and its bios still tile the range |
| `CompletionQueue.Request.BioEndIo` | tegra/block/blk-core.c:150-176 | what is left of the bio, and the end it reports unless it is part of a flush sequence |
| `CompletionQueue.Request.Consume` | tegra/block/blk-core.c:2057-2107 | the loop ends whole bios and says how far into the next bio and vector the bytes reach |
| `CompletionQueue.Request.TrimBio` | tegra/block/blk-core.c:2122-2130 | a bio that keeps some bytes passes whole vectors and trims the next |
| `CompletionQueue.Request.UpdateRequest` | tegra/block/blk-core.c:2010-2158 | the whole update equals its specification; it returns false iff all bytes are completed, and the consistency check at its end never fires |
| `DeadlineProofs.AddKeeps` | tegra/block/deadline-iosched.c:98-111 | adding a request keeps the two lists of its direction alike and in order |
| `DeadlineProofs.FrontMergedKeeps` | tegra/block/deadline-iosched.c:154-166 | so does sorting a request in anew after a front merge |
| `DeadlineProofs.MergedKeeps` | tegra/block/deadline-iosched.c:168-187 | so does merging two requests, the fifo staying in order of expiry |
| `DeadlineProofs.FifoMergedOk` | tegra/block/deadline-iosched.c:168-187 | the merged request takes the place of the one that expires first |
| `DeadlineProofs.ChosenQueued` | tegra/block/deadline-iosched.c:243-325 | the request chosen is queued in the chosen direction, and nothing is chosen only when both directions are empty |
| `DeadlineProofs.DispatchKeeps` | tegra/block/deadline-iosched.c:204-325 | dispatching keeps the structure, at most one direction having a next request |
| `DeadlineProofs.BatchAscends` | tegra/block/deadline-iosched.c:204-220 | a batch goes up the disk: it goes on with the nearest request above the one dispatched, if there is one |
| `DeadlineBounds.PlayInv` | tegra/block/deadline-iosched.c:84-325 | the structure holds after any run of adds, merges and dispatches |
| `DeadlineBounds.ReadUsesPatience` | tegra/block/deadline-iosched.c:243-325 | a read dispatched while a write is queued uses up what is left of the bound |
| `DeadlineBounds.WritesNotStarved` | tegra/block/deadline-iosched.c:243-325 | while a write stays queued at most (writes_starved + 1) * max(1, fifo_batch) - 1 reads are dispatched in a row, whatever is added or merged between |
| `DeadlineBatches.GoesOnUp` | tegra/block/deadline-iosched.c:243-325 | while a request waits above the one dispatched last and was neither added nor moved since, the next dispatch goes on in that direction as long as the batch is not full; in that direction it takes the nearest such request, unless a batch starts and the fifo has expired |
| `DeadlineBatches.StartsAtFifo` | tegra/block/deadline-iosched.c:290-318 | a batch starts at the head of the fifo when that has expired or when the last dispatch was in the other direction, and otherwise there or not below the last dispatch; a full batch is not gone on with |
| `DeadlineBatches.PlayOnward` | tegra/block/deadline-iosched.c:98-187 | adds and merges between two dispatches do not make the scheduler pass over a request |
| `DeadlineBatches.BatchCounted` | tegra/block/deadline-iosched.c:243-325 | over every run the count compared with fifo_batch is the number of requests dispatched in the current batch |
| `DeadlineBatches.WritesWaitTheirTurn` | tegra/block/deadline-iosched.c:243-298 | over every run, with both directions waiting, a batch of writes starts exactly when writes_starved batches of reads have been started past waiting writes since the last one |
| `DeadlineBatches.ExpiresOnTime` | tegra/block/deadline-iosched.c:98-111 | over every run a request expires its direction's expiry time after it was added, unless another is merged into it |
| `DeadlineBatches.MergeInherits` | tegra/block/deadline-iosched.c:168-187 | a request that takes over another expires when the first of the two would have, in the place of the other if that was earlier |
| `DeadlineExpiry.ActCloser` | tegra/block/deadline-iosched.c:98-325 | no step moves a queued request back in its fifo; a batch of its direction started after its expiry brings it closer or takes it |
| `DeadlineExpiry.PlayCloser` | tegra/block/deadline-iosched.c:226-325 | as many batches as requests are ahead of it, at most, pass an expired request |
| `DeadlineExpiry.ExpiredDispatched` | tegra/block/deadline-iosched.c:226-325 | an expired request with k requests ahead of it is dispatched by the (k + 1)-th batch started in its direction, unless merged away |
| `DeadlineQueue.DispatchOnce` | tegra/block/deadline-iosched.c:243-325 | a dispatch takes one request while there is one, loses none, and says no only at a count of zero |
| `DeadlineQueue.BehindThenGone` | tegra/block/deadline-iosched.c:168-187 | moving a request behind another and removing that one is taking its place |
| `DeadlineQueue.DeadlineData.FindSlot` | tegra/block/elevator.c:356-374 | the walk of the sorted insertion stops behind all requests that do not start later |
| `DeadlineQueue.DeadlineData.InsertSorted` | tegra/block/elevator.c:698-715 | insertion equals the step of the model and keeps the structure |
| `DeadlineQueue.DeadlineData.MergedRequest` | tegra/block/deadline-iosched.c:154-166 | a front merge equals the step of the model and keeps the structure |
| `DeadlineQueue.DeadlineData.MergeRequests` | tegra/block/elevator.c:561-578 | a merge of requests equals the step of the model and keeps the structure |
| `DeadlineQueue.DeadlineData.Select` | tegra/block/deadline-iosched.c:243-318 | the choice of request and direction, and the new counters |
| `DeadlineQueue.DeadlineData.DispatchRequests` | tegra/block/deadline-iosched.c:243-325 | the dispatch function equals the step of the model |
| `DeadlineQueue.DeadlineData.DrainElevator` | tegra/block/elevator.c:606-618 | draining ends with nothing sorted, a count of zero, and every request on the dispatch queue |
| `ElevatorHash.InsertKeeps` | tegra/block/elevator.c:698-715 | insertion keeps the index: each hashed request once, in the bucket of its end, and every mergeable one hashed |
| `ElevatorHash.BackMergedKeeps` | tegra/block/elevator.c:548-559 | a back merge repositions the request |
| `ElevatorHash.FrontMergedKeeps` | tegra/block/elevator.c:548-559 | a front merge does not change the end, so the request is still where it belongs |
| `ElevatorHash.MergedRequestsKeeps` | tegra/block/elevator.c:561-578 | a merge of requests keeps the index |
| `ElevatorHash.DispatchedKeeps` | tegra/block/elevator.c:455-467 | dispatching keeps the index |
| `ElevatorHash.FindExact` | tegra/block/elevator.c:330-350 | a lookup finds a mergeable request that ends at the sector exactly when there is one |
| `ElevatorHash.FindKeeps` | tegra/block/elevator.c:330-350 | what a lookup drops on its way could not have been merged |
| `ElevatorHash.LookupAfterRun` | tegra/block/elevator.c:305-350 | after any run the lookup agrees with a scan of all requests |
| `ElevatorHash.CacheAfterRun` | tegra/block/elevator.c:548-578 | after any run the one-hit cache holds the request merged into last, or one inserted while it was empty, until it is dispatched or may no longer be merged |
| `ElevatorQueue.Elevator.RqHashDel` | tegra/block/elevator.c:305-314 | the request is on no chain any more, the others stay |
| `ElevatorQueue.Elevator.RqHashReposition` | tegra/block/elevator.c:324-328 | off its old chain and at the head of the one of its new end |
| `ElevatorQueue.Elevator.ScanChain` | tegra/block/elevator.c:336-347 | the walk of one chain |
| `ElevatorQueue.Elevator.RqHashFind` | tegra/block/elevator.c:330-350 | the lookup in place: what it finds, and that nothing mergeable ends there when it finds nothing |
| `ElevatorQueue.Elevator.AddRequest` | tegra/block/elevator.c:698-715 | insertion in place equals the step of the model and keeps the index |
| `ElevatorQueue.Elevator.MergedRequest` | tegra/block/elevator.c:548-559 | a bio merge in place equals the step of the model and keeps the index |
| `ElevatorQueue.Elevator.MergeRequests` | tegra/block/blk-merge.c:427-432 | a request merge in place equals the step of the model and keeps the index |
| `ElevatorQueue.Elevator.DispatchAddTail` | tegra/block/elevator.c:455-467 | dispatching in place equals the step of the model and keeps the index |
| `ElevatorQueue.Elevator.MarkNoMerge` | tegra/block/blk-merge.c:221-225 | a request that takes no more merges leaves the one-hit cache and keeps the index |
| `Tags.DistinctTags` | tegra/block/blk-tag.c:337-384 | requests in flight hold different tags, their bits set and their places in the index taken |
| `Tags.StartKeeps` | tegra/block/blk-tag.c:337-384 | a started request gets the lowest free tag within its limit; refused, nothing changes |
| `Tags.SyncUsesAll` | tegra/block/blk-tag.c:337-374 | a synchronous request is refused only when no tag is free |
| `Tags.AsyncLeavesTwo` | tegra/block/blk-tag.c:354-372 | asynchronous requests leave the last two tags to synchronous ones |
| `Tags.AsyncRefused` | tegra/block/blk-tag.c:354-372 | an asynchronous request is refused exactly when too many of its kind are in flight or every tag below the last two is taken; the cases of one and two tags too |
| `Tags.EndKeeps` | tegra/block/blk-tag.c:282-316 | ending frees the bit and the place of the holder only |
| `Tags.ResizedKeeps` | tegra/block/blk-tag.c:220-265 | resizing keeps the invariant exactly when the new map has room for every tag in flight |
| `Tags.RoomUnclamped` | tegra/block/blk-tag.c:106-134 | it always has when the depth is not adjusted below the size of the old map |
| `Tags.ResizedHandsOut` | tegra/block/blk-tag.c:220-265 | after a resize tags are handed out up to the new depth, or to twice the number of requests if that clamps it, and no further |
| `Tags.NeverFreed` | tegra/block/blk-tag.c:282-316 | otherwise a request whose tag is out of reach stays in flight however often it is ended |
| `Tags.CopyInside` | tegra/block/blk-tag.c:252-262 | the copy of the old index stays inside the new one exactly when the depth is not adjusted below the size of the old map, and then loses nothing |
| `Tags.ResizeLosesTag` | tegra/block/blk-tag.c:220-265 | nine tags, a queue of four requests and a new depth of ten: the holder of the last tag is lost |
| `Tags.InvalidatedOrder` | tegra/block/blk-tag.c:399-405 | invalidating frees every tag and puts what was in flight at the head of the dispatch queue in the order it was started |
| `Tags.PlayInv` | tegra/block/blk-tag.c:220-405 | all of this through any run |
| `TagQueue.BlockQueueTag.FindFirstZero` | tegra/block/blk-tag.c:369-374 | the first clear bit below the limit |
| `TagQueue.BlockQueueTag.Start` | tegra/block/blk-tag.c:337-384 | refused exactly when the limits say so; otherwise the tag is taken |
| `TagQueue.BlockQueueTag.End` | tegra/block/blk-tag.c:282-316 | the tag is given back and the request leaves the busy list |
| `TagQueue.BlockQueueTag.RequeueRequest` | tegra/block/blk-core.c:917-929 | the tag is given back and the request goes to the head of the dispatch queue |
| `TagQueue.BlockQueueTag.Invalidate` | tegra/block/blk-tag.c:399-405 | the walk over the busy list, newest first, restores the order of starting |
| `TagQueue.BlockQueueTag.Resize` | tegra/block/blk-tag.c:220-265 | each return code, the map it leaves, and exactly when that map is in order |
| `Cfq.ChooseByOrder` | tegra/block/cfq-iosched.c:670-753 | the choice of two requests is by an order on flags and positions that knows neither distances nor wrapping; only equals are decided by the order of the arguments |
| `Cfq.ChooseByPlace` | tegra/block/cfq-iosched.c:670-753 | by positions and tunables alone, with equal flags: of two ahead the lower; of two behind the nearer if a short seek back reaches it, and else the lower; one behind against one ahead exactly when it is in reach and its penalised distance is smaller |
| `Cfq.OrderTotal` | tegra/block/cfq-iosched.c:670-753 | that order is total and transitive |
| `Cfq.NeighbourWins` | tegra/block/cfq-iosched.c:801-823 | the neighbour of the head on either side is at least as good as what lies beyond it |
| `Cfq.FindNextBest` | tegra/block/cfq-iosched.c:801-823 | when the two requests looked at have the same flags and no request has better ones, no other queued request is strictly better than the one found |
| `Cfq.FindNextBestIff` | tegra/block/cfq-iosched.c:801-823 | when the requests looked at have the same flags, no queued request is strictly better than the one found exactly when none has better flags |
| `Cfq.FindNextNearest` | tegra/block/cfq-iosched.c:801-823 | by place alone, one of the two requests looked at is at least as good as any other |
| `Cfq.FindNextNone` | tegra/block/cfq-iosched.c:801-823 | nothing is found only when nothing else is queued |
| `Cfq.MixedFlags` | tegra/block/cfq-iosched.c:801-823 | a request with better flags than both can be passed over |
| `Cfq.MixedNeighbours` | tegra/block/cfq-iosched.c:801-823 | when the two have different flags, a nearer request with the better ones can be passed over |
| `AesRounds.InvCipherInverts` | tegra/crypto/aes_generic.c:1329-1440 | the inverse cipher undoes the cipher, for any transformations that undo one another |
| `AesRounds.EqInvCipherSame` | tegra/crypto/aes_generic.c:1201-1214 | the equivalent inverse cipher of section 5.3.5 of FIPS-197 is the inverse cipher |
| `AesRounds.BackwardMeets` | tegra/crypto/aes_generic.c:1401-1440 | each inverse round takes back one round |
| `Fips197.InvMixMix` | tegra/crypto/aes_generic.c:1130-1139 | the inverse of MixColumns undoes it |
| `Fips197.InvMixXor` | tegra/crypto/aes_generic.c:1130-1139 | the inverse of MixColumns is linear, which is why mixed round keys may be used |
| `Fips197.InvMixIsMixedSquare` | tegra/crypto/aes_generic.c:1130-1139 | its coefficients are those of MixColumns applied three times |
| `Fips197.AesUndone` | tegra/crypto/aes_generic.c:1300-1399 | all transformations undo one another |
| `Fips197.AesExchanged` | tegra/crypto/aes_generic.c:1372-1399 | they may be exchanged as the equivalent inverse cipher needs |
| `AesCode.FNroundSame` | tegra/crypto/aes_generic.c:1300-1313 | a round by tables is SubBytes, ShiftRows, MixColumns and AddRoundKey |
| `AesCode.FLroundSame` | tegra/crypto/aes_generic.c:1315-1327 | the last round by tables leaves MixColumns out |
| `AesCode.INroundSame` | tegra/crypto/aes_generic.c:1372-1385 | a decryption round by tables is that of the equivalent inverse cipher |
| `AesCode.ILroundSame` | tegra/crypto/aes_generic.c:1387-1399 | the last decryption round by tables |
| `AesCode.ImixColSame` | tegra/crypto/aes_generic.c:1130-1139 | the macro, on columns, computes the inverse of MixColumns |
| `AesWords.ImixWordSame` | tegra/crypto/aes_generic.c:1128-1139 | the macro on 32-bit words computes the inverse of MixColumns on the word of every column |
| `AesWords.LsBoxWordSame` | tegra/crypto/aes_generic.c:1141-1145 | the macro on 32-bit words substitutes every byte |
| `AesWords.FRnWordSame` | tegra/crypto/aes_generic.c:1300-1305 | a word of a middle round, from table words, is a column of SubBytes, ShiftRows, MixColumns and AddRoundKey |
| `AesWords.FRlWordSame` | tegra/crypto/aes_generic.c:1315-1320 | a word of the last round is the same without MixColumns |
| `AesWords.IRnWordSame` | tegra/crypto/aes_generic.c:1372-1377 | a word of a middle decryption round is a column of the inverse transformations in the order of the equivalent inverse cipher |
| `AesWords.IRlWordSame` | tegra/crypto/aes_generic.c:1387-1392 | a word of the last decryption round is the same without the inverse of MixColumns |
| `AesBlocks.ScheduleSame` | tegra/crypto/aes_generic.c:1147-1255 | the key schedule on 32-bit words is that of section 5.2 of FIPS-197, for all three key lengths |
| `AesBlocks.EncryptQuadSame` | tegra/crypto/aes_generic.c:1300-1368 | the rounds of encryption on 32-bit words are the cipher, for all round keys |
| `AesBlocks.DecryptQuadSame` | tegra/crypto/aes_generic.c:1372-1440 | the rounds of decryption on 32-bit words are the equivalent inverse cipher |
| `AesBlocks.EncryptBlockSame` | tegra/crypto/aes_generic.c:1216-1368 | for every key and block, key expansion and encryption on words from bytes to bytes are the cipher of section 5.1 of FIPS-197 |
| `AesBlocks.DecryptBlockSame` | tegra/crypto/aes_generic.c:1216-1440 | and key expansion and decryption the inverse cipher of section 5.3 |
| `AesBlocks.BlockRoundTrip` | tegra/crypto/aes_generic.c:1216-1440 | so decryption on words returns what was encrypted on words |
| `AesTables.SubInverse` | tegra/crypto/aes_generic.c:857-923 | the inverse table undoes the table |
| `AesTables.SubStandard` | tegra/crypto/aes_generic.c:329-395 | the table is the inverse in the field followed by the affine transformation of section 5.1.1 of FIPS-197 |
| `AesTables.AesTablesFit` | tegra/crypto/aes_generic.c:329-395 | the tables meet what the rounds need |
| `AesTables.WordStar` | tegra/crypto/aes_generic.c:1128-1128 | multiplying four bytes of a word at once multiplies each |
| `AesTables.WordXor` | tegra/crypto/aes_generic.c:58-61 | exclusive or of words is that of columns |
| `AesContext.TempAtStart` | tegra/crypto/aes_generic.c:1147-1150 | the macros compute what section 5.2 of FIPS-197 adds at the start of each group of words |
| `AesContext.Context.Loop4` | tegra/crypto/aes_generic.c:1147-1158 | four more words of the schedule |
| `AesContext.Context.Loop6` | tegra/crypto/aes_generic.c:1160-1175 | six more words of the schedule |
| `AesContext.Context.Loop8` | tegra/crypto/aes_generic.c:1177-1199 | eight more words of the schedule |
| `AesContext.Context.FillEnc` | tegra/crypto/aes_generic.c:1232-1252 | the encryption key is the schedule of section 5.2 of FIPS-197, for all three lengths |
| `AesContext.Context.FillDec` | tegra/crypto/aes_generic.c:1227-1265 | the decryption key is that schedule with rounds reversed and inner rounds mixed |
| `AesContext.Context.ExpandKey` | tegra/crypto/aes_generic.c:1216-1268 | keys of 16, 24 and 32 bytes are expanded, others refused without change |
| `AesContext.DecKeysFit` | tegra/crypto/aes_generic.c:1254-1265 | the decryption key is the one the equivalent inverse cipher asks for |
| `AesContext.Context.Encrypt` | tegra/crypto/aes_generic.c:1329-1368 | encryption in place is the cipher of section 5.1 of FIPS-197 |
| `AesContext.Context.Decrypt` | tegra/crypto/aes_generic.c:1401-1440 | decryption in place is the equivalent inverse cipher |
| `AesContext.RoundTrip` | tegra/crypto/aes_generic.c:1329-1440 | decryption undoes encryption for every key and block, given fitting tables |
| `Aes.RcoTab` | tegra/crypto/aes_generic.c:63-63 | the constants of the schedule are the powers of x |
| `Aes.DecryptedIsInvCipher` | tegra/crypto/aes_generic.c:1401-1440 | decryption is the inverse cipher of section 5.3 of FIPS-197 |
| `Aes.AesRoundTrip` | tegra/crypto/aes_generic.c:1216-1440 | for every key of 16, 24 or 32 bytes and every block, decrypting what was encrypted returns the block |
| `Cprng.IncCounts` | tegra/crypto/ansi_cprng.c:167-174 | the counter steps as a big-endian integer |
| `Cprng.BlocksFollow` | tegra/crypto/ansi_cprng.c:88-174 | the stream is that of ANSI X9.31 Appendix A.2.4, block by block: I encrypts the counter, a block encrypts I xor V, the next V encrypts I xor the block, and the counter goes up by one |
| `Cprng.CallMoves` | tegra/crypto/ansi_cprng.c:188-272 | a call returns consecutive bytes and then moves on by all of them if it ended with the copy of a whole block, by one byte less otherwise |
| `Cprng.TwoCalls` | tegra/crypto/ansi_cprng.c:228-241 | two calls return consecutive bytes exactly when the first ended on a whole block, or the bytes in question are all equal |
| `Cprng.CallsFollow` | tegra/crypto/ansi_cprng.c:188-272 | calls that each end on a whole block, but for the last, return the stream however the total is split |
| `Cprng.CallsFollowIff` | tegra/crypto/ansi_cprng.c:188-272 | on a stream whose neighbouring bytes differ, calls return the stream exactly when all but the last end on a whole block |
| `Cprng.CallsMove` | tegra/crypto/ansi_cprng.c:188-272 | where any sequence of calls leaves the stream |
| `Cprng.SameByteTwice` | tegra/crypto/ansi_cprng.c:228-241 | with any cipher, two calls for one byte at the start of a block return the same byte |
| `Cprng.StreamNotFollowed` | tegra/crypto/ansi_cprng.c:228-241 | a concrete stream 1, 0 that two such calls return as 1, 1 |
| `CprngContext.Context.XorVectors` | tegra/crypto/ansi_cprng.c:75-83 | the loop computes the exclusive or |
| `CprngContext.Context.StepCounter` | tegra/crypto/ansi_cprng.c:167-174 | the loop with its early exit steps the counter |
| `CprngContext.Context.GetMore` | tegra/crypto/ansi_cprng.c:88-185 | the three stages make the next block of the stream, or report a repetition |
| `CprngContext.Context.EmptyBuffer` | tegra/crypto/ansi_cprng.c:228-241 | the copy loop, and where it leaves the position when the request is satisfied |
| `CprngContext.Context.WholeBlocks` | tegra/crypto/ansi_cprng.c:243-259 | the loop over whole blocks, its jump back included |
| `CprngContext.Context.GetBytes` | tegra/crypto/ansi_cprng.c:188-272 | the call returns the bytes ahead unless a repetition is among the blocks it needs, in which case the buffer is cleared; all refusals |
| `CprngContext.Context.Reset` | tegra/crypto/ansi_cprng.c:279-321 | the context after a reset, and when it stays unusable |

## Left out

- Spinlocks, RCU, memory barriers, per-CPU counters, work queues and timers.
- `blk_abort_flushes` and `blkdev_issue_flush`, which add no step of their own.
- Changes of throttling limits while bios wait, and the parsing of cgroup files.
- ThrottleWait.IopsWaitSuffices: stated while the products it needs fit the words of the source.
- ThrottleWait.BpsWaitAndAJiffy: stated while the products it needs fit the words of the source.
- ThrottleCredit.RefusedOnlyAtRate: stated while the products of the looks and trims fit the words of the source.
- ThrottleCredit.TrimKeepsCredit: stated while the products it needs fit the words of the source.
- Balancing of red-black trees: trees are sorted sequences, with the cached first entry kept as a field.
- Segment counting of requests without data (discards), drain and pad entries, integrity data and mixed failfast flags.
- Zero-length bios and discard vectors in partial completion; the segment recount at its end is the one of `MergeRequests.Request.Recount`.
- CompletionQueue.Request.UpdateRequest: a bio holds the vectors from its current index on; vectors behind the index are not kept, since nothing reads them.
- `last_sector` and `force` of the deadline scheduler, which are written or passed but never read, and its front merge lookup.
- `end_sector`, `boundary_rq` and sorted insertion into the dispatch queue (`elv_dispatch_sort`).
- `elv_merge` and `elv_attempt_insert_merge`, which only combine the lookup with the one-hit cache.
- TagQueue.BlockQueueTag.Resize: when the new map is the smaller one, what the copy of the old map writes behind it; only what fits is copied.
- Tag maps shared by several queues, except that they are not resized.
- The rest of CFQ: idling, preemption, cooperators, groups and I/O contexts.
- The entries of the large AES tables beyond the substitution and its inverse: they are defined by column multiplication and rotation.
- CprngContext.Context.GetBytes: requests of zero bytes that are not refused, for which the source stores a byte before it looks at the count and then lets the count wrap below zero; and of 2^31 bytes or more, whose count its result cannot hold.
- The registered wrappers of the generator: seed parsing, the default context and the FIPS variant.
- Registration, sysfs, ioctl, bsg, scsi_ioctl and the other crypto files.
