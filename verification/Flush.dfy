/**
 FLUSH/FUA request sequencing (block/blk-flush.c).

 A FLUSH/FUA request is decomposed into up to three steps: flush the cache, write
 the data, flush the cache again.  Flushes are double buffered: requests that need
 one wait on the pending queue; issuing a flush turns the pending queue into the
 running one.  Every section of the source that runs under the queue lock is one
 step here.  The state carries the history of what was issued, completed and ended,
 so that durability can be stated over whole runs.
 */
module Flush {
  import Lists

  /** A request, named by its identity; every inserted request is a new one. */
  type Rq = nat

  datatype Step = Preflush | Data | Postflush | Done

  /** A mask of REQ_FSEQ_PREFLUSH, REQ_FSEQ_DATA and REQ_FSEQ_POSTFLUSH. */
  datatype Mask = Mask(pre: bool, data: bool, post: bool) {
    function Or(m: Mask): Mask {
      Mask(pre || m.pre, data || m.data, post || m.post)
    }

    function Not(): Mask {
      Mask(!pre, !data, !post)
    }

    ghost predicate Within(m: Mask) {
      (pre ==> m.pre) && (data ==> m.data) && (post ==> m.post)
    }
  }

  const NONE := Mask(false, false, false)

  function Bit(step: Step): Mask {
    Mask(step == Preflush, step == Data, step == Postflush)
  }

  /** What sits on the dispatch queue or is owned by the driver. */
  datatype Entry = FlushRq | Io(rq: Rq)

  datatype Event =
    | Inserted(rq: Rq)
    | FlushIssued(n: int)
    | FlushCompleted(n: int, ok: bool)
    | DataQueued(rq: Rq)
    | DataCompleted(rq: Rq, ok: bool)
    | Ended(rq: Rq, ok: bool)

  /** A history of events, the latest on the outside. */
  datatype History = Start | Then(before: History, event: Event)

  datatype State = State(
    flushQueue: seq<seq<Rq>>,       // q->flush_queue[2]
    pendingIdx: int,
    runningIdx: int,
    pendingSince: int,
    dataInFlight: seq<Rq>,
    queueHead: seq<Entry>,          // the dispatch queue
    driver: multiset<Entry>,        // fetched by the driver, not yet completed
    sequenced: set<Rq>,             // requests marked REQ_FLUSH_SEQ
    policy: map<Rq, Mask>,     // the steps each inserted request needs
    done: map<Rq, Mask>,       // rq->flush.seq
    flushes: int,                   // flushes issued so far
    log: History,
    joined: map<Rq, int>)           // when each request was last queued for a flush

  // ---------------------------------------------------------------------------
  // The steps of the source
  // ---------------------------------------------------------------------------

  /** blk_flush_policy */
  function Policy(devFlush: bool, devFua: bool, sectors: nat, flush: bool, fua: bool): Mask {
    Mask(devFlush && flush, sectors != 0, devFlush && !devFua && fua)
  }

  /** blk_flush_cur_seq: the lowest bit not yet set. */
  function CurSeq(done: Mask): Step {
    if !done.pre then Preflush
    else if !done.data then Data
    else if !done.post then Postflush
    else Done
  }

  ghost predicate Shape(s: State) {
    && |s.flushQueue| == 2
    && 0 <= s.pendingIdx < 2
    && 0 <= s.runningIdx < 2
  }

  function Note(s: State, e: Event): State {
    s.(log := Then(s.log, e))
  }

  /** list_del of the request's list entry, from whichever list holds it. */
  function Unlink(s: State, rq: Rq): State
    requires |s.flushQueue| == 2
  {
    s.(flushQueue := [Lists.RemoveAll(s.flushQueue[0], rq), Lists.RemoveAll(s.flushQueue[1], rq)],
       dataInFlight := Lists.RemoveAll(s.dataInFlight, rq))
  }

  /** req_bio_endio on the request's last byte: a bio of a sequenced request is not finished. */
  function EndBio(s: State, rq: Rq, ok: bool): State {
    if rq in s.sequenced then s else Note(s, Ended(rq, ok))
  }

  // The three branches of the switch in blk_flush_complete_seq, on a request already off its list.

  /** Queue for a flush. */
  function ToPending(s: State, rq: Rq, since: int, now: int): State
    requires Shape(s)
  {
    s.(pendingSince := since, joined := s.joined[rq := now],
       flushQueue := s.flushQueue[s.pendingIdx := s.flushQueue[s.pendingIdx] + [rq]])
  }

  /** Queue the data, ahead of everything else. */
  function ToData(s: State, rq: Rq): State {
    Note(s.(dataInFlight := s.dataInFlight + [rq], queueHead := [Io(rq)] + s.queueHead), DataQueued(rq))
  }

  /** blk_flush_restore_request and __blk_end_request_all. */
  function ToEnd(s: State, rq: Rq, error: bool): State {
    EndBio(s.(sequenced := s.sequenced - {rq}), rq, !error)
  }

  /** blk_kick_flush; `timeout` is FLUSH_PENDING_TIMEOUT. */
  function KickFlush(s: State, timeout: int, now: int): (r: State)
    requires Shape(s)
    ensures Shape(r)
  {
    if s.pendingIdx != s.runningIdx || s.flushQueue[s.pendingIdx] == [] then s
    else if s.dataInFlight != [] && now < s.pendingSince + timeout then s
    else Note(s.(pendingIdx := 1 - s.pendingIdx,
                 queueHead := s.queueHead + [FlushRq],
                 flushes := s.flushes + 1), FlushIssued(s.flushes))
  }

  /** rq->flush.seq */
  function DoneOf(s: State, rq: Rq): Mask {
    if rq in s.done then s.done[rq] else NONE
  }

  /** Record `steps` as done and take the request off its list. */
  function Detach(s: State, rq: Rq, steps: Mask): State
    requires Shape(s)
  {
    Unlink(s.(done := s.done[rq := DoneOf(s, rq).Or(steps)]), rq)
  }

  /** The step a request with `done` behind it takes next. */
  function NextStep(done: Mask, error: bool): Step {
    if error then Done else CurSeq(done)
  }

  /** blk_flush_complete_seq before its final kick. */
  function Advance(s: State, rq: Rq, steps: Mask, error: bool, now: int): (r: State)
    requires Shape(s)
    ensures Shape(r)
  {
    var s1 := Detach(s, rq, steps);
    match NextStep(DoneOf(s1, rq), error)
    case Data => ToData(s1, rq)
    case Done => ToEnd(s1, rq, error)
    case _ => ToPending(s1, rq, if s.flushQueue[s.pendingIdx] == [] then now else s.pendingSince, now)
  }

  /** blk_flush_complete_seq */
  function CompleteSeq(s: State, rq: Rq, steps: Mask, error: bool, timeout: int, now: int): (r: State)
    requires Shape(s)
    ensures Shape(r)
  {
    KickFlush(Advance(s, rq, steps, error, now), timeout, now)
  }

  // Each device-side or submitter-side action is one of the following four.

  /** blk_insert_flush */
  function Insert(s: State, rq: Rq, policy: Mask, timeout: int, now: int): (r: State)
    requires Shape(s)
    ensures Shape(r)
  {
    var s1 := Note(s.(policy := s.policy[rq := policy]), Inserted(rq));
    if policy == NONE then
      EndBio(s1, rq, true)
    else if policy == Bit(Data) then
      s1.(queueHead := s1.queueHead + [Io(rq)])
    else
      CompleteSeq(s1.(sequenced := s1.sequenced + {rq}, done := s1.done[rq := NONE]), rq, policy.Not(), false, timeout,
                  now)
  }

  /** The driver takes the first entry of the dispatch queue. */
  function Fetch(s: State): (r: State)
    requires s.queueHead != []
  {
    s.(queueHead := s.queueHead[1..], driver := s.driver + multiset{s.queueHead[0]})
  }

  /** The driver completes the I/O of a request; flush_data_end_io when the request is sequenced. */
  function EndIo(s: State, rq: Rq, ok: bool, timeout: int, now: int): (r: State)
    requires Shape(s)
    ensures Shape(r)
  {
    var s1 := Note(s.(driver := s.driver - multiset{Io(rq)}), DataCompleted(rq, ok));
    var s2 := EndBio(s1, rq, ok);
    if rq in s.sequenced then CompleteSeq(s2, rq, Bit(Data), !ok, timeout, now) else s2
  }

  /** What completing steps does to the queues: only the pending one may gain the request, if it needs another flush. */
  lemma AdvanceQueues(s: State, x: Rq, steps: Mask, error: bool, now: int, i: int)
    requires Shape(s) && 0 <= i < 2
    ensures var r, next := Advance(s, x, steps, error, now), NextStep(DoneOf(s, x).Or(steps), error);
            && r.runningIdx == s.runningIdx && r.pendingIdx == s.pendingIdx && r.policy == s.policy
            && r.done == s.done[x := DoneOf(s, x).Or(steps)]
            && r.flushQueue[i] == Lists.RemoveAll(s.flushQueue[i], x) +
                                  if i == s.pendingIdx && next in {Preflush, Postflush} then [x] else []
  {
    var s1 := Detach(s, x, steps);
    assert s1.flushQueue[i] == Lists.RemoveAll(s.flushQueue[i], x);
    assert s1.flushQueue[i] + [] == s1.flushQueue[i];
  }

  /** Issuing a flush changes which queue is pending, not what is on the queues. */
  lemma KickRoles(s: State, timeout: int, now: int)
    requires Shape(s)
    ensures var r := KickFlush(s, timeout, now);
            && r.flushQueue == s.flushQueue && r.runningIdx == s.runningIdx
            && r.policy == s.policy && r.done == s.done
            && (r.pendingIdx == s.pendingIdx || (r.pendingIdx != r.runningIdx && s.pendingIdx == s.runningIdx))
  {
  }

  function Missing(done: Mask): nat {
    (if done.pre then 0 else 1) + (if done.data then 0 else 1) + (if done.post then 0 else 1)
  }

  /** How often the requests of a queue can come up in the loop of flush_end_io. */
  function Turns(done: map<Rq, Mask>, l: seq<Rq>): nat {
    if l == [] then 0 else 1 + Missing(if l[0] in done then done[l[0]] else NONE) + Turns(done, l[1..])
  }

  lemma {:induction false} TurnsRemoved(done: map<Rq, Mask>, l: seq<Rq>, x: Rq, m: Mask)
    ensures Turns(done[x := m], Lists.RemoveAll(l, x)) <= Turns(done, l)
    ensures x in l ==>
              Turns(done[x := m], Lists.RemoveAll(l, x)) <=
              Turns(done, l) - 1 - Missing(if x in done then done[x] else NONE)
  {
    if l != [] {
      TurnsRemoved(done, l[1..], x, m);
      if l[0] != x {
        assert ([l[0]] + Lists.RemoveAll(l[1..], x))[1..] == Lists.RemoveAll(l[1..], x);
      }
    }
  }

  lemma {:induction false} TurnsAppend(done: map<Rq, Mask>, l: seq<Rq>, x: Rq)
    ensures Turns(done, l + [x]) == Turns(done, l) + 1 + Missing(if x in done then done[x] else NONE)
  {
    if l == [] {
      assert [x][1..] == [] && l + [x] == [x];
    } else {
      assert (l + [x])[1..] == l[1..] + [x];
      TurnsAppend(done, l[1..], x);
    }
  }

  /** The step that comes next is a step done, unless there is none. */
  lemma StepDone(done: Mask)
    ensures CurSeq(done) != Done ==> Missing(done.Or(Bit(CurSeq(done)))) < Missing(done)
    ensures CurSeq(done) == Done ==> done.Or(Bit(CurSeq(done))) == done
  {
  }

  /** The turn of flush_end_io for a request: the step it waits for is done. */
  function TurnOf(s: State, x: Rq, ok: bool, timeout: int, now: int): (r: State)
    requires Shape(s)
    ensures Shape(r)
  {
    CompleteSeq(s, x, Bit(CurSeq(DoneOf(s, x))), !ok, timeout, now)
  }

  lemma TurnsDrop(s: State, r: int, ok: bool, timeout: int, now: int)
    requires Shape(s) && 0 <= r < 2 && s.flushQueue[r] != []
    ensures var t := TurnOf(s, s.flushQueue[r][0], ok, timeout, now);
            Turns(t.done, t.flushQueue[r]) < Turns(s.done, s.flushQueue[r])
  {
    var x := s.flushQueue[r][0];
    var m := DoneOf(s, x);
    var m' := m.Or(Bit(CurSeq(m)));
    AdvanceQueues(s, x, Bit(CurSeq(m)), !ok, now, r);
    KickRoles(Advance(s, x, Bit(CurSeq(m)), !ok, now), timeout, now);
    TurnsRemoved(s.done, s.flushQueue[r], x, m');
    TurnsAppend(s.done[x := m'], Lists.RemoveAll(s.flushQueue[r], x), x);
    StepDone(m);
  }

  /**
   The loop of flush_end_io over queue `r`: the first request has its turn, and it goes on unless that
   one was also the last.  A request that needs another flush may come back to the end of the queue.
   */
  function WalkQueue(s: State, r: int, ok: bool, timeout: int, now: int): (t: State)
    requires Shape(s) && 0 <= r < 2
    ensures Shape(t)
    decreases Turns(s.done, s.flushQueue[r])
  {
    if s.flushQueue[r] == [] then s
    else
      TurnsDrop(s, r, ok, timeout, now);
      var t := TurnOf(s, s.flushQueue[r][0], ok, timeout, now);
      if |s.flushQueue[r]| == 1 then t else WalkQueue(t, r, ok, timeout, now)
  }

  /** flush_end_io up to its loop. */
  function RetireFlush(s: State, ok: bool): (r: State)
    requires Shape(s)
    ensures Shape(r)
  {
    Note(s.(driver := s.driver - multiset{FlushRq}, runningIdx := 1 - s.runningIdx), FlushCompleted(s.flushes - 1, ok))
  }

  /** flush_end_io */
  function EndFlush(s: State, ok: bool, timeout: int, now: int): (r: State)
    requires Shape(s)
    ensures Shape(r)
  {
    WalkQueue(RetireFlush(s, ok), s.runningIdx, ok, timeout, now)
  }

  // ---------------------------------------------------------------------------
  // What the history says
  // ---------------------------------------------------------------------------

  ghost predicate Saw(h: History, e: Event) {
    h.Then? && (h.event == e || Saw(h.before, e))
  }

  /** Flush `n` was issued, and `e` had happened before that. */
  ghost predicate IssuedAfter(h: History, e: Event, n: int) {
    h.Then? && ((h.event == FlushIssued(n) && Saw(h.before, e)) || IssuedAfter(h.before, e, n))
  }

  /** Some flush that was issued after `e` completed without error. */
  ghost predicate FlushedAfter(h: History, e: Event) {
    h.Then? &&
    ((h.event.FlushCompleted? && h.event.ok && IssuedAfter(h.before, e, h.event.n)) || FlushedAfter(h.before, e))
  }

  /** How many times the bio of `rq` has been ended. */
  ghost function Ends(h: History, rq: Rq): nat {
    if h.Start? then 0
    else Ends(h.before, rq) + if h.event.Ended? && h.event.rq == rq then 1 else 0
  }

  /** What the post-flush of a request must come after: its data, if it has any. */
  ghost function Written(rq: Rq, policy: Mask): Event {
    if policy.data then DataCompleted(rq, true) else Inserted(rq)
  }

  /** A successfully ended request has been through every step of its policy, in order. */
  ghost predicate WholeSequence(h: History, rq: Rq, policy: Mask) {
    && (policy.pre ==> FlushedAfter(h, Inserted(rq)))
    && (policy.data ==> Saw(h, DataCompleted(rq, true)))
    && (policy.post ==> FlushedAfter(h, Written(rq, policy)))
  }

  /**
   Durability: data of a request that asked for a preceding flush is queued only after
   such a flush, and a request ends successfully only after its whole sequence.
   */
  ghost predicate Durable(h: History, policy: map<Rq, Mask>) {
    h.Start? ||
    (&& Durable(h.before, policy)
     && match h.event
        case DataQueued(rq) => rq in policy && (policy[rq].pre ==> FlushedAfter(h.before, Inserted(rq)))
        case Ended(rq, ok) => rq in policy && (ok ==> WholeSequence(h.before, rq, policy[rq]))
        case _ => true)
  }

  // ---------------------------------------------------------------------------
  // The protocol invariant
  // ---------------------------------------------------------------------------

  ghost predicate FlushInFlight(s: State) {
    s.pendingIdx != s.runningIdx
  }

  ghost function Count<T>(l: seq<T>, x: T): nat {
    multiset(l)[x]
  }

  /** How often `e` is queued for dispatch or owned by the driver. */
  ghost function Flying(s: State, e: Entry): nat {
    Count(s.queueHead, e) + s.driver[e]
  }

  ghost function OnFlushQueues(s: State, rq: Rq): nat
    requires Shape(s)
  {
    Count(s.flushQueue[0], rq) + Count(s.flushQueue[1], rq)
  }

  ghost predicate Tables(s: State, rq: Rq) {
    && (rq in s.sequenced ==> rq in s.done)
    && (rq in s.done ==> rq in s.policy && s.policy[rq].Not().Within(s.done[rq]))
    && (rq in s.policy && rq !in s.done ==> s.policy[rq].Within(Bit(Data)))
  }

  /** A sequenced request is on exactly one list, and the list fits its current step. */
  ghost predicate Listed(s: State, rq: Rq)
    requires Shape(s)
  {
    && OnFlushQueues(s, rq) + Count(s.dataInFlight, rq) == (if rq in s.sequenced then 1 else 0)
    && (rq in s.sequenced && rq in s.done ==>
          (Count(s.dataInFlight, rq) == 1 <==> CurSeq(s.done[rq]) == Data) && CurSeq(s.done[rq]) != Done)
  }

  /** I/O of a sequenced request is under way exactly while it is on the data-in-flight list. */
  ghost predicate Flies(s: State, rq: Rq) {
    && Flying(s, Io(rq)) <= 1
    && (rq in s.done ==> Flying(s, Io(rq)) == Count(s.dataInFlight, rq))
    && (rq !in s.policy ==> Flying(s, Io(rq)) == 0)
  }

  /** The bio has been ended exactly when nothing of the request is left, and then once. */
  ghost predicate EndedOnce(s: State, rq: Rq) {
    Ends(s.log, rq) == if rq in s.policy && rq !in s.sequenced && Flying(s, Io(rq)) == 0 then 1 else 0
  }

  /** What the history says about the steps a sequenced request has behind it. */
  ghost predicate Recorded(s: State, rq: Rq) {
    rq in s.sequenced && rq in s.done && rq in s.policy ==>
      && Saw(s.log, Inserted(rq))
      && (s.policy[rq].data && s.done[rq].data ==> Saw(s.log, DataCompleted(rq, true)))
      && (s.policy[rq].pre && s.done[rq].pre ==> FlushedAfter(s.log, Inserted(rq)))
      && (s.policy[rq].post ==> !s.done[rq].post)
      && (s.policy[rq].data && s.done[rq].data ==> s.done[rq].pre)
  }

  /** The facts about one request. */
  ghost predicate Good(s: State, rq: Rq) {
    Shape(s) && Tables(s, rq) && Listed(s, rq) && Flies(s, rq) && EndedOnce(s, rq) && Recorded(s, rq)
  }

  /** What the flush a request waits for must come after. */
  ghost function Ready(s: State, rq: Rq): Event
    requires rq in s.done && rq in s.policy
  {
    if CurSeq(s.done[rq]) == Preflush then Inserted(rq) else Written(rq, s.policy[rq])
  }

  /** The flush in flight, if any, was issued late enough for a request on the running queue. */
  ghost predicate Covered(s: State, rq: Rq)
    requires Shape(s)
  {
    FlushInFlight(s) && Count(s.flushQueue[s.runningIdx], rq) > 0 && rq in s.done && rq in s.policy ==>
      IssuedAfter(s.log, Ready(s, rq), s.flushes - 1)
  }

  /** The facts about one request, including what the flush in flight means for it. */
  ghost predicate Fine(s: State, rq: Rq) {
    Good(s, rq) && Covered(s, rq)
  }

  /** The facts about the queues as a whole; at most one flush is in flight. */
  ghost predicate Queues(s: State) {
    && Shape(s)
    && Flying(s, FlushRq) == (if FlushInFlight(s) then 1 else 0)
    && (FlushInFlight(s) ==> s.flushQueue[s.runningIdx] != [])
    && Durable(s.log, s.policy)
  }

  /** Nobody waits for a flush that nothing will ever trigger. */
  ghost predicate NoStall(s: State)
    requires Shape(s)
  {
    s.flushQueue[s.pendingIdx] != [] ==> FlushInFlight(s) || s.dataInFlight != []
  }

  ghost predicate EveryoneBut(s: State, x: Rq) {
    forall rq :: rq != x ==> Fine(s, rq)
  }

  ghost predicate Everyone(s: State) {
    forall rq :: Fine(s, rq)
  }

  ghost predicate Inv(s: State) {
    && Queues(s)
    && NoStall(s)
    && Everyone(s)
    && (!FlushInFlight(s) ==> s.flushQueue[1 - s.pendingIdx] == [])
  }

  // ---------------------------------------------------------------------------
  // Whole runs
  // ---------------------------------------------------------------------------

  /** What can happen to the queue; the device's flush capabilities may differ at every insertion. */
  datatype Action =
    | DoInsert(rq: Rq, devFlush: bool, devFua: bool, sectors: nat, flush: bool, fua: bool, now: int)
    | DoFetch
    | DoEndIo(rq: Rq, ok: bool, now: int)
    | DoEndFlush(ok: bool, now: int)

  /** When an action can happen: requests are new, and the driver completes what it has. */
  ghost predicate Enabled(s: State, a: Action) {
    match a
    case DoInsert(rq, _, _, _, _, _, _) => rq !in s.policy
    case DoFetch => s.queueHead != []
    case DoEndIo(rq, _, _) => Io(rq) in s.driver
    case DoEndFlush(_, _) => FlushRq in s.driver
  }

  function Act(s: State, a: Action, timeout: int): (r: State)
    requires Shape(s) && (a.DoFetch? ==> s.queueHead != [])
    ensures Shape(r)
  {
    match a
    case DoInsert(rq, devFlush, devFua, sectors, flush, fua, now) =>
      Insert(s, rq, Policy(devFlush, devFua, sectors, flush, fua), timeout, now)
    case DoFetch => Fetch(s)
    case DoEndIo(rq, ok, now) => EndIo(s, rq, ok, timeout, now)
    case DoEndFlush(ok, now) => EndFlush(s, ok, timeout, now)
  }

  const INITIAL := State([[], []], 0, 0, 0, [], [], multiset{}, {}, map[], map[], 0, Start, map[])

  /** `s` is reached from the empty queue by the actions `run`, each possible when it happens. */
  ghost predicate Reaches(run: seq<Action>, timeout: int, s: State) {
    if run == [] then s == INITIAL
    else
      var a := run[|run| - 1];
      exists t :: Reaches(run[..|run| - 1], timeout, t) && Shape(t) && Enabled(t, a) && s == Act(t, a, timeout)
  }

  /** `h` is the history at some earlier moment, or now. */
  ghost predicate Earlier(h: History, now: History) {
    h == now || (now.Then? && Earlier(h, now.before))
  }
}
