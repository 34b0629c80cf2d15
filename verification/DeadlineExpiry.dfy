/** How soon the deadline scheduler reaches a request whose time has run out. */
module DeadlineExpiry {
  import opened Options
  import opened Lists
  import opened Deadline
  import opened DeadlineProofs
  import opened DeadlineBounds

  ghost predicate Queued(s: State, rq: Rq) {
    rq in s.dir && rq in s.Of(s.dir[rq]).fifo
  }

  /** How many requests of its direction expire before `rq`. */
  ghost function Ahead(s: State, rq: Rq): nat
    requires Queued(s, rq)
  {
    IndexOf(s.Of(s.dir[rq]).fifo, rq)
  }

  /** `a` starts a batch in direction `w`. */
  ghost predicate StartsBatch(t: Tunables, s: State, a: Action, w: bool)
    requires Timed(s)
  {
    a.DoDispatch? && Choose(t, s, a.now).Choice? && Choose(t, s, a.now).starts && Choose(t, s, a.now).write == w
  }

  /** `rq` is still queued, no later and with at least `fewer` requests less ahead of it. */
  ghost predicate Closer(s: State, s1: State, rq: Rq, fewer: int)
    requires Queued(s, rq) && rq in s.time
  {
    && Queued(s1, rq) && s1.dir[rq] == s.dir[rq] && rq in s1.time && s1.time[rq] <= s.time[rq]
    && Ahead(s1, rq) <= Ahead(s, rq) - fewer
  }

  lemma AddCloser(t: Tunables, s: State, rq: Rq, x: Rq, w: bool, pos: int, now: int)
    requires SideFine(s, false) && SideFine(s, true) && Queued(s, rq) && x !in s.dir
    ensures Closer(s, Add(t, s, x, w, pos, now), rq, 0)
  {
    if s.dir[rq] == w {
      AppendIndex(s.Of(w).fifo, x, rq);
    }
  }

  /** In an ordered list an earlier key comes first. */
  lemma EarlierFirst(time: map<Rq, int>, l: seq<Rq>, x: Rq, y: Rq)
    requires Ordered(time, l) && x in l && y in l && time[x] < time[y]
    ensures IndexOf(l, x) < IndexOf(l, y)
  {
    if IndexOf(l, y) < IndexOf(l, x) {
      assert time[l[IndexOf(l, y)]] <= time[l[IndexOf(l, x)]];
    }
  }

  /** The merged request takes the place of an earlier one. */
  lemma MergedCloser(time: map<Rq, int>, l: seq<Rq>, req: Rq, next: Rq)
    requires NoDup(l) && Ordered(time, l) && req in l && next in l && time[next] < time[req]
    ensures req in Replace(Remove(l, req), next, req)
    ensures IndexOf(Replace(Remove(l, req), next, req), req) <= IndexOf(l, req)
  {
    RemoveMembers(l, req);
    RemoveIndex(l, req, next);
    EarlierFirst(time, l, next, req);
    ReplaceIndexNew(Remove(l, req), next, req);
  }

  lemma OthersCloser(l: seq<Rq>, req: Rq, next: Rq, rq: Rq)
    requires NoDup(l) && req in l && next in l && req != next && rq in l && rq != next && rq != req
    ensures next in Remove(l, req) && rq in Replace(Remove(l, req), next, req)
    ensures IndexOf(Replace(Remove(l, req), next, req), rq) <= IndexOf(l, rq)
  {
    RemoveMembers(l, req);
    RemoveIndex(l, req, rq);
    ReplaceIndex(Remove(l, req), next, req, rq);
  }

  /** No request moves back in the fifo when two others are merged, and the merged one only moves forward. */
  lemma FifoCloser(time: map<Rq, int>, l: seq<Rq>, req: Rq, next: Rq, rq: Rq)
    requires NoDup(l) && Ordered(time, l) && req in l && next in l && req != next && rq in l && rq != next
    ensures rq in FifoMerged(time, l, req, next)
    ensures IndexOf(FifoMerged(time, l, req, next), rq) <= IndexOf(l, rq)
  {
    if time[next] >= time[req] {
      RemoveIndex(l, next, rq);
    } else if rq == req {
      assert next in Remove(l, req) by { RemoveMembers(l, req); }
      MergedCloser(time, l, req, next);
    } else {
      OthersCloser(l, req, next, rq);
    }
  }

  lemma MergeCloser(s: State, req: Rq, next: Rq, rq: Rq)
    requires SideFine(s, false) && SideFine(s, true) && Queued(s, rq) && rq != next
    requires Queued(s, req) && req != next && next in s.Of(s.dir[req]).fifo
    ensures Closer(s, Merged(s, req, next), rq, 0)
  {
    var w := s.dir[req];
    if s.dir[rq] == w {
      FifoCloser(s.time, s.Of(w).fifo, req, next, rq);
    }
  }

  /** A batch of the direction of an expired request starts with the first request of its fifo. */
  lemma ExpiredHead(t: Tunables, s: State, rq: Rq, now: int)
    requires SideFine(s, false) && SideFine(s, true) && Queued(s, rq) && s.time[rq] < now
    requires StartsBatch(t, s, DoDispatch(now), s.dir[rq])
    ensures Choose(t, s, now).rq == s.Of(s.dir[rq]).fifo[0]
  {
    var l := s.Of(s.dir[rq]).fifo;
    assert s.time[l[0]] <= s.time[rq] by {
      assert l[IndexOf(l, rq)] == rq;
    }
  }

  /** Moving another request to the dispatch queue brings `rq` closer if that one was ahead of it. */
  lemma MoveCloser(s: State, w: bool, x: Rq, rq: Rq)
    requires SideFine(s, false) && SideFine(s, true) && Queued(s, rq) && x in s.Of(w).fifo && x != rq
    ensures Closer(s, MoveRequest(s, w, x), rq, if s.dir[rq] == w && x == s.Of(w).fifo[0] then 1 else 0)
  {
    if s.dir[rq] == w {
      var l := s.Of(w).fifo;
      RemoveIndex(l, x, rq);
      if x == l[0] {
        IndexUnique(l, x, 0);
      }
    }
  }

  lemma MoveTakes(s: State, w: bool, x: Rq)
    requires SideFine(s, w) && x in s.Of(w).fifo
    ensures !Queued(MoveRequest(s, w, x), x) && x in MoveRequest(s, w, x).queue
  {
    RemoveMembers(s.Of(w).fifo, x);
  }

  lemma DispatchTakes(t: Tunables, s: State, now: int)
    requires SideFine(s, false) && SideFine(s, true) && Choose(t, s, now).Choice?
    ensures !Queued(Dispatch(t, s, now), Choose(t, s, now).rq) && Choose(t, s, now).rq in Dispatch(t, s, now).queue
  {
    ChosenQueued(t, s, now);
    var c := Choose(t, s, now);
    MoveTakes(s.(batching := if c.starts then 1 else s.batching + 1, starved := c.starved), c.write, c.rq);
  }

  /** The fifo position does not depend on the counters. */
  lemma CloserFrom(s: State, s0: State, s1: State, rq: Rq, fewer: int)
    requires Queued(s, rq) && rq in s.time
    requires s0 == s.(batching := s0.batching, starved := s0.starved) && Closer(s0, s1, rq, fewer)
    ensures Closer(s, s1, rq, fewer)
  {
  }

  lemma DispatchPasses(t: Tunables, s: State, rq: Rq, now: int)
    requires SideFine(s, false) && SideFine(s, true) && Queued(s, rq)
    requires Choose(t, s, now).Choice? && Choose(t, s, now).rq != rq
    ensures Closer(s, Dispatch(t, s, now), rq,
                   var c := Choose(t, s, now);
                   if s.dir[rq] == c.write && c.rq == s.Of(c.write).fifo[0] then 1 else 0)
  {
    ChosenQueued(t, s, now);
    var c := Choose(t, s, now);
    var s0 := s.(batching := if c.starts then 1 else s.batching + 1, starved := c.starved);
    MoveCloser(s0, c.write, c.rq, rq);
    CloserFrom(s, s0, Dispatch(t, s, now), rq, if s.dir[rq] == c.write && c.rq == s.Of(c.write).fifo[0] then 1 else 0);
  }

  /** By how much an action is sure to bring `rq` closer to the head of its fifo. */
  ghost function Gain(t: Tunables, s: State, a: Action, rq: Rq): nat
    requires Timed(s) && Queued(s, rq) && rq in s.time
  {
    if StartsBatch(t, s, a, s.dir[rq]) && s.time[rq] < a.now then 1 else 0
  }

  lemma DispatchCloser(t: Tunables, s: State, rq: Rq, now: int)
    requires SideFine(s, false) && SideFine(s, true) && Queued(s, rq)
    ensures Closer(s, Dispatch(t, s, now), rq, Gain(t, s, DoDispatch(now), rq))
         || (!Queued(Dispatch(t, s, now), rq) && rq in Dispatch(t, s, now).queue)
  {
    if Choose(t, s, now).Choice? {
      if Choose(t, s, now).rq == rq {
        DispatchTakes(t, s, now);
      } else {
        DispatchPasses(t, s, rq, now);
        if Gain(t, s, DoDispatch(now), rq) == 1 {
          ExpiredHead(t, s, rq, now);
        }
      }
    }
  }

  lemma MergeWhere(s: State, req: Rq, next: Rq, rq: Rq)
    requires SideFine(s, false) && SideFine(s, true) && Queued(s, rq)
    requires Queued(s, req) && req != next && next in s.Of(s.dir[req]).fifo
    ensures if next == rq then !Queued(Merged(s, req, next), rq) else Closer(s, Merged(s, req, next), rq, 0)
  {
    if next == rq {
      MergeTakes(s, req, next);
    } else {
      MergeCloser(s, req, next, rq);
    }
  }

  /** Where `rq` is after a step: no further from the head, or off the fifo. */
  ghost predicate Moved(s: State, s1: State, a: Action, rq: Rq, fewer: int)
    requires Queued(s, rq) && rq in s.time
  {
    Closer(s, s1, rq, fewer) || (!Queued(s1, rq) && (rq in s1.queue || (a.DoMerge? && a.next == rq)))
  }

  lemma DispatchMoves(t: Tunables, s: State, a: Action, rq: Rq)
    requires SideFine(s, false) && SideFine(s, true) && Enabled(s, a) && Queued(s, rq) && a.DoDispatch?
    ensures Moved(s, Dispatch(t, s, a.now), a, rq, Gain(t, s, a, rq))
  {
    DispatchCloser(t, s, rq, a.now);
  }

  /** No other step starts a batch. */
  lemma OthersMove(t: Tunables, s: State, a: Action, rq: Rq)
    requires SideFine(s, false) && SideFine(s, true) && Enabled(s, a) && Queued(s, rq) && !a.DoDispatch?
    ensures Moved(s, Act(t, s, a), a, rq, 0) && Gain(t, s, a, rq) == 0
  {
    match a
    case DoAdd(x, w, pos, now) => AddCloser(t, s, rq, x, w, pos, now);
    case DoFrontMerge(x, pos, _) => FrontCloser(s, x, pos, rq);
    case DoMerge(req, next, _) => MergeWhere(s, req, next, rq);
  }

  /** Every step leaves a queued request no further from the head, unless it takes it off the fifo. */
  lemma ActCloser(t: Tunables, s: State, a: Action, rq: Rq)
    requires SideFine(s, false) && SideFine(s, true) && Enabled(s, a) && Queued(s, rq)
    ensures Moved(s, Act(t, s, a), a, rq, Gain(t, s, a, rq))
  {
    if a.DoDispatch? {
      DispatchMoves(t, s, a, rq);
    } else {
      OthersMove(t, s, a, rq);
    }
  }

  lemma FrontCloser(s: State, x: Rq, pos: int, rq: Rq)
    requires SideFine(s, false) && SideFine(s, true) && Queued(s, rq) && Queued(s, x)
    ensures Closer(s, FrontMerged(s, x, pos), rq, 0)
  {
  }

  lemma MergeTakes(s: State, req: Rq, next: Rq)
    requires SideFine(s, false) && SideFine(s, true)
    requires Queued(s, req) && req != next && next in s.Of(s.dir[req]).fifo
    ensures !Queued(Merged(s, req, next), next)
  {
    var l := s.Of(s.dir[req]).fifo;
    RemoveMembers(l, next);
    RemoveMembers(l, req);
    if s.time[next] < s.time[req] {
      ReplaceMembers(Remove(l, req), next, req);
    }
  }

  lemma DispatchGone(t: Tunables, s: State, now: int, rq: Rq)
    requires SideFine(s, false) && SideFine(s, true) && rq in s.dir && !Queued(s, rq)
    ensures rq in Dispatch(t, s, now).dir && !Queued(Dispatch(t, s, now), rq)
    ensures rq in s.queue ==> rq in Dispatch(t, s, now).queue
  {
    if Choose(t, s, now).Choice? {
      RemoveMembers(s.Of(Choose(t, s, now).write).fifo, Choose(t, s, now).rq);
    }
  }

  /** A request that has left its fifo does not come back, and what is on the dispatch queue stays there. */
  lemma StaysGone(t: Tunables, s: State, a: Action, rq: Rq)
    requires SideFine(s, false) && SideFine(s, true) && Enabled(s, a) && rq in s.dir && !Queued(s, rq)
    ensures rq in Act(t, s, a).dir && !Queued(Act(t, s, a), rq)
    ensures rq in s.queue ==> rq in Act(t, s, a).queue
  {
    if a.DoDispatch? {
      DispatchGone(t, s, a.now, rq);
    } else if a.DoMerge? {
      MergedMembers(s, a.req, a.next, rq);
    }
  }

  lemma MergedMembers(s: State, req: Rq, next: Rq, rq: Rq)
    requires SideFine(s, false) && SideFine(s, true)
    requires Queued(s, req) && req != next && next in s.Of(s.dir[req]).fifo
    requires rq in s.dir && !Queued(s, rq)
    ensures !Queued(Merged(s, req, next), rq)
  {
    var l := s.Of(s.dir[req]).fifo;
    RemoveMembers(l, next);
    RemoveMembers(l, req);
    if s.time[next] < s.time[req] {
      ReplaceMembers(Remove(l, req), next, req);
    }
  }

  // ---------------------------------------------------------------------------
  // Over whole runs
  // ---------------------------------------------------------------------------

  /** How many batches `run` starts in direction `w`. */
  ghost function Batches(t: Tunables, s: State, last: int, run: seq<Action>, w: bool): nat
    requires Inv(t, s, last) && Possible(t, s, last, run)
    decreases |run|
  {
    if run == [] then 0
    else
      ActKeeps(t, s, run[0], last);
      (if StartsBatch(t, s, run[0], w) then 1 else 0) + Batches(t, Act(t, s, run[0]), run[0].now, run[1..], w)
  }

  ghost predicate MergedAway(run: seq<Action>, rq: Rq) {
    run != [] && ((run[0].DoMerge? && run[0].next == rq) || MergedAway(run[1..], rq))
  }

  lemma DirKept(t: Tunables, s: State, a: Action, rq: Rq)
    requires SideFine(s, false) && SideFine(s, true) && Enabled(s, a) && rq in s.dir
    ensures rq in Act(t, s, a).dir
  {
  }

  lemma {:induction false} PlayGone(t: Tunables, s: State, last: int, run: seq<Action>, rq: Rq)
    requires Inv(t, s, last) && Possible(t, s, last, run) && rq in s.dir && !Queued(s, rq)
    ensures !Queued(Play(t, s, last, run), rq)
    ensures rq in s.queue ==> rq in Play(t, s, last, run).queue
    decreases |run|
  {
    if run != [] {
      ActKeeps(t, s, run[0], last);
      StaysGone(t, s, run[0], rq);
      PlayGone(t, Act(t, s, run[0]), run[0].now, run[1..], rq);
    }
  }

  /** Each batch started in its direction after its time has run out brings a request closer, or takes it. */
  lemma {:induction false} PlayCloser(t: Tunables, s: State, last: int, run: seq<Action>, rq: Rq)
    requires Inv(t, s, last) && Possible(t, s, last, run) && Queued(s, rq) && s.time[rq] < last
    ensures Queued(Play(t, s, last, run), rq) ==> Batches(t, s, last, run, s.dir[rq]) <= Ahead(s, rq)
    decreases |run|
  {
    if run != [] {
      var a, s1 := run[0], Act(t, s, run[0]);
      ActKeeps(t, s, a, last);
      ActCloser(t, s, a, rq);
      if Queued(s1, rq) {
        PlayCloser(t, s1, a.now, run[1..], rq);
      } else {
        DirKept(t, s, a, rq);
        PlayGone(t, s1, a.now, run[1..], rq);
      }
    }
  }

  /** A request leaves its fifo for the dispatch queue or for another request. */
  lemma {:induction false} PlayWhere(t: Tunables, s: State, last: int, run: seq<Action>, rq: Rq)
    requires Inv(t, s, last) && Possible(t, s, last, run) && Queued(s, rq)
    ensures Queued(Play(t, s, last, run), rq) || rq in Play(t, s, last, run).queue || MergedAway(run, rq)
    decreases |run|
  {
    if run != [] {
      var a, s1 := run[0], Act(t, s, run[0]);
      ActKeeps(t, s, a, last);
      ActCloser(t, s, a, rq);
      if Queued(s1, rq) {
        PlayWhere(t, s1, a.now, run[1..], rq);
      } else {
        DirKept(t, s, a, rq);
        PlayGone(t, s1, a.now, run[1..], rq);
      }
    }
  }

  /**
   A request whose time has run out, with k requests ahead of it in its fifo, is on the dispatch queue
   once k + 1 batches have been started in its direction, unless it was merged into another request.
   */
  lemma ExpiredDispatched(t: Tunables, s: State, last: int, run: seq<Action>, rq: Rq)
    requires Inv(t, s, last) && Possible(t, s, last, run) && Queued(s, rq) && s.time[rq] < last
    requires Batches(t, s, last, run, s.dir[rq]) >= Ahead(s, rq) + 1
    ensures rq in Play(t, s, last, run).queue || MergedAway(run, rq)
  {
    PlayCloser(t, s, last, run, rq);
    PlayWhere(t, s, last, run, rq);
  }
}
