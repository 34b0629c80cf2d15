/**
 What the deadline scheduler promises over whole runs: the structure is kept, writes are starved
 only for so long, and an expired request is reached after as many batches as requests are ahead
 of it in its fifo.
 */
module DeadlineBounds {
  import opened Options
  import opened Lists
  import opened Deadline
  import opened DeadlineProofs

  datatype Action =
    | DoAdd(rq: Rq, write: bool, pos: int, now: int)
    | DoFrontMerge(rq: Rq, pos: int, now: int)
    | DoMerge(req: Rq, next: Rq, now: int)
    | DoDispatch(now: int)

  /** What the elevator core lets happen: new requests are new, merges are between queued requests of a direction. */
  ghost predicate Enabled(s: State, a: Action) {
    match a
    case DoAdd(rq, _, _, _) => rq !in s.dir
    case DoFrontMerge(rq, _, _) => rq in s.dir && rq in s.Of(s.dir[rq]).fifo
    case DoMerge(req, next, _) =>
      req != next && req in s.dir && req in s.Of(s.dir[req]).fifo && next in s.Of(s.dir[req]).fifo
    case DoDispatch(_) => true
  }

  function Act(t: Tunables, s: State, a: Action): State
    requires SideFine(s, false) && SideFine(s, true) && Enabled(s, a)
  {
    match a
    case DoAdd(rq, w, pos, now) => Add(t, s, rq, w, pos, now)
    case DoFrontMerge(rq, pos, _) => FrontMerged(s, rq, pos)
    case DoMerge(req, next, _) => Merged(s, req, next)
    case DoDispatch(now) => Dispatch(t, s, now)
  }

  lemma Wait(t: Tunables, s: State, last: int, now: int)
    requires Inv(t, s, last) && last <= now
    ensures Inv(t, s, now)
  {
  }

  lemma ActKeeps(t: Tunables, s: State, a: Action, last: int)
    requires Inv(t, s, last) && Enabled(s, a) && last <= a.now
    ensures Inv(t, Act(t, s, a), a.now)
  {
    match a
    case DoAdd(rq, w, pos, now) => AddKeeps(t, s, rq, w, pos, now, last);
    case DoFrontMerge(rq, pos, now) => Wait(t, s, last, now); FrontMergedKeeps(t, s, rq, pos, now);
    case DoMerge(req, next, now) => Wait(t, s, last, now); MergedKeeps(t, s, req, next, now);
    case DoDispatch(now) => Wait(t, s, last, now); DispatchKeeps(t, s, now);
  }

  const EMPTY := Side([], [], None)
  const INITIAL := State(EMPTY, EMPTY, map[], map[], map[], 0, 0, 0, [])

  lemma InitialInv(t: Tunables)
    requires t.writesStarved >= -0x8000_0000
    ensures Inv(t, INITIAL, 0)
  {
  }

  /** The actions of `run` can happen one after the other, in time order. */
  ghost predicate Possible(t: Tunables, s: State, last: int, run: seq<Action>)
    requires Inv(t, s, last)
    decreases |run|
  {
    run == [] ||
    (&& Enabled(s, run[0]) && last <= run[0].now
     && (ActKeeps(t, s, run[0], last); Possible(t, Act(t, s, run[0]), run[0].now, run[1..])))
  }

  /** The state after `run`. */
  ghost function Play(t: Tunables, s: State, last: int, run: seq<Action>): State
    requires Inv(t, s, last) && Possible(t, s, last, run)
    decreases |run|
  {
    if run == [] then s
    else
      ActKeeps(t, s, run[0], last);
      Play(t, Act(t, s, run[0]), run[0].now, run[1..])
  }

  /** The time after `run`. */
  ghost function Until(last: int, run: seq<Action>): int {
    if run == [] then last else run[|run| - 1].now
  }

  lemma UntilRest(last: int, run: seq<Action>)
    requires run != []
    ensures Until(run[0].now, run[1..]) == Until(last, run)
  {
  }

  /** In every state a run reaches, the two lists of each direction agree and are in order. */
  lemma {:induction false} PlayInv(t: Tunables, s: State, last: int, run: seq<Action>)
    requires Inv(t, s, last) && Possible(t, s, last, run)
    ensures Inv(t, Play(t, s, last, run), Until(last, run))
    decreases |run|
  {
    if run != [] {
      ActKeeps(t, s, run[0], last);
      UntilRest(last, run);
      var rest := run[1..];
      PlayInv(t, Act(t, s, run[0]), run[0].now, rest);
      assert Play(t, s, last, run) == Play(t, Act(t, s, run[0]), run[0].now, rest);
    }
  }

  // ---------------------------------------------------------------------------
  // Writes are not starved
  // ---------------------------------------------------------------------------

  /** The longest a batch can get. */
  function BatchMax(t: Tunables): int {
    if t.fifoBatch < 1 then 1 else t.fifoBatch
  }

  /** How many reads may still come before a write does, while a write is queued. */
  ghost function Patience(t: Tunables, s: State): int {
    (t.Threshold() - s.starved) * BatchMax(t) +
    if s.read.next.Some? && s.batching < t.fifoBatch then t.fifoBatch - s.batching else 0
  }

  lemma PatienceBound(t: Tunables, s: State)
    requires Counters(t, s)
    ensures 0 <= Patience(t, s) <= (t.Threshold() + 1) * BatchMax(t) - 1
  {
    var a, b := t.Threshold() - s.starved, BatchMax(t);
    assert 0 <= a * b <= t.Threshold() * b;
    assert (t.Threshold() + 1) * b == t.Threshold() * b + b;
  }

  /** What a dispatch leaves of the counters. */
  lemma DispatchCounters(t: Tunables, s: State, now: int)
    requires Timed(s) && Choose(t, s, now).Choice?
    ensures Dispatch(t, s, now).starved == Choose(t, s, now).starved
    ensures Dispatch(t, s, now).batching == if Choose(t, s, now).starts then 1 else s.batching + 1
  {
  }

  lemma OneLess(a: int, b: int)
    ensures (a - 1) * b == a * b - b
  {
  }

  /** A read dispatched while a write is queued uses up patience. */
  lemma ReadUsesPatience(t: Tunables, s: State, now: int)
    requires Timed(s) && Counters(t, s) && s.write.fifo != []
    requires Choose(t, s, now).Choice? && !Choose(t, s, now).write
    ensures Patience(t, Dispatch(t, s, now)) < Patience(t, s)
  {
    var c, s1 := Choose(t, s, now), Dispatch(t, s, now);
    DispatchCounters(t, s, now);
    var more := if s1.read.next.Some? && s1.batching < t.fifoBatch then t.fifoBatch - s1.batching else 0;
    if c.starts {
      OneLess(t.Threshold() - s.starved, BatchMax(t));
      assert more < BatchMax(t);
      assert s1.starved == s.starved + 1;
    } else {
      assert more < t.fifoBatch - s.batching;
      assert s1.starved == s.starved;
    }
  }

  lemma MergeCounters(s: State, req: Rq, next: Rq)
    requires req in s.time && next in s.time && req in s.dir
    ensures var s1 := Merged(s, req, next);
            s1.starved == s.starved && s1.batching == s.batching && (s1.read.next.Some? ==> s.read.next.Some?)
  {
  }

  lemma CountersKept(t: Tunables, s: State, a: Action)
    requires SideFine(s, false) && SideFine(s, true) && Enabled(s, a) && !a.DoDispatch?
    ensures var s1 := Act(t, s, a);
            s1.starved == s.starved && s1.batching == s.batching && (s1.read.next.Some? ==> s.read.next.Some?)
  {
    if a.DoMerge? {
      MergeCounters(s, a.req, a.next);
    }
  }

  /** Nothing but a dispatch of a write restores it. */
  lemma PatienceKept(t: Tunables, s: State, s1: State)
    requires s1.starved == s.starved && s1.batching == s.batching && (s1.read.next.Some? ==> s.read.next.Some?)
    ensures Patience(t, s1) <= Patience(t, s)
  {
  }

  /** Throughout `run`, whenever something is dispatched a write is queued, and yet it is a read. */
  ghost predicate OnlyReads(t: Tunables, s: State, last: int, run: seq<Action>)
    requires Inv(t, s, last) && Possible(t, s, last, run)
    decreases |run|
  {
    run == [] ||
    (&& (run[0].DoDispatch? ==>
           s.write.fifo != [] && Choose(t, s, run[0].now).Choice? && !Choose(t, s, run[0].now).write)
     && (ActKeeps(t, s, run[0], last); OnlyReads(t, Act(t, s, run[0]), run[0].now, run[1..])))
  }

  ghost function Dispatches(run: seq<Action>): nat {
    if run == [] then 0 else (if run[0].DoDispatch? then 1 else 0) + Dispatches(run[1..])
  }

  lemma {:induction false} ReadsWithinPatience(t: Tunables, s: State, last: int, run: seq<Action>)
    requires Inv(t, s, last) && Possible(t, s, last, run) && OnlyReads(t, s, last, run)
    ensures Dispatches(run) <= Patience(t, s)
    decreases |run|
  {
    PatienceBound(t, s);
    if run != [] {
      ActKeeps(t, s, run[0], last);
      ReadsWithinPatience(t, Act(t, s, run[0]), run[0].now, run[1..]);
      if run[0].DoDispatch? {
        ReadUsesPatience(t, s, run[0].now);
      } else {
        CountersKept(t, s, run[0]);
        PatienceKept(t, s, Act(t, s, run[0]));
      }
    }
  }

  /**
   While a write stays queued, at most (writes_starved + 1) * max(1, fifo_batch) - 1 reads are
   dispatched in a row, whatever is added and merged in between.
   */
  lemma WritesNotStarved(t: Tunables, s: State, last: int, run: seq<Action>)
    requires Inv(t, s, last) && Possible(t, s, last, run) && OnlyReads(t, s, last, run)
    ensures Dispatches(run) <= (t.Threshold() + 1) * BatchMax(t) - 1
  {
    ReadsWithinPatience(t, s, last, run);
    PatienceBound(t, s);
  }
}
