/** Every operation of the deadline scheduler keeps its structure. */
module DeadlineProofs {
  import opened Options
  import opened Lists
  import opened Deadline

  lemma LatterIn(sorted: seq<Rq>, rq: Rq)
    requires NoDup(sorted)
    ensures Latter(sorted, rq).Some? ==> Latter(sorted, rq).value in sorted && Latter(sorted, rq).value != rq
  {
  }

  /** Taking a request off both lists of its direction. */
  lemma RemovedOk(dir: map<Rq, bool>, pos: map<Rq, int>, time: map<Rq, int>, side: Side, w: bool, rq: Rq)
    requires SideOk(dir, pos, time, side, w)
    ensures SideOk(dir, pos, time, Removed(side, rq), w)
  {
    RemoveMembers(side.sorted, rq);
    RemoveMembers(side.fifo, rq);
    RemoveOrdered(pos, side.sorted, rq);
    RemoveOrdered(time, side.fifo, rq);
    LatterIn(side.sorted, rq);
  }

  /** Fields of requests that are not on the lists of a direction do not matter to it. */
  lemma OthersOk(dir: map<Rq, bool>, pos: map<Rq, int>, time: map<Rq, int>, side: Side, w: bool,
                 dir': map<Rq, bool>, pos': map<Rq, int>, time': map<Rq, int>)
    requires SideOk(dir, pos, time, side, w)
    requires forall x :: x in side.fifo ==> x in dir' && dir'[x] == dir[x]
    requires forall x :: x in side.fifo ==> x in pos' && pos'[x] == pos[x]
    requires forall x :: x in side.fifo ==> x in time' && time'[x] == time[x]
    ensures SideOk(dir', pos', time', side, w)
  {
    assert forall i :: 0 <= i < |side.sorted| ==> side.sorted[i] in side.fifo;
    assert forall i :: 0 <= i < |side.fifo| ==> side.fifo[i] in side.fifo;
  }

  /** A new request goes to its place in the sorted list and to the end of the fifo. */
  lemma AddedOk(dir: map<Rq, bool>, pos: map<Rq, int>, time: map<Rq, int>, side: Side, w: bool, rq: Rq)
    requires SideOk(dir, pos, time, side, w) && rq !in side.fifo
    requires rq in dir && dir[rq] == w && rq in pos && rq in time
    requires forall x :: x in side.fifo ==> time[x] <= time[rq]
    ensures SideOk(dir, pos, time, side.(sorted := SortIn(pos, side.sorted, rq), fifo := side.fifo + [rq]), w)
  {
    InsertMembers(side.sorted, Slot(pos, side.sorted, pos[rq]), rq);
    SortInOrdered(pos, side.sorted, rq);
    AppendMembers(side.fifo, rq);
    var fifo := side.fifo + [rq];
    forall i, j | 0 <= i < j < |fifo| ensures time[fifo[i]] <= time[fifo[j]] {
      assert fifo[i] in side.fifo;
    }
  }

  /** What an operation must keep for one direction. */
  ghost predicate SideInv(t: Tunables, s: State, w: bool, now: int) {
    SideFine(s, w) && NotLate(t, s, w, now)
  }

  lemma AddSameFine(t: Tunables, s: State, rq: Rq, w: bool, pos: int, now: int, last: int)
    requires SideInv(t, s, w, last) && last <= now && rq !in s.dir
    ensures SideFine(Add(t, s, rq, w, pos, now), w)
  {
    var s1 := s.(dir := s.dir[rq := w], pos := s.pos[rq := pos], time := s.time[rq := now + t.Expire(w)]);
    OthersOk(s.dir, s.pos, s.time, s.Of(w), w, s1.dir, s1.pos, s1.time);
    AddedOk(s1.dir, s1.pos, s1.time, s1.Of(w), w, rq);
  }

  lemma AddSame(t: Tunables, s: State, rq: Rq, w: bool, pos: int, now: int, last: int)
    requires SideInv(t, s, w, last) && last <= now && rq !in s.dir
    ensures SideInv(t, Add(t, s, rq, w, pos, now), w, now)
  {
    AddSameFine(t, s, rq, w, pos, now, last);
  }

  lemma AddOther(t: Tunables, s: State, rq: Rq, w: bool, pos: int, now: int, last: int)
    requires SideFine(s, w) && SideInv(t, s, !w, last) && last <= now && rq !in s.dir
    ensures SideInv(t, Add(t, s, rq, w, pos, now), !w, now)
  {
    OthersOk(s.dir, s.pos, s.time, s.Of(!w), !w, s.dir[rq := w], s.pos[rq := pos], s.time[rq := now + t.Expire(w)]);
  }

  lemma AddKeeps(t: Tunables, s: State, rq: Rq, w: bool, pos: int, now: int, last: int)
    requires Inv(t, s, last) && last <= now && rq !in s.dir
    ensures Inv(t, Add(t, s, rq, w, pos, now), now)
  {
    AddSame(t, s, rq, w, pos, now, last);
    AddOther(t, s, rq, w, pos, now, last);
  }

  /** A request that has moved is sorted in again. */
  lemma ResortedOk(dir: map<Rq, bool>, pos: map<Rq, int>, time: map<Rq, int>, side: Side, w: bool, rq: Rq, at: int)
    requires SideOk(dir, pos, time, side, w) && rq in side.sorted
    ensures forall x :: x in Remove(side.sorted, rq) ==> x in pos
    ensures SideOk(dir, pos[rq := at], time, side.(sorted := SortIn(pos[rq := at], Remove(side.sorted, rq), rq)), w)
  {
    var rest, pos' := Remove(side.sorted, rq), pos[rq := at];
    RemoveMembers(side.sorted, rq);
    RemoveOrdered(pos, side.sorted, rq);
    assert Ordered(pos', rest) by {
      assert forall i :: 0 <= i < |rest| ==> rest[i] in rest;
    }
    InsertMembers(rest, Slot(pos', rest, at), rq);
    SortInOrdered(pos', rest, rq);
  }

  lemma FrontMergedSide(t: Tunables, s: State, rq: Rq, pos: int, now: int, v: bool)
    requires SideInv(t, s, false, now) && SideInv(t, s, true, now) && rq in s.dir && rq in s.Of(s.dir[rq]).fifo
    ensures SideInv(t, FrontMerged(s, rq, pos), v, now)
  {
    if v == s.dir[rq] {
      ResortedOk(s.dir, s.pos, s.time, s.Of(v), v, rq, pos);
    } else {
      OthersOk(s.dir, s.pos, s.time, s.Of(v), v, s.dir, s.pos[rq := pos], s.time);
    }
  }

  lemma FrontMergedKeeps(t: Tunables, s: State, rq: Rq, pos: int, now: int)
    requires Inv(t, s, now) && rq in s.dir && rq in s.Of(s.dir[rq]).fifo
    ensures Inv(t, FrontMerged(s, rq, pos), now)
  {
    FrontMergedSide(t, s, rq, pos, now, false);
    FrontMergedSide(t, s, rq, pos, now, true);
  }

  /** An element put in the place of another with that one's key keeps the list in order. */
  lemma ReplaceOrdered(time: map<Rq, int>, l: seq<Rq>, x: Rq, y: Rq)
    requires NoDup(l) && Ordered(time, l) && x in l && y !in l
    ensures Ordered(time[y := time[x]], Replace(l, x, y))
  {
    var r := Replace(l, x, y);
    var k := IndexOf(l, x);
    forall i | 0 <= i < |r| ensures r[i] in time[y := time[x]] && time[y := time[x]][r[i]] == time[l[i]] {
      assert l[i] in l;
    }
  }

  lemma FifoMergedLate(time: map<Rq, int>, fifo: seq<Rq>, req: Rq, next: Rq)
    requires NoDup(fifo) && Ordered(time, fifo) && req in fifo && next in fifo && req != next && time[next] < time[req]
    ensures next in Remove(fifo, req)
    ensures var fifo' := Replace(Remove(fifo, req), next, req);
            && NoDup(fifo') && Ordered(time[req := time[next]], fifo') && |fifo'| == |fifo| - 1
            && forall x :: x in fifo' <==> x in fifo && x != next
  {
    RemoveMembers(fifo, req);
    RemoveOrdered(time, fifo, req);
    ReplaceMembers(Remove(fifo, req), next, req);
    ReplaceOrdered(time, Remove(fifo, req), next, req);
  }

  /** Merging keeps the fifo in order of expiry. */
  lemma FifoMergedOk(time: map<Rq, int>, fifo: seq<Rq>, req: Rq, next: Rq)
    requires NoDup(fifo) && Ordered(time, fifo) && req in fifo && next in fifo && req != next
    ensures var time' := if time[next] < time[req] then time[req := time[next]] else time;
            var fifo' := FifoMerged(time, fifo, req, next);
            && NoDup(fifo') && Ordered(time', fifo') && |fifo'| == |fifo| - 1
            && forall x :: x in fifo' <==> x in fifo && x != next
  {
    if time[next] < time[req] {
      FifoMergedLate(time, fifo, req, next);
    } else {
      RemoveMembers(fifo, next);
      RemoveOrdered(time, fifo, next);
    }
  }

  lemma MergedOk(dir: map<Rq, bool>, pos: map<Rq, int>, time: map<Rq, int>, side: Side, w: bool, req: Rq, next: Rq)
    requires SideOk(dir, pos, time, side, w) && req in side.fifo && next in side.fifo && req != next
    ensures var time' := if time[next] < time[req] then time[req := time[next]] else time;
            SideOk(dir, pos, time', Removed(side, next).(fifo := FifoMerged(time, side.fifo, req, next)), w)
  {
    FifoMergedOk(time, side.fifo, req, next);
    RemovedOk(dir, pos, time, side, w, next);
    RemoveMembers(side.sorted, next);
  }

  lemma MergedSameFine(s: State, req: Rq, next: Rq)
    requires req in s.dir && SideFine(s, s.dir[req]) && req != next
    requires req in s.Of(s.dir[req]).fifo && next in s.Of(s.dir[req]).fifo
    ensures SideFine(Merged(s, req, next), s.dir[req])
  {
    MergedOk(s.dir, s.pos, s.time, s.Of(s.dir[req]), s.dir[req], req, next);
  }

  lemma MergedSameNotLate(t: Tunables, s: State, req: Rq, next: Rq, now: int)
    requires req in s.dir && SideInv(t, s, s.dir[req], now) && req != next
    requires req in s.Of(s.dir[req]).fifo && next in s.Of(s.dir[req]).fifo && SideFine(Merged(s, req, next), s.dir[req])
    ensures NotLate(t, Merged(s, req, next), s.dir[req], now)
  {
    FifoMergedOk(s.time, s.Of(s.dir[req]).fifo, req, next);
  }

  lemma MergedSame(t: Tunables, s: State, req: Rq, next: Rq, now: int)
    requires req in s.dir && SideInv(t, s, s.dir[req], now) && req != next
    requires req in s.Of(s.dir[req]).fifo && next in s.Of(s.dir[req]).fifo
    ensures SideInv(t, Merged(s, req, next), s.dir[req], now)
  {
    MergedSameFine(s, req, next);
    MergedSameNotLate(t, s, req, next, now);
  }

  lemma MergedOther(t: Tunables, s: State, req: Rq, next: Rq, now: int)
    requires req in s.dir && req in s.time && next in s.time && SideInv(t, s, !s.dir[req], now)
    ensures SideInv(t, Merged(s, req, next), !s.dir[req], now)
  {
    OthersOk(s.dir, s.pos, s.time, s.Of(!s.dir[req]), !s.dir[req], s.dir, s.pos, Merged(s, req, next).time);
  }

  lemma MergedKeeps(t: Tunables, s: State, req: Rq, next: Rq, now: int)
    requires Inv(t, s, now) && req != next && req in s.dir
    requires req in s.Of(s.dir[req]).fifo && next in s.Of(s.dir[req]).fifo
    ensures Inv(t, Merged(s, req, next), now)
  {
    MergedSame(t, s, req, next, now);
    MergedOther(t, s, req, next, now);
    FifoMergedOk(s.time, s.Of(s.dir[req]).fifo, req, next);
  }

  lemma MoveSame(s: State, w: bool, rq: Rq)
    requires SideFine(s, w)
    ensures SideFine(MoveRequest(s, w, rq), w)
  {
    var side := s.Of(w).(next := Latter(s.Of(w).sorted, rq));
    LatterIn(s.Of(w).sorted, rq);
    RemovedOk(s.dir, s.pos, s.time, side, w, rq);
  }

  lemma MoveOther(s: State, w: bool, rq: Rq)
    requires SideFine(s, !w)
    ensures SideFine(MoveRequest(s, w, rq), !w)
  {
  }

  lemma MoveSide(t: Tunables, s: State, w: bool, rq: Rq, now: int, v: bool)
    requires SideInv(t, s, v, now)
    ensures SideInv(t, MoveRequest(s, w, rq), v, now)
  {
    if v == w {
      MoveSame(s, w, rq);
      RemoveMembers(s.Of(w).fifo, rq);
    } else {
      MoveOther(s, w, rq);
    }
  }

  lemma SortedMeansQueued(s: State, w: bool)
    requires SideFine(s, w)
    ensures s.Of(w).sorted != [] ==> s.Of(w).fifo != []
  {
    if s.Of(w).sorted != [] {
      assert s.Of(w).sorted[0] in s.Of(w).fifo;
    }
  }

  /** The chosen request is queued in the chosen direction; nothing is chosen only when nothing is queued. */
  lemma ChosenQueued(t: Tunables, s: State, now: int)
    requires SideFine(s, false) && SideFine(s, true)
    ensures match Choose(t, s, now)
            case Nothing => s.read.fifo == [] && s.write.fifo == [] && s.read.sorted == [] && s.write.sorted == []
            case Choice(rq, w, _, _) => rq in s.Of(w).fifo && rq in s.Of(w).sorted
  {
    SortedMeansQueued(s, false);
    SortedMeansQueued(s, true);
  }

  lemma MoveKeeps(t: Tunables, s: State, w: bool, rq: Rq, now: int)
    requires SideInv(t, s, false, now) && SideInv(t, s, true, now)
    ensures SideInv(t, MoveRequest(s, w, rq), false, now) && SideInv(t, MoveRequest(s, w, rq), true, now)
  {
    MoveSide(t, s, w, rq, now, false);
    MoveSide(t, s, w, rq, now, true);
  }

  lemma MoveCounters(t: Tunables, s: State, w: bool, rq: Rq)
    requires rq in s.Of(w).fifo && s.nrSorted == |s.read.fifo| + |s.write.fifo|
    requires s.batching >= 1 && 0 <= s.starved <= t.Threshold()
    ensures Counters(t, MoveRequest(s, w, rq))
  {
  }

  lemma DispatchKeeps(t: Tunables, s: State, now: int)
    requires Inv(t, s, now)
    ensures Inv(t, Dispatch(t, s, now), now)
  {
    ChosenQueued(t, s, now);
    match Choose(t, s, now)
    case Nothing =>
    case Choice(rq, w, starts, starved) =>
      var s1 := s.(batching := if starts then 1 else s.batching + 1, starved := starved);
      MoveKeeps(t, s1, w, rq, now);
      MoveCounters(t, s1, w, rq);
  }

  /** What comes next in a sorted list: nothing lies between. */
  lemma LatterIsNext(pos: map<Rq, int>, sorted: seq<Rq>, rq: Rq, x: Rq)
    requires Ordered(pos, sorted) && NoDup(sorted) && rq in sorted && x in sorted
    ensures match Latter(sorted, rq)
            case None => pos[x] <= pos[rq]
            case Some(y) => pos[rq] <= pos[y] && (pos[x] <= pos[rq] || pos[y] <= pos[x])
  {
    var k, i := IndexOf(sorted, rq), IndexOf(sorted, x);
    if i < k {
      assert pos[sorted[i]] <= pos[sorted[k]];
    } else if i > k {
      assert pos[sorted[k]] <= pos[sorted[k + 1]];
      if i > k + 1 {
        assert pos[sorted[k + 1]] <= pos[sorted[i]];
      }
    }
  }

  /** A batch goes up the disk: it will go on with the nearest request above the one dispatched, if there is one. */
  lemma BatchAscends(s: State, w: bool, rq: Rq, x: Rq)
    requires SideFine(s, w) && rq in s.Of(w).sorted && x in s.Of(w).sorted
    ensures var next := MoveRequest(s, w, rq).Of(w).next;
            && (next.None? ==> s.pos[x] <= s.pos[rq])
            && (next.Some? ==> next.value in s.Of(w).sorted && next.value != rq && s.pos[rq] <= s.pos[next.value] &&
                               (s.pos[x] <= s.pos[rq] || s.pos[next.value] <= s.pos[x]))
    ensures MoveRequest(s, w, rq).Of(!w).next.None?
  {
    LatterIsNext(s.pos, s.Of(w).sorted, rq, x);
    LatterIn(s.Of(w).sorted, rq);
  }
}
