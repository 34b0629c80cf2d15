/** The tag map as the source keeps it: arrays written in place, and a busy list with the newest request first. */
module TagQueue {
  import opened Options
  import opened Lists
  import opened Tags

  function Rev(l: seq<Rq>): (r: seq<Rq>)
    ensures |r| == |l| && forall i :: 0 <= i < |r| ==> r[i] == l[|l| - 1 - i]
  {
    seq(|l|, i requires 0 <= i < |l| => l[|l| - 1 - i])
  }

  lemma RevCons(x: Rq, l: seq<Rq>)
    ensures Rev([x] + l) == Rev(l) + [x]
  {
  }

  lemma RevWithout(l: seq<Rq>, k: nat)
    requires k < |l|
    ensures Rev(Without(l, k)) == Without(Rev(l), |l| - 1 - k)
  {
  }

  lemma RevIndex(l: seq<Rq>, x: Rq)
    requires NoDup(l) && x in l
    ensures x in Rev(l) && IndexOf(Rev(l), x) == |l| - 1 - IndexOf(l, x)
  {
    var k := |l| - 1 - IndexOf(l, x);
    assert Rev(l)[k] == x;
    IndexUnique(Rev(l), x, k);
  }

  lemma RevRemove(l: seq<Rq>, x: Rq)
    requires NoDup(l)
    ensures Rev(Remove(l, x)) == Remove(Rev(l), x)
  {
    if x in l {
      RevIndex(l, x);
      RevWithout(l, IndexOf(l, x));
    } else {
      assert x !in Rev(l);
    }
  }

  /** A new array with the entries of another, as far as they fit. */
  method Copied<T(0)>(from: array<T>, n: nat, free: T) returns (to: array<T>)
    ensures fresh(to) && to[..] == Fitted(from[..], n, free)
  {
    to := new T[n](_ => free);
    var i := 0;
    while i < n && i < from.Length
      invariant 0 <= i <= n && i <= from.Length
      invariant forall j :: 0 <= j < n ==> to[j] == if j < i then from[j] else free
    {
      to[i] := from[i];
      i := i + 1;
    }
  }

  class BlockQueueTag {
    var maxDepth: nat
    var tagMap: array<bool>
    var tagIndex: array<Option<Rq>>
    var refcnt: nat
    var tags: map<Rq, nat>            // rq->tag of the requests that have one
    var busy: seq<Rq>                 // tag_busy_list
    var queueHead: seq<Rq>
    ghost var stamp: map<Rq, int>
    ghost var clock: int

    ghost function Model(): State
      reads this, tagMap, tagIndex
    {
      State(maxDepth, tagMap[..], tagIndex[..], tags, Rev(busy), stamp, clock, queueHead)
    }

    ghost predicate Valid()
      reads this, tagMap, tagIndex
    {
      Inv(Model())
    }

    constructor (depth: nat)
      ensures Valid() && Model() == Initial(depth) && refcnt == 1 && fresh(tagMap) && fresh(tagIndex)
    {
      maxDepth, refcnt, tags, busy, queueHead, stamp, clock := depth, 1, map[], [], [], map[], 0;
      tagMap := new bool[depth](_ => false);
      tagIndex := new Option<Rq>[depth](_ => None);
      new;
      InitialInv(depth);
      assert Model() == Initial(depth);
    }

    /** find_first_zero_bit */
    method FindFirstZero(max: nat) returns (t: nat)
      requires max <= tagMap.Length
      ensures t == FirstZero(tagMap[..], max)
    {
      t := 0;
      while t < max && tagMap[t]
        invariant t <= max && forall i :: 0 <= i < t ==> tagMap[i]
      {
        t := t + 1;
      }
      assert t < max ==> !tagMap[..][t];
      assert forall i :: 0 <= i < t ==> tagMap[..][i];
    }

    /** The end of blk_queue_start_tag, once it has found a free tag. */
    method TakeTag(rq: Rq, t: nat)
      requires t < tagMap.Length == tagIndex.Length
      modifies this, tagMap, tagIndex
      ensures tagMap == old(tagMap) && tagIndex == old(tagIndex)
      ensures Model() == Take(old(Model()), rq, t)
    {
      tagMap[t] := true;
      tags := tags[rq := t];
      tagIndex[t] := Some(rq);
      queueHead := Remove(queueHead, rq);
      busy := [rq] + busy;
      stamp, clock := stamp[rq := clock], clock + 1;
      RevCons(rq, old(busy));
    }

    /** blk_queue_start_tag */
    method Start(rq: Rq, isSync: bool, asyncInFlight: nat) returns (refused: bool)
      requires Valid() && rq in queueHead
      modifies this, tagMap, tagIndex
      ensures Valid() && tagMap == old(tagMap) && tagIndex == old(tagIndex)
      ensures refused == Refuses(old(Model()), isSync, asyncInFlight)
      ensures Model() == StartTag(old(Model()), rq, isSync, asyncInFlight)
    {
      StartKeeps(Model(), rq, isSync, asyncInFlight);
      var max := maxDepth;
      if !isSync && max > 1 {
        max := max - 2;
        if max == 0 {
          max := 1;
        }
        if asyncInFlight > max {
          return true;
        }
      }
      var t := FindFirstZero(max);
      if t >= max {
        return true;
      }
      TakeTag(rq, t);
      return false;
    }

    /** blk_queue_end_tag, whatever the state of the rest of the map. */
    method ClearTag(rq: Rq)
      requires rq in tags && tagMap.Length == tagIndex.Length && NoDup(busy)
      modifies this, tagMap, tagIndex
      ensures tagMap == old(tagMap) && tagIndex == old(tagIndex)
      ensures Model() == EndTag(old(Model()), rq)
      ensures busy == if old(tags)[rq] < tagMap.Length then Remove(old(busy), rq) else old(busy)
    {
      var t := tags[rq];
      if t >= tagMap.Length {
        return;
      }
      RevRemove(busy, rq);
      busy := Remove(busy, rq);
      tags := tags - {rq};
      tagIndex[t] := None;
      tagMap[t] := false;
    }

    /** blk_queue_end_tag */
    method End(rq: Rq)
      requires Valid() && rq in busy
      modifies this, tagMap, tagIndex
      ensures Valid() && tagMap == old(tagMap) && tagIndex == old(tagIndex)
      ensures old(Inv(Model()) && rq in Model().tag && Tags.Holds(Model(), rq))
      ensures Model() == EndTag(old(Model()), rq) && busy == Remove(old(busy), rq)
    {
      BusyFlies(rq);
      EndKeeps(Model(), rq);
      ClearTag(rq);
    }

    /** What is on the busy list is in flight. */
    lemma BusyFlies(rq: Rq)
      requires Valid()
      ensures NoDup(busy) && (rq in busy <==> rq in Model().flight)
    {
      var f := Rev(busy);
      forall i, j | 0 <= i < j < |busy| ensures busy[i] != busy[j] {
        assert f[|busy| - 1 - i] == busy[i] && f[|busy| - 1 - j] == busy[j];
      }
      if rq in busy {
        var i :| 0 <= i < |busy| && busy[i] == rq;
        assert f[|busy| - 1 - i] == rq;
      }
    }

    /** blk_requeue_request */
    method RequeueRequest(rq: Rq)
      requires Valid() && rq in busy
      modifies this, tagMap, tagIndex
      ensures Valid() && tagMap == old(tagMap) && tagIndex == old(tagIndex)
      ensures old(Inv(Model()) && rq in Model().tag && Tags.Holds(Model(), rq))
      ensures Model() == Requeue(old(Model()), rq) && busy == Remove(old(busy), rq)
    {
      BusyFlies(rq);
      RequeueKeeps(Model(), rq);
      ClearTag(rq);
      queueHead := [rq] + queueHead;
    }

    /** blk_queue_invalidate_tags */
    method Invalidate()
      requires Valid()
      modifies this, tagMap, tagIndex
      ensures Valid() && tagMap == old(tagMap) && tagIndex == old(tagIndex)
      ensures Model() == Invalidated(old(Model()))
      ensures busy == [] && queueHead == old(Model().flight + queueHead)
    {
      InvalidatedOrder(Model());
      while busy != []
        invariant Valid() && tagMap == old(tagMap) && tagIndex == old(tagIndex)
        invariant Invalidated(Model()) == Invalidated(old(Model()))
        decreases |busy|
      {
        assert Model().flight[|busy| - 1] == busy[0];
        RequeueRequest(busy[0]);
      }
    }

    /** The new map of blk_queue_resize_tags, which starts as a copy of the old one, as far as that fits. */
    method Replaced(depth: nat)
      requires tagMap.Length == tagIndex.Length
      modifies `maxDepth, `tagMap, `tagIndex
      ensures fresh(tagMap) && fresh(tagIndex) && maxDepth == depth
      ensures tagMap[..] == Fitted(old(tagMap[..]), depth, false)
      ensures tagIndex[..] == Fitted(old(tagIndex[..]), depth, None)
    {
      var newIndex := Copied(tagIndex, depth, None);
      var newMap := Copied(tagMap, depth, false);
      maxDepth, tagIndex, tagMap := depth, newIndex, newMap;
    }

    /** blk_queue_resize_tags; `memory` says whether the new map can be allocated. */
    method Resize(newDepth: nat, nrRequests: nat, memory: bool) returns (code: Code)
      requires Valid()
      modifies `maxDepth, `tagMap, `tagIndex
      ensures (tagMap == old(tagMap) || fresh(tagMap)) && (tagIndex == old(tagIndex) || fresh(tagIndex))
      ensures code == if newDepth <= old(tagMap.Length) then Done
                      else if refcnt != 1 then Busy else if !memory then NoMemory else Done
      ensures Model() == if code == Done then Resized(old(Model()), newDepth, nrRequests) else old(Model())
      ensures Valid() <==> code != Done || old(Room(Model(), newDepth, nrRequests))
    {
      ResizedKeeps(Model(), newDepth, nrRequests);
      if newDepth <= tagMap.Length {
        maxDepth := newDepth;
        return Done;
      }
      if refcnt != 1 {
        return Busy;
      }
      if !memory {
        return NoMemory;
      }
      Replaced(Adjusted(newDepth, nrRequests));
      return Done;
    }
  }
}
