/**
 The choice of the next request of a CFQ queue (cfq_choose_req and cfq_find_next_rq in
 block/cfq-iosched.c).

 The best request is the nearest to the head, seeks backwards counting more and only allowed over a
 short distance; the search looks at two neighbours only.
 */
module Cfq {
  import opened Options

  datatype Request = Request(id: nat, pos: nat, isSync: bool, prio: bool)

  /** cfq_back_max, in KiB, and cfq_back_penalty. */
  datatype Tunables = Tunables(backMax: nat, backPenalty: nat)

  // ---------------------------------------------------------------------------
  // The code
  // ---------------------------------------------------------------------------

  /** Behind the head by more than a short seek. */
  predicate Wraps(t: Tunables, r: Request, last: nat) {
    r.pos < last && r.pos + t.backMax * 2 < last
  }

  function Distance(t: Tunables, r: Request, last: nat): nat {
    if r.pos >= last then r.pos - last
    else if r.pos + t.backMax * 2 >= last then (last - r.pos) * t.backPenalty
    else 0
  }

  /** cfq_choose_req */
  function Choose(t: Tunables, rq1: Option<Request>, rq2: Option<Request>, last: nat): Option<Request> {
    if rq1.None? || rq1 == rq2 then rq2
    else if rq2.None? then rq1
    else
      var a, b := rq1.value, rq2.value;
      if a.isSync != b.isSync then (if a.isSync then rq1 else rq2)
      else if a.prio != b.prio then (if a.prio then rq1 else rq2)
      else
        var d1, d2 := Distance(t, a, last), Distance(t, b, last);
        match (Wraps(t, a, last), Wraps(t, b, last))
        case (false, false) =>
          if d1 < d2 then rq1
          else if d2 < d1 then rq2
          else if a.pos >= b.pos then rq1 else rq2
        case (false, true) => rq1
        case (true, false) => rq2
        case (true, true) => if a.pos <= b.pos then rq1 else rq2
  }

  /** cfq_find_next_rq for the request at `k` of the sorted tree. */
  function FindNext(t: Tunables, tree: seq<Request>, k: nat): Option<Request>
    requires k < |tree|
  {
    var prev := if k > 0 then Some(tree[k - 1]) else None;
    var next := if k + 1 < |tree| then Some(tree[k + 1])
                else if k != 0 then Some(tree[0])
                else None;
    Choose(t, next, prev, tree[k].pos)
  }

  // ---------------------------------------------------------------------------
  // The order behind it
  // ---------------------------------------------------------------------------

  /** A seek back over `gap` sectors is short enough to be allowed; a KiB is two sectors. */
  ghost predicate ShortBack(t: Tunables, gap: nat) {
    gap <= 2 * t.backMax
  }

  /** Going back over `back` sectors is allowed and costs less than going forward over `ahead`. */
  ghost predicate CheaperBack(t: Tunables, back: nat, ahead: nat) {
    ShortBack(t, back) && back * t.backPenalty < ahead
  }

  /**
   `a` is at least as good as `b` by place alone, with the head at `last`. Ahead of the head the lower one
   is better. Behind it the nearer one is, while it can be reached by a short seek back; when neither can,
   the head starts over at the lower one. A request behind beats one ahead when going back is cheaper.
   */
  ghost predicate Nearer(t: Tunables, a: Request, b: Request, last: nat) {
    if a.pos >= last then
      if b.pos >= last then a.pos <= b.pos else !CheaperBack(t, last - b.pos, a.pos - last)
    else if b.pos >= last then CheaperBack(t, last - a.pos, b.pos - last)
    else if ShortBack(t, last - a.pos) || ShortBack(t, last - b.pos) then a.pos >= b.pos
    else a.pos <= b.pos
  }

  /** `a` is at least as good as `b`: synchronous first, then priority, then by place. */
  ghost predicate AsGood(t: Tunables, a: Request, b: Request, last: nat) {
    if a.isSync != b.isSync then a.isSync
    else if a.prio != b.prio then a.prio
    else Nearer(t, a, b, last)
  }

  ghost predicate StrictlyBetter(t: Tunables, a: Request, b: Request, last: nat) {
    AsGood(t, a, b, last) && !AsGood(t, b, a, last)
  }

  lemma Scaled(a: nat, b: nat, k: nat)
    requires a <= b
    ensures a * k <= b * k
  {
  }

  /**
   The choice is by this order, which knows neither distances nor wrapping; only equals are decided by the
   order of the arguments.
   */
  lemma ChooseByOrder(t: Tunables, a: Request, b: Request, last: nat)
    ensures Choose(t, Some(a), Some(b), last) == Some(if AsGood(t, a, b, last) then a else b)
    ensures StrictlyBetter(t, a, b, last) <==>
            a != b && Choose(t, Some(a), Some(b), last) == Some(a) && Choose(t, Some(b), Some(a), last) == Some(a)
  {
    if a.pos < last && b.pos < last {
      if a.pos <= b.pos {
        Scaled(last - b.pos, last - a.pos, t.backPenalty);
      } else {
        Scaled(last - a.pos, last - b.pos, t.backPenalty);
      }
    }
  }

  predicate SameFlags(a: Request, b: Request) {
    a.isSync == b.isSync && a.prio == b.prio
  }

  /**
   What is picked of two requests with the same flags, in either order of the arguments, by positions and
   tunables alone: of two ahead of the head the lower, of two behind it the nearer if that is within reach
   and the lower if not, and of one on either side the one behind exactly when it is within reach and its
   penalised distance is the smaller one.
   */
  lemma ChooseByPlace(t: Tunables, a: Request, b: Request, last: nat)
    requires SameFlags(a, b) && a.pos > b.pos
    ensures Choose(t, Some(a), Some(b), last) == Choose(t, Some(b), Some(a), last)
    ensures b.pos >= last ==> Choose(t, Some(a), Some(b), last) == Some(b)
    ensures a.pos < last && last - a.pos <= 2 * t.backMax ==> Choose(t, Some(a), Some(b), last) == Some(a)
    ensures a.pos < last && last - a.pos > 2 * t.backMax ==> Choose(t, Some(a), Some(b), last) == Some(b)
    ensures b.pos < last <= a.pos ==>
            (Choose(t, Some(a), Some(b), last) == Some(b) <==>
             last - b.pos <= 2 * t.backMax && (last - b.pos) * t.backPenalty < a.pos - last)
  {
    ChooseByOrder(t, a, b, last);
    ChooseByOrder(t, b, a, last);
  }

  /** The order is total and transitive: a choice among many does not depend on how they are paired. */
  lemma OrderTotal(t: Tunables, a: Request, b: Request, c: Request, last: nat)
    ensures AsGood(t, a, b, last) || AsGood(t, b, a, last)
    ensures AsGood(t, a, b, last) && AsGood(t, b, c, last) ==> AsGood(t, a, c, last)
  {
  }

  // ---------------------------------------------------------------------------
  // Two neighbours are enough
  // ---------------------------------------------------------------------------

  ghost predicate Sorted(tree: seq<Request>) {
    forall i, j :: 0 <= i < j < |tree| ==> tree[i].pos <= tree[j].pos && tree[i].id != tree[j].id
  }

  /** The flags of `a` are better: synchronous first, then priority. */
  predicate BetterFlags(a: Request, b: Request) {
    if a.isSync != b.isSync then a.isSync else a.prio && !b.prio
  }

  /** The request the search looks at ahead of the head; at the end of the tree it starts over. */
  function Ahead(tree: seq<Request>, k: nat): Request
    requires k < |tree| && |tree| > 1
  {
    if k + 1 < |tree| then tree[k + 1] else tree[0]
  }

  /** The requests the search looks at have the same flags; at the start of the tree it looks at one only. */
  ghost predicate LikeNeighbours(tree: seq<Request>, k: nat)
    requires k < |tree| && |tree| > 1
  {
    k > 0 ==> SameFlags(Ahead(tree, k), tree[k - 1])
  }

  /** No queued request has better flags than those the search looks at. */
  ghost predicate BestFlags(tree: seq<Request>, k: nat)
    requires k < |tree| && |tree| > 1
  {
    forall i :: 0 <= i < |tree| && i != k ==> !BetterFlags(tree[i], Ahead(tree, k))
  }

  ghost predicate FlagsFit(tree: seq<Request>, k: nat)
    requires k < |tree| && |tree| > 1
  {
    LikeNeighbours(tree, k) && BestFlags(tree, k)
  }

  /** Of two requests behind the head, the nearer is at least as good unless both wrap. */
  lemma NearerBehind(t: Tunables, a: Request, b: Request, last: nat)
    requires b.pos <= a.pos <= last && !Wraps(t, a, last)
    ensures Nearer(t, a, b, last)
  {
    if !Wraps(t, b, last) && b.pos < last {
      if a.pos < last {
        Scaled(last - a.pos, last - b.pos, t.backPenalty);
      }
    }
  }

  /** The neighbour of the head on either side is at least as good as what lies beyond it. */
  lemma NeighbourWins(t: Tunables, tree: seq<Request>, k: nat, i: nat)
    requires Sorted(tree) && k < |tree| && i < |tree| && i != k
    ensures i > k ==> Nearer(t, tree[k + 1], tree[i], tree[k].pos)
    ensures i < k && !Wraps(t, tree[k - 1], tree[k].pos) ==> Nearer(t, tree[k - 1], tree[i], tree[k].pos)
    ensures i < k && Wraps(t, tree[k - 1], tree[k].pos) ==>
            Wraps(t, tree[i], tree[k].pos) && Nearer(t, tree[0], tree[i], tree[k].pos)
  {
    if i < k {
      assert tree[i].pos <= tree[k - 1].pos || i == k - 1;
      assert tree[0].pos <= tree[i].pos || i == 0;
      if !Wraps(t, tree[k - 1], tree[k].pos) {
        NearerBehind(t, tree[k - 1], tree[i], tree[k].pos);
      }
    } else {
      assert tree[k + 1].pos <= tree[i].pos || i == k + 1;
    }
  }

  /** By place, the better of the two neighbours is at least as good as any other request. */
  lemma FindNextNearest(t: Tunables, tree: seq<Request>, k: nat, i: nat)
    requires Sorted(tree) && 0 < k < |tree| && i < |tree| && i != k
    ensures var next, prev, last := Ahead(tree, k), tree[k - 1], tree[k].pos;
            Nearer(t, next, tree[i], last) || Nearer(t, prev, tree[i], last)
  {
    NeighbourWins(t, tree, k, i);
    NeighbourWins(t, tree, k, 0);
  }

  lemma NearerTotal(t: Tunables, a: Request, b: Request, c: Request, last: nat)
    ensures Nearer(t, a, b, last) || Nearer(t, b, a, last)
    ensures Nearer(t, a, b, last) && Nearer(t, b, c, last) ==> Nearer(t, a, c, last)
  {
  }

  /** Where the flags do not decide, nothing queued is strictly better than the pick of the search. */
  lemma FindNextBest(t: Tunables, tree: seq<Request>, k: nat, i: nat)
    requires Sorted(tree) && k < |tree| && i < |tree| && i != k && FlagsFit(tree, k)
    ensures FindNext(t, tree, k).Some? && FindNext(t, tree, k).value in tree && FindNext(t, tree, k).value != tree[k]
    ensures AsGood(t, FindNext(t, tree, k).value, tree[i], tree[k].pos)
  {
    var next, last := Ahead(tree, k), tree[k].pos;
    if k == 0 {
      NeighbourWins(t, tree, k, i);
    } else {
      var prev := tree[k - 1];
      FindNextNearest(t, tree, k, i);
      ChooseByOrder(t, next, prev, last);
      NearerTotal(t, next, prev, tree[i], last);
      NearerTotal(t, prev, next, tree[i], last);
    }
  }

  lemma FindNextNone(t: Tunables, tree: seq<Request>, k: nat)
    requires k < |tree|
    ensures FindNext(t, tree, k).None? <==> |tree| == 1
  {
  }

  /** The pick has the flags of the requests looked at. */
  lemma PickFlags(t: Tunables, tree: seq<Request>, k: nat)
    requires k < |tree| && |tree| > 1 && LikeNeighbours(tree, k)
    ensures FindNext(t, tree, k).Some? && SameFlags(FindNext(t, tree, k).value, Ahead(tree, k))
  {
  }

  /**
   Where the requests looked at have the same flags, no queued request is strictly better than the
   pick exactly when none has better flags.
   */
  lemma FindNextBestIff(t: Tunables, tree: seq<Request>, k: nat)
    requires Sorted(tree) && k < |tree| && |tree| > 1 && LikeNeighbours(tree, k)
    ensures FindNext(t, tree, k).Some?
    ensures (forall i :: 0 <= i < |tree| && i != k ==>
               !StrictlyBetter(t, tree[i], FindNext(t, tree, k).value, tree[k].pos)) <==> BestFlags(tree, k)
  {
    PickFlags(t, tree, k);
    var pick, last := FindNext(t, tree, k).value, tree[k].pos;
    if BestFlags(tree, k) {
      forall i | 0 <= i < |tree| && i != k ensures !StrictlyBetter(t, tree[i], pick, last) {
        FindNextBest(t, tree, k, i);
      }
    } else {
      var i :| 0 <= i < |tree| && i != k && BetterFlags(tree[i], Ahead(tree, k));
      assert StrictlyBetter(t, tree[i], pick, last);
    }
  }

  /** A request with better flags two places away is passed over. */
  lemma MixedFlags(t: Tunables)
    ensures var tree := [Request(0, 0, false, false), Request(1, 8, false, false), Request(2, 16, false, true)];
            Sorted(tree) && FindNext(t, tree, 0) == Some(tree[1]) && StrictlyBetter(t, tree[2], tree[1], tree[0].pos)
  {
  }

  /** When the neighbours have different flags, a request with the better ones may be nearer than the one picked. */
  lemma MixedNeighbours()
    ensures var t := Tunables(16384, 2);
            var tree := [Request(0, 98, true, true), Request(1, 99, true, false),
                         Request(2, 100, true, true), Request(3, 1000, true, true)];
            && Sorted(tree) && FindNext(t, tree, 2) == Some(tree[3])
            && StrictlyBetter(t, tree[0], tree[3], tree[2].pos) && BestFlags(tree, 2)
  {
  }
}
