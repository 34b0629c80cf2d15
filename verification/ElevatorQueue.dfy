/** The merge hash as the source keeps it: chains changed in place. */
module ElevatorQueue {
  import opened Options
  import opened Lists
  import opened ElevatorHash

  class Elevator {
    const hashFn: HashFn
    var hash: seq<seq<Rq>>
    var pos: map<Rq, int>
    var sectors: map<Rq, int>
    var mergeable: map<Rq, bool>
    var sorted: set<Rq>
    var nrSorted: int
    var lastMerge: Option<Rq>

    ghost function Model(): State
      reads this
    {
      State(hash, pos, sectors, mergeable, sorted, nrSorted, lastMerge)
    }

    ghost predicate Valid()
      reads this
    {
      Inv(hashFn, Model())
    }

    constructor (h: HashFn)
      ensures Valid() && hashFn == h && Model() == INITIAL
    {
      hashFn := h;
      hash := seq(ENTRIES, _ => []);
      pos, sectors, mergeable, sorted, nrSorted, lastMerge := map[], map[], map[], {}, 0, None;
      new;
      InitialInv(h);
      assert hash == INITIAL.buckets;
    }

    /** __elv_rqhash_del: unlinks the request from the chain it is on. */
    method RqHashDel(rq: Rq)
      modifies `hash
      ensures Model() == Unhashed(old(Model()), rq)
    {
      var i, chains: seq<seq<Rq>> := 0, [];
      while i < |hash|
        invariant 0 <= i == |chains| <= |hash| && hash == old(hash)
        invariant forall j :: 0 <= j < i ==> chains[j] == Remove(hash[j], rq)
      {
        chains := chains + [Remove(hash[i], rq)];
        i := i + 1;
      }
      hash := chains;
    }

    /** elv_rqhash_add */
    method RqHashAdd(rq: Rq)
      requires |hash| == ENTRIES && rq in pos && rq in sectors
      modifies `hash
      ensures Model() == Hashed(hashFn, old(Model()), rq)
    {
      var b := Bucket(hashFn, pos[rq] + sectors[rq]);
      hash := hash[b := [rq] + hash[b]];
    }

    /** elv_rqhash_reposition */
    method RqHashReposition(rq: Rq)
      requires |hash| == ENTRIES && rq in pos && rq in sectors
      modifies `hash
      ensures Model() == Hashed(hashFn, Unhashed(old(Model()), rq), rq)
    {
      RqHashDel(rq);
      RqHashAdd(rq);
    }

    /** elv_rqhash_find: walks one chain, unlinking what is no longer mergeable. */
    method RqHashFind(sector: int) returns (r: Option<Rq>)
      requires Valid()
      modifies `hash
      ensures Valid() && Model() == AfterFind(hashFn, old(Model()), sector) && r == Found(hashFn, old(Model()), sector)
      ensures r.Some? ==> Candidate(Model(), r.value, sector)
      ensures r.None? ==> forall rq :: !Candidate(Model(), rq, sector)
    {
      ghost var s := Model();
      var b := Bucket(hashFn, sector);
      FindKeeps(hashFn, s, sector);
      forall rq ensures Found(hashFn, s, sector).None? ==> !Candidate(s, rq, sector) {
        FindExact(hashFn, s, sector, rq);
      }
      FindExact(hashFn, s, sector, 0);
      assert BucketFine(hashFn, s, b);
      r := ScanChain(b, sector);
      assert forall rq :: Candidate(Model(), rq, sector) == Candidate(s, rq, sector);
    }

    /** The walk: `passed` has been looked at and kept, `rest` is still to come. */
    method ScanChain(b: nat, sector: int) returns (r: Option<Rq>)
      requires b < |hash| && forall x :: x in hash[b] ==> Model().Known(x)
      modifies `hash
      ensures r == Scan(old(Model()), old(hash[b]), sector).0
      ensures hash == old(hash)[b := Scan(old(Model()), old(hash[b]), sector).1]
    {
      var passed: seq<Rq>, rest := [], hash[b];
      ghost var s := Model();
      assert passed + rest == hash[b];
      assert hash == hash[b := passed + rest];
      assert [] + Scan(s, rest, sector).1 == Scan(s, rest, sector).1;
      while rest != []
        invariant forall x :: x in rest ==> s.Known(x)
        invariant hash == old(hash)[b := passed + rest]
        invariant Scan(s, rest, sector).0 == Scan(s, old(hash[b]), sector).0
        invariant passed + Scan(s, rest, sector).1 == Scan(s, old(hash[b]), sector).1
      {
        var rq := rest[0];
        assert s.Known(rq);
        if !mergeable[rq] {
          rest := rest[1..];
          hash := hash[b := passed + rest];
          assert hash == old(hash)[b := passed + rest];
        } else if pos[rq] + sectors[rq] == sector {
          return Some(rq);
        } else {
          assert passed + ([rq] + Scan(s, rest[1..], sector).1) == passed + [rq] + Scan(s, rest[1..], sector).1;
          assert passed + rest == passed + [rq] + rest[1..];
          passed, rest := passed + [rq], rest[1..];
        }
      }
      return None;
    }

    method Describe(rq: Rq, at: int, n: int, canMerge: bool)
      modifies this
      ensures Model() == Described(old(Model()), rq, at, n, canMerge)
    {
      pos, sectors, mergeable := pos[rq := at], sectors[rq := n], mergeable[rq := canMerge];
      sorted, nrSorted := sorted + {rq}, nrSorted + 1;
    }

    method Enter(rq: Rq, at: int, n: int, canMerge: bool)
      requires |hash| == ENTRIES
      modifies this
      ensures Model() == Insert(hashFn, old(Model()), rq, at, n, canMerge)
    {
      Describe(rq, at, n, canMerge);
      if canMerge {
        RqHashAdd(rq);
        if lastMerge.None? {
          lastMerge := Some(rq);
        }
      }
    }

    /** The sorted insertion of __elv_add_request. */
    method AddRequest(rq: Rq, at: int, n: int, canMerge: bool)
      requires Valid() && rq !in sorted
      modifies this
      ensures Valid() && Model() == Insert(hashFn, old(Model()), rq, at, n, canMerge)
    {
      InsertKeeps(hashFn, Model(), rq, at, n, canMerge);
      Enter(rq, at, n, canMerge);
    }

    method Grow(rq: Rq, n: int, back: bool)
      requires |hash| == ENTRIES && rq in pos && rq in sectors
      modifies this
      ensures Model() == if back then BackMerged(hashFn, old(Model()), rq, n) else FrontMerged(old(Model()), rq, n)
    {
      sectors := sectors[rq := sectors[rq] + n];
      lastMerge := Some(rq);
      if back {
        RqHashReposition(rq);
      } else {
        pos := pos[rq := pos[rq] - n];
      }
    }

    /** A bio merge of n sectors, at the back or at the front, with elv_merged_request. */
    method MergedRequest(rq: Rq, n: int, back: bool)
      requires Valid() && rq in sorted
      modifies this
      ensures Valid() && old(Model()).Known(rq)
      ensures Model() == if back then BackMerged(hashFn, old(Model()), rq, n) else FrontMerged(old(Model()), rq, n)
    {
      BackMergedKeeps(hashFn, Model(), rq, n);
      FrontMergedKeeps(hashFn, Model(), rq, n);
      Grow(rq, n, back);
    }

    method Drop(rq: Rq)
      modifies this
      ensures Model() == Dropped(old(Model()), rq)
    {
      RqHashDel(rq);
      sorted, nrSorted := sorted - {rq}, nrSorted - 1;
    }

    /** attempt_merge of `next` into `rq`, with elv_merge_requests. */
    method MergeRequests(rq: Rq, next: Rq)
      requires Valid() && rq in sorted && next in sorted && rq != next
      modifies this
      ensures Valid() && old(Model()).Known(rq) && old(Model()).Known(next)
      ensures Model() == MergedRequests(hashFn, old(Model()), rq, next)
    {
      MergedRequestsKeeps(hashFn, Model(), rq, next);
      Grow(rq, sectors[next], true);
      Drop(next);
    }

    /** elv_dispatch_add_tail */
    method DispatchAddTail(rq: Rq)
      requires Valid() && rq in sorted
      modifies this
      ensures Valid() && Model() == Dispatched(old(Model()), rq)
    {
      DispatchedKeeps(hashFn, Model(), rq);
      if lastMerge == Some(rq) {
        lastMerge := None;
      }
      Drop(rq);
    }

    /** REQ_NOMERGE, as the segment limits set it. */
    method MarkNoMerge(rq: Rq)
      requires Valid() && rq in sorted
      modifies this
      ensures Valid() && Model() == NoMerge(old(Model()), rq)
    {
      NoMergeKeeps(hashFn, Model(), rq);
      mergeable := mergeable[rq := false];
      if lastMerge == Some(rq) {
        lastMerge := None;
      }
    }
  }
}
