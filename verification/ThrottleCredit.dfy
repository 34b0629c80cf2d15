/**
 The other side of the rate limit: throttling is no stricter than the rate (block/blk-throttle.c).  Trimming a
 slice costs at most one byte and one I/O of what may still be dispatched, and a look refuses a bio only if,
 since some earlier look, the direction has dispatched what the rate grants for the time since then, less one
 byte or one I/O for each slice of it.
 */
module ThrottleCredit {
  import opened Throttle
  import opened ThrottleRate
  import opened ThrottleWait

  // ---------------------------------------------------------------------------
  // One trim
  // ---------------------------------------------------------------------------

  /** What may still be dispatched at `t`: what the elapsed time allows, less what has been charged. */
  function ByteCredit(l: Limits, d: Dir, t: int): int
    requires l.Valid()
  {
    BytesAllowed(l, d, t) - d.bytes
  }

  function IoCredit(l: Limits, d: Dir, t: int): int
    requires l.Valid()
  {
    IosAllowed(l, d, t) - d.ios
  }

  /** Slices taken off the start are taken off the rounded time, or a little less. */
  lemma ElapsedLess(l: Limits, d: Dir, t: int, k: int)
    requires l.Valid() && 0 <= k && d.start + k * l.Slice() <= t
    ensures ElapsedRounded(l, d.(start := d.start + k * l.Slice()), t) >= ElapsedRounded(l, d, t) - k * l.Slice()
  {
    var s := l.Slice();
    var e := t - d.start;
    RoundupSelf(s);
    if e > 0 {
      RoundupShift(k, e - k * s, s);
      if e == k * s {
        RoundupMultiple(k, s);
      }
    } else {
      MulLe(0, k, s);
    }
  }

  /** What less time grants is less by what the difference grants, and at most one more. */
  lemma GrantLess(rate: int, e: int, gone: int, e': int, hz: int)
    requires 0 < rate && 0 < hz && 0 <= gone && 0 <= e' && 0 <= e && e - gone <= e'
    ensures rate * e' / hz >= rate * e / hz - rate * gone / hz - 1
  {
    MulLe(0, e, rate);
    MulLe(0, gone, rate);
    MulLe(0, e', rate);
    DivBounds(rate * e, hz);
    DivBounds(rate * gone, hz);
    DivBounds(rate * e', hz);
    MulLe(e, e' + gone, rate);
    Distribute(e', gone, rate);
    var a, b, c := rate * e / hz, rate * gone / hz, rate * e' / hz;
    if c < a - b - 1 {
      MulLe(c + 2 + b, a, hz);
      Distribute(c + 2, b, hz);
      Distribute(c, 2, hz);
    }
  }

  /** No product of the looks and the trim leaves its word. */
  ghost predicate InWords(l: Limits, d: Dir, now: int, t: int)
    requires l.Valid()
  {
    && l.bps * ElapsedRounded(l, d, t) < U64 && l.iops * ElapsedRounded(l, d, t) < U64
    && l.iops * (now - d.start) < ULONG
  }

  /** The slices taken off, and what they take off the counters, when no product leaves its word. */
  lemma TrimAmounts(l: Limits, d: Dir, now: int, t: int)
    requires l.Valid() && d.start <= now <= t && InWords(l, d, now, t)
    ensures var slices := (now - d.start) / l.Slice();
            && 0 <= slices * l.Slice() <= now - d.start
            && l.bps * l.Slice() * slices % U64 / l.hz == l.bps * (slices * l.Slice()) / l.hz
            && l.iops * l.Slice() * slices % ULONG / l.hz == l.iops * (slices * l.Slice()) / l.hz
  {
    var s, k := l.Slice(), (now - d.start) / l.Slice();
    DivBounds(now - d.start, s);
    ElapsedBounds(l, d, t);
    MulLe(k * s, ElapsedRounded(l, d, t), l.bps);
    MulLe(k * s, now - d.start, l.iops);
    MulLe(0, k * s, l.bps);
    MulLe(0, k * s, l.iops);
    Regroup(l.bps, s, k);
    Regroup(l.iops, s, k);
    SmallMod(l.bps * (k * s), U64);
    SmallMod(l.iops * (k * s), ULONG);
  }

  /** Less than the elapsed time stays within the words. */
  lemma LessInWords(rate: int, e: int, e': int)
    requires 0 < rate && 0 <= e' <= e && rate * e < U64
    ensures rate * e' % U64 == rate * e' && rate * e % U64 == rate * e
  {
    MulLe(0, e', rate);
    MulLe(e', e, rate);
    SmallMod(rate * e', U64);
    SmallMod(rate * e, U64);
  }

  /** The rounded time of the trimmed slice lies between what is left and what there was. */
  lemma TrimmedElapsed(l: Limits, d: Dir, t: int, k: int)
    requires l.Valid() && 0 < k && d.start + k * l.Slice() <= t
    ensures var d' := d.(start := d.start + k * l.Slice());
            ElapsedRounded(l, d, t) - k * l.Slice() <= ElapsedRounded(l, d', t) <= ElapsedRounded(l, d, t)
  {
    var s := l.Slice();
    var d' := d.(start := d.start + k * s);
    MulLe(1, k, s);
    ElapsedLess(l, d, t, k);
    RoundupSelf(s);
    if t == d'.start {
      RoundupMultiple(k, s);
    } else {
      RoundupMonotone(t - d'.start, t - d.start, s);
    }
  }

  /** What trimming makes of a slice: nothing but its end changes, or whole slices and their grants go. */
  ghost predicate Trimmed(l: Limits, d: Dir, d': Dir, k: int)
    requires l.Valid()
  {
    if d'.start == d.start then d'.bytes == d.bytes && d'.ios == d.ios
    else
      && k > 0 && d'.start == d.start + k * l.Slice()
      && d'.bytes == Max(d.bytes - l.bps * (k * l.Slice()) / l.hz, 0)
      && d'.ios == Max(d.ios - l.iops * (k * l.Slice()) / l.hz, 0)
  }

  lemma TrimTrims(l: Limits, d: Dir, now: int, t: int)
    requires l.Valid() && d.start <= now <= t && now <= d.end && InWords(l, d, now, t)
    ensures Trimmed(l, d, Trim(l, d, now), (now - d.start) / l.Slice())
    ensures Trim(l, d, now).start <= now
  {
    TrimAmounts(l, d, now, t);
    DivBounds(now - d.start, l.Slice());
  }

  lemma BytesKept(l: Limits, d: Dir, d': Dir, t: int, k: int)
    requires l.Valid() && Trimmed(l, d, d', k) && d'.start <= t && l.bps * ElapsedRounded(l, d, t) < U64
    requires 0 <= d.bytes && d.bytes >= l.bps * (k * l.Slice()) / l.hz && d.start <= t
    ensures ByteCredit(l, d', t) >= ByteCredit(l, d, t) - 1
  {
    if d'.start != d.start {
      var e, e' := ElapsedRounded(l, d, t), ElapsedRounded(l, d', t);
      MulLe(1, k, l.Slice());
      TrimmedElapsed(l, d, t, k);
      ElapsedBounds(l, d', t);
      LessInWords(l.bps, e, e');
      GrantLess(l.bps, e, k * l.Slice(), e', l.hz);
    }
  }

  lemma IosKept(l: Limits, d: Dir, d': Dir, t: int, k: int)
    requires l.Valid() && Trimmed(l, d, d', k) && d'.start <= t && l.iops * ElapsedRounded(l, d, t) < U64
    requires 0 <= d.ios && d.ios >= l.iops * (k * l.Slice()) / l.hz && d.start <= t
    ensures IoCredit(l, d', t) >= IoCredit(l, d, t) - 1
  {
    if d'.start != d.start {
      var e, e' := ElapsedRounded(l, d, t), ElapsedRounded(l, d', t);
      MulLe(1, k, l.Slice());
      TrimmedElapsed(l, d, t, k);
      ElapsedBounds(l, d', t);
      LessInWords(l.iops, e, e');
      GrantLess(l.iops, e, k * l.Slice(), e', l.hz);
      MulLe(0, k * l.Slice(), l.iops);
      DivBounds(l.iops * (k * l.Slice()), l.hz);
    }
  }

  /**
   Trimming lowers what may still be dispatched, at any later time of the slice, by at most one byte and one
   I/O, if the counters cover what is trimmed.
   */
  lemma TrimKeepsCredit(l: Limits, d: Dir, now: int, t: int)
    requires l.Valid() && d.start <= now <= t && now <= d.end && InWords(l, d, now, t)
    requires 0 <= d.bytes && 0 <= d.ios
    ensures var d', slices := Trim(l, d, now), (now - d.start) / l.Slice();
            && (d.bytes >= l.bps * (slices * l.Slice()) / l.hz ==> ByteCredit(l, d', t) >= ByteCredit(l, d, t) - 1)
            && (d.ios >= l.iops * (slices * l.Slice()) / l.hz ==> IoCredit(l, d', t) >= IoCredit(l, d, t) - 1)
  {
    var d', k := Trim(l, d, now), (now - d.start) / l.Slice();
    TrimTrims(l, d, now, t);
    if d.bytes >= l.bps * (k * l.Slice()) / l.hz {
      BytesKept(l, d, d', t, k);
    }
    if d.ios >= l.iops * (k * l.Slice()) / l.hz {
      IosKept(l, d, d', t, k);
    }
  }

  // ---------------------------------------------------------------------------
  // The account from below
  // ---------------------------------------------------------------------------

  /** The two limits. */
  datatype Kind = Bytes | Ios

  function RateOf(l: Limits, kind: Kind): int {
    if kind.Bytes? then l.bps else l.iops
  }

  function DispOf(d: Dir, kind: Kind): int {
    if kind.Bytes? then d.bytes else d.ios
  }

  function TotalOf(r: Run, kind: Kind): int {
    if kind.Bytes? then r.bytes else r.ios
  }

  function CostOf(kind: Kind, size: int): int {
    if kind.Bytes? then size else 1
  }

  /**
   `since` was dispatched since the counter last stood at zero, at `w`, and `k` whole slices were trimmed since
   then: together with one for each slice trimmed, it makes up for the counter and for what those slices grant.
   */
  ghost predicate Kept(l: Limits, kind: Kind, d: Dir, since: int, w: int, k: int) {
    && l.Valid() && 0 <= k && 0 <= since && 0 <= DispOf(d, kind) && d.start == w + k * l.Slice()
    && (since + k) * l.hz >= RateOf(l, kind) * (k * l.Slice()) + DispOf(d, kind) * l.hz
  }

  lemma KeptFresh(l: Limits, kind: Kind, d: Dir, since: int)
    requires l.Valid() && DispOf(d, kind) == 0 && 0 <= since
    ensures Kept(l, kind, d, since, d.start, 0)
  {
    MulLe(0, since, l.hz);
    assert RateOf(l, kind) * (0 * l.Slice()) == 0;
  }

  lemma KeptCharged(l: Limits, kind: Kind, d: Dir, d': Dir, since: int, cost: int, w: int, k: int)
    requires Kept(l, kind, d, since, w, k) && 0 <= cost && d'.start == d.start
    requires 0 <= DispOf(d', kind) <= DispOf(d, kind) + cost
    ensures Kept(l, kind, d', since + cost, w, k)
  {
    MulLe(DispOf(d', kind), DispOf(d, kind) + cost, l.hz);
    Distribute(DispOf(d, kind), cost, l.hz);
    Distribute(since + k, cost, l.hz);
  }

  /** A trim that the counter covers adds its slices; one that it does not cover empties it. */
  lemma KeptTrimmed(l: Limits, kind: Kind, d: Dir, d': Dir, since: int, w: int, k: int, slices: int)
    requires Kept(l, kind, d, since, w, k) && Trimmed(l, d, d', slices)
    ensures if d'.start == d.start then Kept(l, kind, d', since, w, k)
            else if DispOf(d, kind) >= RateOf(l, kind) * (slices * l.Slice()) / l.hz
            then Kept(l, kind, d', since, w, k + slices)
            else Kept(l, kind, d', since, d'.start, 0)
  {
    if d'.start != d.start {
      var rate, s := RateOf(l, kind), l.Slice();
      var trim := rate * (slices * s) / l.hz;
      if DispOf(d, kind) >= trim {
        MulLe(0, slices * s, rate);
        DivBounds(rate * (slices * s), l.hz);
        MulLe(1, slices, l.hz);
        Distribute(since + k, slices, l.hz);
        Distribute(k, slices, s);
        Distribute(k * s, slices * s, rate);
        Distribute(DispOf(d, kind) - trim, trim, l.hz);
      } else {
        KeptFresh(l, kind, d', since);
      }
    }
  }

  // ---------------------------------------------------------------------------
  // Every look of a run
  // ---------------------------------------------------------------------------

  /** The account starts at `w`, less than a slice before the look at `at`. */
  ghost predicate Marks(l: Limits, w: int, at: int) {
    w <= at < w + l.Slice()
  }

  /** A look renews the slice: it keeps the account, or opens a new one at `now`. */
  lemma RenewKept(l: Limits, kind: Kind, d: Dir, since: int, w: int, k: int, now: int)
    requires Kept(l, kind, d, since, w, k)
    ensures var d1 := Renew(l, d, now);
            if SliceUsed(d, now) then Kept(l, kind, d1, 0, now, 0) else Kept(l, kind, d1, since, w, k)
  {
    if SliceUsed(d, now) {
      KeptFresh(l, kind, NewSlice(l, now), 0);
    }
  }

  /** A dispatch charges the bio and trims. */
  lemma DispatchKept(l: Limits, kind: Kind, d: Dir, size: int, since: int, w: int, k: int, now: int, at: int)
    returns (w': int, k': int, mark: bool)
    requires Kept(l, kind, d, since, w, k) && Marks(l, w, at) && 0 <= size && 0 <= d.bytes && 0 <= d.ios
    requires d.start <= now <= d.end && InWords(l, d, now, now)
    ensures var d' := Trim(l, Charge(d, size), now);
            Kept(l, kind, d', CostOf(kind, size) + if mark then 0 else since, w', k')
    ensures Marks(l, w', if mark then now else at)
  {
    var d1 := Charge(d, size);
    var d2, slices := Trim(l, d1, now), (now - d1.start) / l.Slice();
    ModLe(d.bytes + size, U64);
    ModLe(d.ios + 1, U32);
    KeptCharged(l, kind, d, d1, since, CostOf(kind, size), w, k);
    TrimTrims(l, d1, now, now);
    KeptTrimmed(l, kind, d1, d2, since + CostOf(kind, size), w, k, slices);
    DivBounds(now - d1.start, l.Slice());
    w', k', mark := w, k, false;
    if d2.start != d1.start {
      if DispOf(d1, kind) >= RateOf(l, kind) * (slices * l.Slice()) / l.hz {
        k' := k + slices;
      } else {
        w', k', mark := d2.start, 0, true;
        KeptFresh(l, kind, d2, CostOf(kind, size));
      }
    }
  }

  /** What the looks from `i` on have dispatched. */
  function Since(l: Limits, events: seq<Event>, i: nat, kind: Kind): int
    requires l.Valid() && i <= |events|
  {
    TotalOf(Play(l, events), kind) - TotalOf(Play(l, events[..i]), kind)
  }

  /** No product of the look leaves its word. */
  ghost predicate NarrowAt(l: Limits, events: seq<Event>, n: nat)
    requires l.Valid() && n < |events|
  {
    var now := events[n].now;
    InWords(l, Renew(l, Play(l, events[..n]).dir, now), now, now)
  }

  ghost predicate Narrow(l: Limits, events: seq<Event>)
    requires l.Valid()
  {
    forall n: nat :: n < |events| ==> NarrowAt(l, events, n)
  }

  lemma NarrowPrefix(l: Limits, events: seq<Event>)
    requires l.Valid() && events != [] && Narrow(l, events)
    ensures Narrow(l, events[..|events| - 1])
  {
    var init := events[..|events| - 1];
    forall n: nat | n < |init| ensures NarrowAt(l, init, n) {
      assert init[..n] == events[..n];
      assert NarrowAt(l, events, n);
    }
  }

  /** What a look needs of the slice it finds, once renewed. */
  ghost predicate Looked(l: Limits, d: Dir, now: int)
    requires l.Valid()
  {
    d.start <= now <= d.end && 0 <= d.bytes && 0 <= d.ios && InWords(l, d, now, now)
  }

  /** One look, with the account it starts from. */
  lemma StepKept(l: Limits, kind: Kind, r: Run, e: Event, since: int, w: int, k: int, at: int)
    returns (w': int, k': int, mark: bool)
    requires l.Valid() && !l.Unlimited() && 0 <= e.size && Marks(l, w, at)
    requires var d := Renew(l, r.dir, e.now); Kept(l, kind, d, since, w, k) && Looked(l, d, e.now)
    ensures var r' := Step(l, r, e);
            && Kept(l, kind, r'.dir, TotalOf(r', kind) - TotalOf(r, kind) + (if mark then 0 else since), w', k')
            && Marks(l, w', if mark then e.now else at)
  {
    var d := Renew(l, r.dir, e.now);
    var v := MayDispatch(l, r.dir, e.size, e.now);
    w', k', mark := w, k, false;
    if v.may && e.dispatch {
      w', k', mark := DispatchKept(l, kind, d, e.size, since, w, k, e.now, at);
    }
  }

  /** The last look of a run, with the account it starts from. */
  lemma LastKept(l: Limits, events: seq<Event>, n: nat, kind: Kind, since: int, w: int, k: int, at: int)
    returns (w': int, k': int, mark: bool)
    requires l.Valid() && !l.Unlimited() && |events| == n + 1 && 0 <= events[n].size && Marks(l, w, at)
    requires var d := Renew(l, Play(l, events[..n]).dir, events[n].now);
             Kept(l, kind, d, since, w, k) && Looked(l, d, events[n].now)
    ensures Kept(l, kind, Play(l, events).dir, Since(l, events, n, kind) + (if mark then 0 else since), w', k')
    ensures Marks(l, w', if mark then events[n].now else at)
  {
    w', k', mark := StepKept(l, kind, Play(l, events[..n]), events[n], since, w, k, at);
    assert events[..n][..n] == events[..n];
  }

  lemma SinceSplit(l: Limits, events: seq<Event>, n: nat, j: nat, kind: Kind)
    requires l.Valid() && j <= n <= |events|
    ensures Since(l, events, j, kind) == Since(l, events, n, kind) + Since(l, events[..n], j, kind)
  {
    assert events[..n][..j] == events[..j];
  }

  /** The last look of a run, when the account of the looks before it began at look `j`. */
  lemma FollowedKept(l: Limits, events: seq<Event>, n: nat, kind: Kind, j: nat, w: int, k: int)
    returns (i: nat, w': int, k': int)
    requires l.Valid() && !l.Unlimited() && |events| == n + 1 && j < n && 0 <= events[n].size
    requires Kept(l, kind, Play(l, events[..n]).dir, Since(l, events[..n], j, kind), w, k) && Marks(l, w, events[j].now)
    requires Looked(l, Renew(l, Play(l, events[..n]).dir, events[n].now), events[n].now)
    ensures i < |events| && Marks(l, w', events[i].now)
    ensures Kept(l, kind, Play(l, events).dir, Since(l, events, i, kind), w', k')
  {
    var d, now, since, mark := Play(l, events[..n]).dir, events[n].now, Since(l, events[..n], j, kind), false;
    RenewKept(l, kind, d, since, w, k, now);
    if SliceUsed(d, now) {
      i := n;
      w', k', mark := LastKept(l, events, n, kind, 0, now, 0, now);
    } else {
      w', k', mark := LastKept(l, events, n, kind, since, w, k, events[j].now);
      i := if mark then n else j;
      SinceSplit(l, events, n, j, kind);
    }
  }

  /** In every run each account can be followed back to a look at which its counter stood at zero. */
  lemma {:induction false} PlayKept(l: Limits, events: seq<Event>, kind: Kind) returns (i: nat, w: int, k: int)
    requires l.Valid() && !l.Unlimited() && Timed(events) && events != [] && Narrow(l, events)
    ensures i < |events| && Marks(l, w, events[i].now)
    ensures Kept(l, kind, Play(l, events).dir, Since(l, events, i, kind), w, k)
  {
    var n := |events| - 1;
    var init, e := events[..n], events[n];
    var r := Play(l, init);
    assert NarrowAt(l, events, n);
    if init == [] {
      FirstBooks(l, e.now);
      KeptFresh(l, kind, Renew(l, r.dir, e.now), 0);
      var mark;
      i := n;
      w, k, mark := LastKept(l, events, n, kind, 0, e.now, 0, e.now);
    } else {
      var last := events[n - 1];
      assert init[0] == events[0] && init[|init| - 1] == last;
      NarrowPrefix(l, events);
      PlayBooks(l, init);
      RenewBooks(l, r, events[0].now, last.now, e.now, Wraps(l, init));
      var j, w0, k0 := PlayKept(l, init, kind);
      i, w, k := FollowedKept(l, events, n, kind, j, w0, k0);
    }
  }

  // ---------------------------------------------------------------------------
  // A refusal means the rate is used up
  // ---------------------------------------------------------------------------

  /** The bio does not fit what the elapsed time grants. */
  ghost predicate Over(l: Limits, kind: Kind, d: Dir, cost: int, now: int)
    requires l.Valid()
  {
    (DispOf(d, kind) + cost) * l.hz > RateOf(l, kind) * Max(l.Slice(), now - d.start)
  }

  lemma NotGranted(n: int, rate: int, e: int, hz: int, less: int)
    requires 0 < hz && 0 < rate && 0 <= less <= e && n > rate * e / hz
    ensures n * hz > rate * less
  {
    MulLe(0, e, rate);
    DivBounds(rate * e, hz);
    MulLe(rate * e / hz + 1, n, hz);
    Distribute(rate * e / hz, 1, hz);
    MulLe(less, e, rate);
  }

  lemma AtLeastASlice(l: Limits, d: Dir, now: int)
    requires l.Valid() && d.start <= now
    ensures Max(l.Slice(), now - d.start) <= ElapsedRounded(l, d, now)
  {
    ElapsedBounds(l, d, now);
    RoundupSelf(l.Slice());
    if now > d.start {
      RoundupMonotone(1, now - d.start, l.Slice());
      QuotientUnique(1 + (l.Slice() - 1), l.Slice(), 1, 0);
    }
  }

  lemma BytesOver(l: Limits, d: Dir, size: int, now: int)
    requires l.Valid() && d.start <= now && 0 <= d.bytes && d.bytes * l.hz < U64 && 0 <= size < U32
    requires l.bps * ElapsedRounded(l, d, now) < U64 && !WithinBps(l, d, size, now)
    ensures Over(l, Bytes, d, size, now)
  {
    var e := ElapsedRounded(l, d, now);
    AtLeastASlice(l, d, now);
    NoByteWrap(d.bytes, size, l.hz);
    LessInWords(l.bps, e, e);
    NotGranted(d.bytes + size, l.bps, e, l.hz, Max(l.Slice(), now - d.start));
  }

  lemma IosOver(l: Limits, d: Dir, now: int)
    requires l.Valid() && d.start <= now && 0 <= d.ios < U32
    requires l.iops * ElapsedRounded(l, d, now) < U64 && !WithinIops(l, d, now)
    ensures Over(l, Ios, d, 1, now)
  {
    var e := ElapsedRounded(l, d, now);
    AtLeastASlice(l, d, now);
    LessInWords(l.iops, e, e);
    GrantBound(l.iops, e, U64, l.hz);
    NotGranted(d.ios + 1, l.iops, e, l.hz, Max(l.Slice(), now - d.start));
  }

  /** A refused look found the bytes or the I/Os over. */
  lemma RefusedOver(l: Limits, d: Dir, size: int, now: int) returns (kind: Kind)
    requires l.Valid() && !l.Unlimited() && 0 <= size < U32 && !MayDispatch(l, d, size, now).may
    requires var d1 := Renew(l, d, now);
             && d1.start <= now && 0 <= d1.bytes && d1.bytes * l.hz < U64 && 0 <= d1.ios < U32
             && InWords(l, d1, now, now)
    ensures Over(l, kind, Renew(l, d, now), CostOf(kind, size), now)
  {
    var d1 := Renew(l, d, now);
    if !WithinBps(l, d1, size, now) {
      kind := Bytes;
      BytesOver(l, d1, size, now);
    } else {
      kind := Ios;
      IosOver(l, d1, now);
    }
  }

  /** The time of look `i`, or `now` for the look that follows the run. */
  function TimeOf(events: seq<Event>, i: nat, now: int): int
    requires i <= |events|
  {
    if i < |events| then events[i].now else now
  }

  /**
   From look `i` on, what was dispatched and the bio in question, and one more for each slice begun since then,
   exceed what the rate grants for that time, or for one slice if that is more.
   */
  ghost predicate UsedUp(l: Limits, events: seq<Event>, i: nat, kind: Kind, cost: int, now: int)
    requires l.Valid() && i <= |events|
  {
    var t := TimeOf(events, i, now);
    (Since(l, events, i, kind) + cost + (now - t) / l.Slice() + 1) * l.hz >
      RateOf(l, kind) * Max(l.Slice(), now - t)
  }

  /** The slices trimmed since the account began, counted from the look. */
  lemma SlicesSince(l: Limits, w: int, k: int, at: int, start: int, now: int)
    requires l.Valid() && 0 <= k && start == w + k * l.Slice() && start <= now && Marks(l, w, at) && at <= now
    ensures k <= (now - at) / l.Slice() + 1
  {
    var q := (now - at) / l.Slice();
    DivBounds(now - at, l.Slice());
    if k > q + 1 {
      MulLe(q + 2, k, l.Slice());
      Distribute(q, 2, l.Slice());
    }
  }

  lemma OverTheWindow(l: Limits, kind: Kind, d: Dir, since: int, w: int, k: int, cost: int, at: int, now: int)
    requires Kept(l, kind, d, since, w, k) && Marks(l, w, at) && at <= now && d.start <= now && 0 <= cost
    requires 0 < RateOf(l, kind) && Over(l, kind, d, cost, now)
    ensures (since + cost + (now - at) / l.Slice() + 1) * l.hz > RateOf(l, kind) * Max(l.Slice(), now - at)
  {
    var rate, m, q := RateOf(l, kind), Max(l.Slice(), now - d.start), (now - at) / l.Slice();
    SlicesSince(l, w, k, at, d.start, now);
    MulLe(since + cost + k, since + cost + q + 1, l.hz);
    Distribute(since + k, cost, l.hz);
    Distribute(DispOf(d, kind), cost, l.hz);
    Distribute(k * l.Slice(), m, rate);
    MulLe(0, k, l.Slice());
    MulLe(Max(l.Slice(), now - at), k * l.Slice() + m, rate);
  }

  /** The slice a look after a run finds, once renewed. */
  lemma FinalLook(l: Limits, events: seq<Event>, now: int)
    requires l.Valid() && !l.Unlimited() && Timed(events) && events != []
    requires events[|events| - 1].now <= now
    ensures var d1 := Renew(l, Play(l, events).dir, now);
            d1.start <= now && 0 <= d1.bytes && d1.bytes * l.hz < U64 && 0 <= d1.ios < U32
  {
    PlayBooks(l, events);
    RenewBooks(l, Play(l, events), events[0].now, events[|events| - 1].now, now, Wraps(l, events));
  }

  lemma UsedUpSince(l: Limits, events: seq<Event>, kind: Kind, cost: int, now: int) returns (i: nat)
    requires l.Valid() && !l.Unlimited() && Timed(events) && events != [] && Narrow(l, events)
    requires events[|events| - 1].now <= now && 0 <= cost
    requires var d1 := Renew(l, Play(l, events).dir, now); d1.start <= now && Over(l, kind, d1, cost, now)
    ensures i <= |events| && UsedUp(l, events, i, kind, cost, now)
  {
    var r, n := Play(l, events), |events|;
    var j, w, k := PlayKept(l, events, kind);
    RenewKept(l, kind, r.dir, Since(l, events, j, kind), w, k, now);
    var d := Renew(l, r.dir, now);
    if SliceUsed(r.dir, now) {
      i := n;
      assert events[..n] == events;
      OverTheWindow(l, kind, d, 0, now, 0, cost, now, now);
    } else {
      i := j;
      assert events[j].now <= now;
      OverTheWindow(l, kind, d, Since(l, events, j, kind), w, k, cost, events[j].now, now);
    }
  }

  /**
   In every run, as long as no product leaves its word, a look refuses a bio only if since some look of the run
   the rate has been used up, or if the bio alone is more than a slice grants.
   */
  lemma RefusedOnlyAtRate(l: Limits, events: seq<Event>, size: int, now: int) returns (kind: Kind, i: nat)
    requires l.Valid() && !l.Unlimited() && Timed(events) && events != [] && 0 <= size < U32
    requires events[|events| - 1].now <= now && Narrow(l, events)
    requires InWords(l, Renew(l, Play(l, events).dir, now), now, now)
    requires !MayDispatch(l, Play(l, events).dir, size, now).may
    ensures i <= |events| && UsedUp(l, events, i, kind, CostOf(kind, size), now)
  {
    FinalLook(l, events, now);
    kind := RefusedOver(l, Play(l, events).dir, size, now);
    i := UsedUpSince(l, events, kind, CostOf(kind, size), now);
  }

  // ---------------------------------------------------------------------------
  // What is allowed, and what is waited for
  // ---------------------------------------------------------------------------

  /** Anywhere within slice `j` of the elapsed time, the whole of that slice is allowed. */
  lemma AllowedInSlice(l: Limits, d: Dir, j: int, t: int)
    requires l.Valid() && 0 <= j && d.start + j * l.Slice() < t <= d.start + (j + 1) * l.Slice()
    ensures BytesAllowed(l, d, t) == l.bps * ((j + 1) * l.Slice()) % U64 / l.hz
    ensures IosAllowed(l, d, t) == Min(l.iops * ((j + 1) * l.Slice()) % U64 / l.hz, UINT_MAX)
  {
    var s, e := l.Slice(), t - d.start;
    Distribute(j, 1, s);
    MulLe(0, j, s);
    QuotientUnique(e + (s - 1), s, j + 1, e - 1 - j * s);
  }

  /** Less than a slice is added by rounding. */
  lemma RoundedShort(l: Limits, d: Dir, t: int, e: int)
    requires l.Valid() && d.start < t && t - d.start + l.Slice() <= e + 1
    ensures ElapsedRounded(l, d, t) <= e
  {
    RoundupBounds(t - d.start, l.Slice());
  }

  lemma TooFew(n: int, rate: int, e: int, hz: int)
    requires 0 < hz && 0 < rate && 0 <= e && rate * e < n * hz
    ensures rate * e / hz < n
  {
    MulLe(0, e, rate);
    DivBounds(rate * e, hz);
    if rate * e / hz >= n {
      MulLe(n, rate * e / hz, hz);
    }
  }

  /** The wait for I/Os is at most a slice longer than it need be: up to then the bio stays refused. */
  lemma IopsWaitNeeded(l: Limits, d: Dir, now: int, t: int)
    requires l.Valid() && 0 <= d.ios < UINT_MAX && d.start <= now < t && (d.ios + 1) * l.hz < U32
    requires l.iops * ElapsedRounded(l, d, t) < U64 && t + l.Slice() < now + IopsWait(l, d, now)
    ensures !WithinIops(l, d, t)
  {
    var n, e := d.ios + 1, ElapsedRounded(l, d, t);
    var x := n * l.hz / l.iops;
    MulLe(0, n, l.hz);
    SmallMod(n * l.hz, U32);
    DivBounds(n * l.hz, l.iops);
    RoundedShort(l, d, t, x - 1);
    ElapsedBounds(l, d, t);
    MulLe(e, x - 1, l.iops);
    Distribute(x - 1, 1, l.iops);
    TooFew(n, l.iops, e, l.hz);
    LessInWords(l.iops, e, e);
    SmallMod(n, U32);
  }

  lemma OneByteMore(rate: int, e: int, w: int, extra: int, hz: int)
    requires 0 < rate && 0 < hz && 0 <= e && 0 <= w && 0 <= extra && rate * w <= extra * hz
    ensures rate * (e + w) / hz <= rate * e / hz + extra
  {
    var a := rate * e / hz;
    MulLe(0, e, rate);
    MulLe(0, w, rate);
    DivBounds(rate * e, hz);
    Distribute(e, w, rate);
    Distribute(a, extra, hz);
    Distribute(a + extra, 1, hz);
    TooFew(a + extra + 1, rate, e + w, hz);
  }

  /** So is the wait for bytes: up to a slice before it is over, a bio one byte larger stays refused. */
  lemma BpsWaitNeeded(l: Limits, d: Dir, size: int, now: int, t: int)
    requires InRange(l, d, size, now, t) && !WithinBps(l, d, size, now) && d.bytes + size + 1 < U64
    requires now < t && t + l.Slice() <= now + BpsWait(l, d, size, now)
    ensures !WithinBps(l, d, size + 1, t)
  {
    BpsWaitValue(l, d, size, now, t);
    var e, e', extra := ElapsedRounded(l, d, now), ElapsedRounded(l, d, t), Extra(l, d, size, now);
    var w := extra * l.hz / l.bps;
    MulLe(0, extra, l.hz);
    DivBounds(extra * l.hz, l.bps);
    ElapsedBounds(l, d, now);
    ElapsedBounds(l, d, t);
    RoundedShort(l, d, t, e + w);
    LessInWords(l.bps, e, e);
    LessInWords(l.bps, e', e');
    MulLe(e', e + w, l.bps);
    OneByteMore(l.bps, e, w, extra, l.hz);
    MulLe(0, e', l.bps);
    DivMonotone(l.bps * e', l.bps * (e + w), l.hz);
    SmallMod(d.bytes + size + 1, U64);
  }

  // ---------------------------------------------------------------------------
  // What is not used is not saved up
  // ---------------------------------------------------------------------------

  lemma TrimEnds(l: Limits, d: Dir, now: int)
    requires l.Valid() && d.start <= now <= d.end && 0 <= now
    ensures Trim(l, d, now).end < now + 2 * l.Slice()
  {
    RoundupBounds(now + l.Slice(), l.Slice());
  }

  /** Two slices after a dispatch, a look finds a new slice: nothing of the time between is granted. */
  lemma IdleStartsAfresh(l: Limits, events: seq<Event>, now: int)
    requires l.Valid() && !l.Unlimited() && Timed(events) && events != []
    requires var n := |events| - 1;
             && MayDispatch(l, Play(l, events[..n]).dir, events[n].size, events[n].now).may && events[n].dispatch
             && now >= events[n].now + 2 * l.Slice()
    ensures Renew(l, Play(l, events).dir, now) == Dir(0, 0, now, now + l.Slice())
  {
    var n := |events| - 1;
    var init, e := events[..n], events[n];
    var d := Renew(l, Play(l, init).dir, e.now);
    if init == [] {
      FirstBooks(l, e.now);
    } else {
      assert init[0] == events[0] && init[n - 1] == events[n - 1];
      PlayBooks(l, init);
      RenewBooks(l, Play(l, init), events[0].now, events[n - 1].now, e.now, Wraps(l, init));
    }
    TrimEnds(l, Charge(d, e.size), e.now);
  }
}
