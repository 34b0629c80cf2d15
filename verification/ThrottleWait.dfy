/**
 What the wait returned with a refusal is worth: how long a refused bio has to wait until it is
 within the limit, when nothing else is charged meanwhile.
 */
module ThrottleWait {
  import opened Throttle
  import opened ThrottleRate

  /** The slice of a direction at a later look, when nothing was charged and the slice still runs. */
  lemma StillRunning(l: Limits, d: Dir, t: int)
    requires l.Valid() && d.start <= t <= d.end
    ensures var d' := Renew(l, d, t); d'.start == d.start && d'.bytes == d.bytes && d'.ios == d.ios && d'.end >= d.end
  {
    RoundupBoundsAny(t + l.Slice(), l.Slice());
  }

  lemma RoundupBoundsAny(x: int, y: int)
    requires 0 < y
    ensures x <= Roundup(x, y) < x + y
  {
    var q, m := (x + (y - 1)) / y, (x + (y - 1)) % y;
    assert x + (y - 1) == q * y + m;
  }

  /** A refusal comes with a wait of at least a jiffy, and the slice is made to cover it. */
  lemma RefusalCoversWait(l: Limits, d: Dir, size: int, now: int)
    requires l.Valid() && !MayDispatch(l, d, size, now).may
    ensures var v := MayDispatch(l, d, size, now);
            && v.wait >= 1
            && v.dir.end >= now + v.wait
            && v.dir.start == Renew(l, d, now).start <= now
            && v.dir.bytes == Renew(l, d, now).bytes && v.dir.ios == Renew(l, d, now).ios
  {
    var v := MayDispatch(l, d, size, now);
    ElapsedBounds(l, Renew(l, d, now), now);
    RoundupBoundsAny(now + v.wait, l.Slice());
  }

  /** The limits look at the start of the slice and its counters, not at its end. */
  lemma SameLimit(l: Limits, d: Dir, d': Dir, size: int, now: int)
    requires l.Valid() && d.start == d'.start && d.bytes == d'.bytes && d.ios == d'.ios
    ensures WithinBps(l, d, size, now) == WithinBps(l, d', size, now)
    ensures WithinIops(l, d, now) == WithinIops(l, d', now)
    ensures BpsWait(l, d, size, now) == BpsWait(l, d', size, now)
    ensures IopsWait(l, d, now) == IopsWait(l, d', now)
  {
  }

  // ---------------------------------------------------------------------------
  // The I/O limit: the wait is long enough while the slice lasts
  // ---------------------------------------------------------------------------

  lemma QuotientPlusOne(x: int, y: int)
    requires 0 <= x && 0 < y
    ensures (x / y + 1) * y > x
  {
    DivBounds(x, y);
  }

  /** Enough time for `n` I/Os at `rate`. */
  lemma EnoughTime(n: int, rate: int, hz: int, time: int)
    requires 0 <= n && 0 < rate && 0 < hz && time >= n * hz / rate + 1
    ensures rate * time / hz >= n
  {
    MulLe(0, n, hz);
    QuotientPlusOne(n * hz, rate);
    MulLe(n * hz / rate + 1, time, rate);
    assert rate * time >= n * hz;
    AtLeast(n, hz, rate * time);
  }

  lemma AtLeast(n: int, hz: int, x: int)
    requires 0 < hz && 0 <= x && n * hz <= x
    ensures x / hz >= n
  {
    DivBounds(x, hz);
    if x / hz < n {
      MulLe(x / hz + 1, n, hz);
      Distribute(x / hz, 1, hz);
    }
  }

  lemma SmallMod(x: int, m: int)
    requires 0 <= x < m
    ensures x % m == x
  {
  }

  lemma IopsWaitReaches(l: Limits, d: Dir, now: int, t: int)
    requires l.Valid() && 0 <= d.ios && (d.ios + 1) * l.hz < U32
    requires t >= now + IopsWait(l, d, now)
    ensures t - d.start >= (d.ios + 1) * l.hz / l.iops + 1
  {
    MulLe(0, d.ios + 1, l.hz);
    SmallMod((d.ios + 1) * l.hz, U32);
  }

  /** In the same slice, the I/O limit lets a refused bio pass at any time after the wait. */
  lemma IopsAfterWait(l: Limits, d: Dir, now: int, t: int)
    requires l.Valid() && 0 <= d.ios < UINT_MAX && d.start <= now
    requires (d.ios + 1) * l.hz < U32 && l.iops * ElapsedRounded(l, d, t) < U64
    requires t >= now + IopsWait(l, d, now)
    ensures WithinIops(l, d, t)
  {
    var n, rnd := d.ios + 1, ElapsedRounded(l, d, t);
    IopsWaitReaches(l, d, now, t);
    MulLe(0, n, l.hz);
    DivBounds(n * l.hz, l.iops);
    ElapsedBounds(l, d, t);
    EnoughTime(n, l.iops, l.hz, rnd);
    MulLe(0, rnd, l.iops);
    SmallMod(l.iops * rnd, U64);
    SmallMod(n, U32);
  }

  lemma RoundupMonotone(x: int, y: int, s: int)
    requires 0 < s && x <= y
    ensures Roundup(x, s) <= Roundup(y, s)
  {
    DivMonotone(x + (s - 1), y + (s - 1), s);
    MulLe((x + (s - 1)) / s, (y + (s - 1)) / s, s);
  }

  lemma DivMonotone(x: int, y: int, s: int)
    requires 0 < s && x <= y
    ensures x / s <= y / s
  {
    DivMod(x, s);
    DivMod(y, s);
    if x / s > y / s {
      MulLe(y / s + 1, x / s, s);
      Distribute(y / s, 1, s);
    }
  }

  lemma ElapsedMonotone(l: Limits, d: Dir, now: int, t: int)
    requires l.Valid() && d.start <= now < t
    ensures ElapsedRounded(l, d, now) <= ElapsedRounded(l, d, t)
  {
    if now == d.start {
      RoundupMonotone(1, t - d.start, l.Slice());
      RoundupSelf(l.Slice());
      QuotientUnique(1 + (l.Slice() - 1), l.Slice(), 1, 0);
    } else {
      RoundupMonotone(now - d.start, t - d.start, l.Slice());
    }
  }

  /** While nothing is charged, a bio within the byte limit stays within it. */
  lemma BpsStays(l: Limits, d: Dir, size: int, now: int, t: int)
    requires l.Valid() && d.start <= now < t && l.bps * ElapsedRounded(l, d, t) < U64
    requires WithinBps(l, d, size, now)
    ensures WithinBps(l, d, size, t)
  {
    var x, y := l.bps * ElapsedRounded(l, d, now), l.bps * ElapsedRounded(l, d, t);
    ElapsedMonotone(l, d, now, t);
    ElapsedBounds(l, d, now);
    MulLe(ElapsedRounded(l, d, now), ElapsedRounded(l, d, t), l.bps);
    MulLe(0, ElapsedRounded(l, d, now), l.bps);
    SmallMod(x, U64);
    SmallMod(y, U64);
    DivMonotone(x, y, l.hz);
  }

  /** A bio refused for the number of I/Os may be dispatched at any look after the wait, in its slice. */
  lemma IopsWaitSuffices(l: Limits, d: Dir, size: int, now: int, t: int)
    requires l.Valid() && WithinBps(l, Renew(l, d, now), size, now) && !WithinIops(l, Renew(l, d, now), now)
    requires var v := MayDispatch(l, d, size, now);
             && now + v.wait <= t <= v.dir.end
             && 0 <= v.dir.ios < UINT_MAX && (v.dir.ios + 1) * l.hz < U32
             && l.iops * ElapsedRounded(l, v.dir, t) < U64 && l.bps * ElapsedRounded(l, v.dir, t) < U64
    ensures MayDispatch(l, MayDispatch(l, d, size, now).dir, size, t).may
  {
    if !l.Unlimited() {
      var d1, v := Renew(l, d, now), MayDispatch(l, d, size, now);
      RefusalCoversWait(l, d, size, now);
      SameLimit(l, d1, v.dir, size, now);
      BpsStays(l, v.dir, size, now, t);
      IopsAfterWait(l, v.dir, now, t);
      StillRunning(l, v.dir, t);
      SameLimit(l, v.dir, Renew(l, v.dir, t), size, t);
    }
  }

  /**
   At a look after the slice has ended the wait counts for nothing: a new slice starts, and the bio
   may be dispatched exactly when one slice grants it.
   */
  lemma LateLook(l: Limits, d: Dir, size: int, t: int)
    requires l.Valid() && !l.Unlimited() && SliceUsed(d, t)
    requires 0 <= size < U64 && l.bps * l.Slice() < U64 && l.iops * l.Slice() < U64
    ensures MayDispatch(l, d, size, t).may <==> size <= l.bps * l.Slice() / l.hz && 1 <= l.iops * l.Slice() / l.hz
  {
    var d1 := NewSlice(l, t);
    RoundupSelf(l.Slice());
    MulLe(0, l.Slice(), l.bps);
    MulLe(0, l.Slice(), l.iops);
    SmallMod(l.bps * l.Slice(), U64);
    SmallMod(l.iops * l.Slice(), U64);
    SmallMod(size, U64);
    SmallMod(1, U32);
  }

  /** A fresh slice that grants the bytes of the bio, but not one I/O. */
  ghost predicate Scarce(l: Limits, d: Dir, size: int, now: int) {
    && l.Valid() && !l.Unlimited() && l.hz < U32 && l.iops * l.Slice() < l.hz
    && d.start == now && d.bytes == 0 && d.ios == 0 && d.end >= now + l.Slice()
    && 0 <= size < U64 && size * l.hz <= l.bps * l.Slice() < U64
  }

  lemma ScarceAllowed(l: Limits, d: Dir, size: int, now: int)
    requires Scarce(l, d, size, now)
    ensures ElapsedRounded(l, d, now) == l.Slice() && BytesAllowed(l, d, now) >= size && IosAllowed(l, d, now) == 0
    ensures l.iops * l.Slice() < U64 && l.iops * l.Slice() / l.hz == 0
  {
    RoundupSelf(l.Slice());
    MulLe(0, l.Slice(), l.bps);
    MulLe(0, l.Slice(), l.iops);
    SmallMod(l.bps * l.Slice(), U64);
    SmallMod(l.iops * l.Slice(), U64);
    AtLeast(size, l.hz, l.bps * l.Slice());
    QuotientUnique(l.iops * l.Slice(), l.hz, 0, l.iops * l.Slice());
  }

  lemma ScarceWait(l: Limits, d: Dir, size: int, now: int)
    requires Scarce(l, d, size, now)
    ensures WithinBps(l, d, size, now) && !WithinIops(l, d, now) && IopsWait(l, d, now) == l.hz / l.iops + 1
  {
    ScarceAllowed(l, d, size, now);
    SmallMod(size, U64);
    SmallMod(1, U32);
    SmallMod(l.hz, U32);
    DivBounds(l.hz, l.iops);
  }

  /** When no slice grants an I/O, a bio that misses the slice it was told to wait in is refused again. */
  lemma IopsWaitMissed(l: Limits, d: Dir, size: int, now: int, t: int)
    requires Scarce(l, d, size, now) && t > MayDispatch(l, d, size, now).dir.end
    ensures var v := MayDispatch(l, d, size, now);
            !v.may && v.wait == l.hz / l.iops + 1 && now + v.wait < t && !MayDispatch(l, v.dir, size, t).may
  {
    ScarceAllowed(l, d, size, now);
    ScarceWait(l, d, size, now);
    assert Renew(l, d, now) == d;
    RefusalCoversWait(l, d, size, now);
    LateLook(l, MayDispatch(l, d, size, now).dir, size, t);
  }

  /** One I/O a second, and 512 bytes: the wait is 101 jiffies of 10 ms, and the bio is refused at jiffy 111. */
  lemma IopsWaitMissedAt(t: int)
    requires t > 110
    ensures var l, d := Limits(100, 1000000, 1), Dir(0, 0, 0, 10);
            var v := MayDispatch(l, d, 512, 0);
            !v.may && v.wait == 101 && v.dir.end == 110 && !MayDispatch(l, v.dir, 512, t).may
  {
    var l, d := Limits(100, 1000000, 1), Dir(0, 0, 0, 10);
    assert Scarce(l, d, 512, 0);
    ScarceWait(l, d, 512, 0);
    IopsWaitMissed(l, d, 512, 0, t);
  }

  // ---------------------------------------------------------------------------
  // The byte limit: the wait may be one jiffy short
  // ---------------------------------------------------------------------------

  /** No product of the computation at `now`, nor the one for `t`, leaves its word. */
  ghost predicate InRange(l: Limits, d: Dir, size: int, now: int, t: int) {
    && l.Valid() && d.start <= now
    && 0 <= d.bytes && 0 <= size && d.bytes + size < U64
    && l.bps * ElapsedRounded(l, d, now) < U64
    && (d.bytes + size) * l.hz < ULONG * l.bps && (d.bytes + size) * l.hz < U64
    && d.start <= t && l.bps * ElapsedRounded(l, d, t) < U64
  }

  /** The bytes a refused bio is over its allowance. */
  function Extra(l: Limits, d: Dir, size: int, now: int): int
    requires l.Valid()
  {
    d.bytes + size - BytesAllowed(l, d, now)
  }

  /** The whole jiffies of the wait that are needed for the extra bytes. */
  function ExtraWait(l: Limits, d: Dir, size: int, now: int): int
    requires l.Valid()
  {
    Max(Extra(l, d, size, now) * l.hz / l.bps, 1)
  }

  lemma BpsWaitValue(l: Limits, d: Dir, size: int, now: int, t: int)
    requires InRange(l, d, size, now, t) && !WithinBps(l, d, size, now)
    ensures Extra(l, d, size, now) > 0
    ensures now + BpsWait(l, d, size, now) == d.start + ElapsedRounded(l, d, now) + ExtraWait(l, d, size, now)
  {
    AllowedBound(l, d, now, l.bps);
    SmallMod(d.bytes + size, U64);
    var extra := Extra(l, d, size, now);
    SmallMod(extra, U64);
    MulLe(extra, d.bytes + size, l.hz);
    MulLe(0, extra, l.hz);
    var x := extra * l.hz;
    SmallMod(x, U64);
    DivLess(x, l.bps, ULONG);
    SmallMod(x / l.bps, ULONG);
  }

  lemma DivLess(x: int, y: int, m: int)
    requires 0 <= x && 0 < y && x < m * y
    ensures 0 <= x / y < m
  {
    DivBounds(x, y);
    if x / y >= m {
      MulLe(m, x / y, y);
    }
  }

  /** An allowance without wrap-around reaches `need` exactly when the product does. */
  lemma AllowedReaches(l: Limits, d: Dir, t: int, need: int)
    requires l.Valid() && d.start <= t && l.bps * ElapsedRounded(l, d, t) < U64
    ensures BytesAllowed(l, d, t) >= need <==> l.bps * ElapsedRounded(l, d, t) >= need * l.hz
  {
    ElapsedBounds(l, d, t);
    var x := l.bps * ElapsedRounded(l, d, t);
    MulLe(0, ElapsedRounded(l, d, t), l.bps);
    SmallMod(x, U64);
    DivBounds(x, l.hz);
    if need * l.hz <= x {
      AtLeast(need, l.hz, x);
    } else if x / l.hz >= need {
      MulLe(need, x / l.hz, l.hz);
    }
  }

  /** What the bio needs, in units of 1/hz, in terms of the allowance at `now`. */
  lemma NeedSplit(l: Limits, d: Dir, size: int, now: int, t: int)
    requires InRange(l, d, size, now, t)
    ensures var x := l.bps * ElapsedRounded(l, d, now);
            (d.bytes + size) * l.hz == x - x % l.hz + Extra(l, d, size, now) * l.hz
  {
    var x := l.bps * ElapsedRounded(l, d, now);
    ElapsedBounds(l, d, now);
    MulLe(0, ElapsedRounded(l, d, now), l.bps);
    SmallMod(x, U64);
    DivMod(x, l.hz);
    var allowed := BytesAllowed(l, d, now);
    assert allowed == x / l.hz;
    Distribute(allowed, d.bytes + size - allowed, l.hz);
  }

  /** One jiffy more than the wait is always enough. */
  lemma BpsWaitAndAJiffy(l: Limits, d: Dir, size: int, now: int, t: int)
    requires InRange(l, d, size, now, t) && !WithinBps(l, d, size, now)
    requires t > now + BpsWait(l, d, size, now)
    ensures WithinBps(l, d, size, t)
  {
    var rnd, extra, w := ElapsedRounded(l, d, now), Extra(l, d, size, now), ExtraWait(l, d, size, now);
    BpsWaitValue(l, d, size, now, t);
    NeedSplit(l, d, size, now, t);
    ElapsedBounds(l, d, t);
    MulLe(0, extra, l.hz);
    QuotientPlusOne(extra * l.hz, l.bps);
    MulLe(extra * l.hz / l.bps + 1, w + 1, l.bps);
    Distribute(rnd, w + 1, l.bps);
    MulLe(rnd + (w + 1), ElapsedRounded(l, d, t), l.bps);
    AllowedReaches(l, d, t, d.bytes + size);
    SmallMod(d.bytes + size, U64);
  }

  lemma RoundupShift(k: int, w: int, s: int)
    requires 0 < s
    ensures Roundup(k * s + w, s) == k * s + Roundup(w, s)
  {
    var q, m := (w + (s - 1)) / s, (w + (s - 1)) % s;
    assert w + (s - 1) == q * s + m;
    Distribute(k, q, s);
    assert k * s + w + (s - 1) == (k + q) * s + m;
    QuotientUnique(k * s + w + (s - 1), s, k + q, m);
  }

  lemma RoundupExact(w: int, s: int)
    requires 0 < s
    ensures w % s == 0 ==> Roundup(w, s) == w
    ensures w % s != 0 ==> Roundup(w, s) > w
  {
    RoundupBoundsAny(w, s);
    assert w == w / s * s + w % s;
    if w % s == 0 {
      QuotientUnique(w + (s - 1), s, w / s, s - 1);
    } else if Roundup(w, s) == w {
      QuotientUnique(w, s, (w + (s - 1)) / s, 0);
    }
  }

  /** The elapsed time, rounded, right after the wait. */
  lemma RoundedAfterWait(l: Limits, d: Dir, size: int, now: int, t: int)
    requires InRange(l, d, size, now, t) && !WithinBps(l, d, size, now) && t == now + BpsWait(l, d, size, now)
    ensures var w := ExtraWait(l, d, size, now);
            ElapsedRounded(l, d, t) == ElapsedRounded(l, d, now) + Roundup(w, l.Slice()) && w >= 1
  {
    BpsWaitValue(l, d, size, now, t);
    ElapsedBounds(l, d, now);
    var e := if now == d.start then l.Slice() else now - d.start;
    RoundupShift((e + (l.Slice() - 1)) / l.Slice(), ExtraWait(l, d, size, now), l.Slice());
  }

  /**
   Exactly when the wait itself is enough: when it is not a whole number of slices, or less than a
   jiffy was needed, or the fraction of a byte dropped from the allowance makes up for the fraction
   of a jiffy dropped from the wait.
   */
  lemma BpsWaitSufficesIff(l: Limits, d: Dir, size: int, now: int, t: int)
    requires InRange(l, d, size, now, t) && !WithinBps(l, d, size, now) && t == now + BpsWait(l, d, size, now)
    ensures var extra := Extra(l, d, size, now);
            WithinBps(l, d, size, t) <==>
            (ExtraWait(l, d, size, now) % l.Slice() != 0 || extra * l.hz < l.bps ||
             extra * l.hz % l.bps <= l.bps * ElapsedRounded(l, d, now) % l.hz)
  {
    var rnd, extra, w := ElapsedRounded(l, d, now), Extra(l, d, size, now), ExtraWait(l, d, size, now);
    RoundedAfterWait(l, d, size, now, t);
    NeedSplit(l, d, size, now, t);
    AllowedReaches(l, d, t, d.bytes + size);
    SmallMod(d.bytes + size, U64);
    RoundupExact(w, l.Slice());
    Distribute(rnd, Roundup(w, l.Slice()), l.bps);
    BpsWaitValue(l, d, size, now, t);
    EnoughIff(extra * l.hz, l.bps, l.bps * rnd % l.hz, w, Roundup(w, l.Slice()));
  }

  /** Whether `rate` times the rounded wait, with a rest of `fraction`, reaches `x`. */
  lemma EnoughIff(x: int, rate: int, fraction: int, w: int, rounded: int)
    requires 0 <= x && 0 < rate && 0 <= fraction && w == Max(x / rate, 1) && (rounded == w || rounded > w)
    ensures fraction + rate * rounded >= x <==> (rounded > w || x < rate || x % rate <= fraction)
  {
    DivBounds(x, rate);
    assert x == x / rate * rate + x % rate;
    if rounded > w {
      QuotientPlusOne(x, rate);
      MulLe(x / rate + 1, rounded, rate);
    } else if x < rate {
      assert rate * rounded == rate;
    }
  }

  /**
   In the running system: a bio refused for its bytes is looked at again after the wait; then it
   is within the byte limit, or it is one jiffy later, and the slice still runs at that time.
   */
  lemma BpsWaitShortByOne(l: Limits, d: Dir, size: int, now: int)
    requires l.Valid() && !l.Unlimited() && !WithinBps(l, Renew(l, d, now), size, now)
    requires var v := MayDispatch(l, d, size, now);
             InRange(l, v.dir, size, now, now + v.wait + 1)
    ensures var v := MayDispatch(l, d, size, now);
            var t := now + v.wait;
            var u := MayDispatch(l, v.dir, size, t);
            && !v.may
            && (WithinBps(l, Renew(l, v.dir, t), size, t) ||
                (!u.may && WithinBps(l, u.dir, size, t + 1) && t + 1 <= u.dir.end))
  {
    var v := MayDispatch(l, d, size, now);
    var t := now + v.wait;
    RefusalCoversWait(l, d, size, now);
    StillRunning(l, v.dir, t);
    SameLimit(l, Renew(l, d, now), v.dir, size, now);
    BpsWaitAndAJiffy(l, v.dir, size, now, t + 1);
    var u := MayDispatch(l, v.dir, size, t);
    if !u.may {
      RefusalCoversWait(l, v.dir, size, t);
      SameLimit(l, v.dir, u.dir, size, t + 1);
    }
  }

  /**
   A family of waits that are short: a fresh slice grants a whole number of bytes, and the bio needs
   a whole number of slices and a fraction of a jiffy more.
   */
  ghost predicate Short(l: Limits, d: Dir, size: int, now: int, granted: int, w: int, r: int) {
    && l.Valid() && !l.Unlimited() && d.start == now && d.bytes == 0 && d.end >= now + l.Slice()
    && 0 <= granted < size && l.bps * l.Slice() == granted * l.hz
    && (size - granted) * l.hz == w * l.bps + r && 0 < r < l.bps && 1 <= w && w % l.Slice() == 0
    && size * l.hz < U64 && size * l.hz < ULONG * l.bps && l.bps * (l.Slice() + w) < U64
  }

  lemma ShortAllowed(l: Limits, d: Dir, size: int, now: int, granted: int, w: int, r: int)
    requires Short(l, d, size, now, granted, w, r)
    ensures ElapsedRounded(l, d, now) == l.Slice() && BytesAllowed(l, d, now) == granted
    ensures l.bps * l.Slice() < U64 && l.bps * l.Slice() % l.hz == 0
  {
    RoundupSelf(l.Slice());
    MulLe(l.Slice(), l.Slice() + w, l.bps);
    MulLe(0, l.Slice(), l.bps);
    SmallMod(l.bps * l.Slice(), U64);
    QuotientUnique(l.bps * l.Slice(), l.hz, granted, 0);
  }

  lemma ShortExtra(l: Limits, d: Dir, size: int, now: int, granted: int, w: int, r: int)
    requires Short(l, d, size, now, granted, w, r)
    ensures Extra(l, d, size, now) == size - granted && ExtraWait(l, d, size, now) == w
    ensures (size - granted) * l.hz >= l.bps && (size - granted) * l.hz % l.bps == r
  {
    ShortAllowed(l, d, size, now, granted, w, r);
    QuotientUnique((size - granted) * l.hz, l.bps, w, r);
    MulLe(1, w, l.bps);
  }

  lemma ShortElapsed(l: Limits, d: Dir, size: int, now: int, granted: int, w: int, r: int)
    requires Short(l, d, size, now, granted, w, r)
    ensures ElapsedRounded(l, d, now + l.Slice() + w) == l.Slice() + w
  {
    RoundupShift(1, w, l.Slice());
    RoundupExact(w, l.Slice());
  }

  lemma ShortInRange(l: Limits, d: Dir, size: int, now: int, granted: int, w: int, r: int)
    requires Short(l, d, size, now, granted, w, r)
    ensures InRange(l, d, size, now, now + l.Slice() + w) && !WithinBps(l, d, size, now)
  {
    ShortAllowed(l, d, size, now, granted, w, r);
    ShortElapsed(l, d, size, now, granted, w, r);
    MulLe(1, l.hz, size);
    SmallMod(size, U64);
  }

  lemma ShortStill(l: Limits, d: Dir, size: int, now: int, granted: int, w: int, r: int)
    requires Short(l, d, size, now, granted, w, r)
    ensures BpsWait(l, d, size, now) == l.Slice() + w
    ensures !WithinBps(l, d, size, now) && !WithinBps(l, d, size, now + l.Slice() + w)
  {
    ShortAllowed(l, d, size, now, granted, w, r);
    ShortExtra(l, d, size, now, granted, w, r);
    ShortInRange(l, d, size, now, granted, w, r);
    BpsWaitValue(l, d, size, now, now + l.Slice() + w);
    BpsWaitSufficesIff(l, d, size, now, now + l.Slice() + w);
  }

  /** Such a bio is refused again at the end of the wait it was given. */
  lemma BpsWaitTooShort(l: Limits, d: Dir, size: int, now: int, granted: int, w: int, r: int)
    requires Short(l, d, size, now, granted, w, r)
    ensures var v := MayDispatch(l, d, size, now);
            !v.may && v.wait == l.Slice() + w && !MayDispatch(l, v.dir, size, now + v.wait).may
  {
    ShortStill(l, d, size, now, granted, w, r);
    var v, t := MayDispatch(l, d, size, now), now + l.Slice() + w;
    assert Renew(l, d, now) == d;
    RefusalCoversWait(l, d, size, now);
    StillRunning(l, v.dir, t);
    SameLimit(l, d, Renew(l, v.dir, t), size, t);
  }

  /** At 2550 bytes a second, a sector is told to wait 20 jiffies of 10 ms, and refused then: 510 bytes are allowed. */
  lemma BpsWaitTooShortAt()
    ensures var l, d := Limits(100, 2550, 1000), Dir(0, 0, 0, 10);
            var v := MayDispatch(l, d, 512, 0);
            !v.may && v.wait == 20 && !MayDispatch(l, v.dir, 512, 20).may
  {
    var l, d := Limits(100, 2550, 1000), Dir(0, 0, 0, 10);
    assert Short(l, d, 512, 0, 255, 10, 200);
    BpsWaitTooShort(l, d, 512, 0, 255, 10, 200);
  }
}
