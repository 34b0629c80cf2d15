/**
 The rate limit holds over whole runs: what a direction of a group has dispatched since its first
 slice started never exceeds what the limit grants for that time plus one slice, however slices are
 started, extended and trimmed, and whatever is lost by rounding or by 64-bit wrap-around.
 */
module ThrottleRate {
  import opened Throttle

  lemma MulLe(a: int, b: int, c: int)
    requires a <= b && 0 <= c
    ensures a * c <= b * c && c * a <= c * b
  {
  }

  lemma Distribute(a: int, b: int, c: int)
    ensures (a + b) * c == a * c + b * c && c * (a + b) == c * a + c * b
  {
  }

  lemma DivBounds(x: int, h: int)
    requires 0 < h && 0 <= x
    ensures 0 <= x / h
    ensures 0 <= x / h * h <= x < x / h * h + h
  {
  }

  lemma DivMod(x: int, h: int)
    requires 0 < h
    ensures x == x / h * h + x % h
  {
  }

  lemma QuotientUnique(x: int, y: int, q: int, m: int)
    requires 0 < y && 0 <= m < y && x == q * y + m
    ensures x / y == q && x % y == m
  {
    DivMod(x, y);
    if x / y < q {
      MulLe(x / y + 1, q, y);
      Distribute(x / y, 1, y);
    } else if x / y > q {
      MulLe(q + 1, x / y, y);
      Distribute(q, 1, y);
    }
  }

  lemma RoundupSelf(y: int)
    requires 0 < y
    ensures Roundup(y, y) == y
  {
    QuotientUnique(y + (y - 1), y, 1, y - 1);
  }

  lemma RoundupBounds(x: int, y: int)
    requires 0 < y && 0 <= x
    ensures x <= Roundup(x, y) < x + y
  {
    DivBounds(x + (y - 1), y);
  }

  /** An amount granted by a product that is reduced to a word and divided by `hz`. */
  lemma GrantBound(rate: int, time: int, word: int, hz: int)
    requires 0 < rate && 0 <= time && 0 < word && 0 < hz
    ensures 0 <= rate * time % word / hz
    ensures rate * time % word / hz * hz <= rate * time
    ensures rate * time % word / hz * hz < word
  {
    var x := rate * time;
    MulLe(0, time, rate);
    ModLe(x, word);
    DivBounds(x % word, hz);
  }

  lemma ModLe(x: int, m: int)
    requires 0 <= x && 0 < m
    ensures 0 <= x % m <= x
  {
    DivBounds(x, m);
    assert x == x / m * m + x % m;
  }

  lemma ElapsedBounds(l: Limits, d: Dir, now: int)
    requires l.Valid() && d.start <= now
    ensures 0 <= now - d.start <= ElapsedRounded(l, d, now) <= now - d.start + l.Slice()
    ensures 0 < ElapsedRounded(l, d, now)
  {
    if now == d.start {
      RoundupSelf(l.Slice());
    } else {
      RoundupBounds(now - d.start, l.Slice());
    }
  }

  lemma RoundupMultiple(k: int, s: int)
    requires 0 < s
    ensures Roundup(k * s, s) == k * s
  {
    QuotientUnique(k * s + (s - 1), s, k, s - 1);
  }

  /** After `k` whole slices nothing is rounded. */
  lemma WholeSlices(l: Limits, d: Dir, k: int, now: int)
    requires l.Valid() && 0 <= k && now == d.start + k * l.Slice()
    ensures ElapsedRounded(l, d, now) == Max(k, 1) * l.Slice()
  {
    RoundupMultiple(k, l.Slice());
    RoundupSelf(l.Slice());
    if k >= 1 {
      MulLe(1, k, l.Slice());
    }
  }

  // ---------------------------------------------------------------------------
  // The account of one limit
  // ---------------------------------------------------------------------------

  /** One of the two limits: its rate, the counter of the current slice, and all that was dispatched. */
  datatype Meter = Meter(rate: int, disp: int, total: int)

  ghost function BytesMeter(l: Limits, r: Run): Meter {
    Meter(l.bps, r.dir.bytes, r.bytes)
  }

  /** The I/Os, less what the 32-bit counter has lost in `wraps` wrap-arounds. */
  ghost function IosMeter(l: Limits, r: Run, wraps: int): Meter {
    Meter(l.iops, r.dir.ios, r.ios - U32 * wraps)
  }

  /** `total`, in units of 1/hz, is no more than what `rate` grants from `t0` to `until`. */
  ghost predicate Granted(l: Limits, m: Meter, t0: int, until: int) {
    m.total * l.hz <= m.rate * (until - t0)
  }

  /**
   The account at time `last`, when the first slice started at `t0` and the current slice is that
   of `d`: the counter covers whatever the time before the current slice does not grant, and the
   whole is granted both by the end of the current slice and within a slice from now.
   */
  ghost predicate Balanced(l: Limits, m: Meter, d: Dir, t0: int, last: int) {
    && l.Valid() && 0 < m.rate
    && 0 <= t0 <= d.start <= last <= d.end
    && 0 <= m.disp <= m.total
    && m.total * l.hz <= m.rate * (d.start - t0) + m.disp * l.hz
    && Granted(l, m, t0, d.end)
    && Granted(l, m, t0, last + l.Slice())
  }

  /** More time only grants more. */
  lemma Later(l: Limits, m: Meter, t0: int, a: int, b: int)
    requires Granted(l, m, t0, a) && a <= b && 0 < m.rate
    ensures Granted(l, m, t0, b)
  {
    MulLe(a - t0, b - t0, m.rate);
  }

  lemma NewSliceBalanced(l: Limits, m: Meter, d: Dir, t0: int, last: int, now: int)
    requires Balanced(l, m, d, t0, last) && d.end < now
    ensures Balanced(l, m.(disp := 0), NewSlice(l, now), t0, now)
  {
    Later(l, m, t0, d.end, now);
    Later(l, m, t0, now, now + l.Slice());
  }

  lemma LongerBalanced(l: Limits, m: Meter, d: Dir, t0: int, last: int, now: int, end: int)
    requires Balanced(l, m, d, t0, last) && last <= now <= end && d.end <= end
    ensures Balanced(l, m, d.(end := end), t0, now)
  {
    Later(l, m, t0, d.end, end);
    Later(l, m, t0, last + l.Slice(), now + l.Slice());
  }

  /** Charging `n` more when the counter stays within what the elapsed time and a slice grant. */
  lemma ChargeBalanced(l: Limits, m: Meter, d: Dir, t0: int, now: int, n: int)
    requires Balanced(l, m, d, t0, now) && d.end >= now + l.Slice() && 0 <= n
    requires (m.disp + n) * l.hz <= m.rate * (now - d.start + l.Slice())
    ensures Balanced(l, Meter(m.rate, m.disp + n, m.total + n), d, t0, now)
  {
    var m' := Meter(m.rate, m.disp + n, m.total + n);
    Distribute(m.total, n, l.hz);
    Distribute(m.disp, n, l.hz);
    Distribute(d.start - t0, now - d.start + l.Slice(), m.rate);
    assert d.start - t0 + (now - d.start + l.Slice()) == now + l.Slice() - t0;
    Later(l, m', t0, now + l.Slice(), d.end);
  }

  /** A slice that starts `gone` later, its counter less at most what `gone` grants. */
  lemma TrimBalanced(l: Limits, m: Meter, d: Dir, t0: int, now: int, gone: int, trim: int, end: int)
    requires Balanced(l, m, d, t0, now) && end >= now + l.Slice()
    requires 0 <= gone && d.start + gone <= now
    requires 0 <= trim && trim * l.hz <= m.rate * gone
    ensures Balanced(l, m.(disp := Max(m.disp - trim, 0)), d.(start := d.start + gone, end := end), t0, now)
  {
    var rest := Max(m.disp - trim, 0);
    MulLe(m.disp - trim, rest, l.hz);
    Distribute(m.disp - trim, trim, l.hz);
    Distribute(d.start - t0, gone, m.rate);
    assert d.start - t0 + gone == d.start + gone - t0;
    Later(l, m, t0, now + l.Slice(), end);
  }

  lemma Regroup(a: int, b: int, c: int)
    ensures a * b * c == a * (c * b)
  {
  }

  /** What throtl_trim_slice takes off a counter is granted by the slices it takes off the time. */
  lemma TrimGrant(rate: int, slice: int, slices: int, word: int, hz: int)
    requires 0 < rate && 0 < slice && 0 <= slices && 0 < word && 0 < hz
    ensures 0 <= rate * slice * slices % word / hz
    ensures rate * slice * slices % word / hz * hz <= rate * (slices * slice)
  {
    MulLe(1, slice, rate);
    GrantBound(rate * slice, slices, word, hz);
    Regroup(rate, slice, slices);
  }

  // ---------------------------------------------------------------------------
  // Every step keeps both accounts
  // ---------------------------------------------------------------------------

  /** Both accounts, when the counter of I/Os has wrapped around `wraps` times. */
  ghost predicate Books(l: Limits, r: Run, t0: int, last: int, wraps: int) {
    && Balanced(l, BytesMeter(l, r), r.dir, t0, last)
    && r.dir.bytes * l.hz < U64
    && Balanced(l, IosMeter(l, r, wraps), r.dir, t0, last)
    && r.dir.ios < U32
  }

  /** A direction whose slice has been renewed at `now` has a slice that lasts. */
  lemma RenewBooks(l: Limits, r: Run, t0: int, last: int, now: int, wraps: int)
    requires Books(l, r, t0, last, wraps) && last <= now
    ensures Books(l, r.(dir := Renew(l, r.dir, now)), t0, now, wraps)
    ensures Renew(l, r.dir, now).end >= now + l.Slice()
  {
    RoundupBounds(now + l.Slice(), l.Slice());
    if r.dir.end < now {
      NewSliceBalanced(l, BytesMeter(l, r), r.dir, t0, last, now);
      NewSliceBalanced(l, IosMeter(l, r, wraps), r.dir, t0, last, now);
    } else {
      LongerBalanced(l, BytesMeter(l, r), r.dir, t0, last, now, Renew(l, r.dir, now).end);
      LongerBalanced(l, IosMeter(l, r, wraps), r.dir, t0, last, now, Renew(l, r.dir, now).end);
    }
  }

  /** An allowance is at most the rate times the elapsed time and one slice. */
  lemma AllowedBound(l: Limits, d: Dir, now: int, rate: int)
    requires l.Valid() && d.start <= now && 0 < rate
    ensures var allowed := rate * ElapsedRounded(l, d, now) % U64 / l.hz;
            0 <= allowed && allowed * l.hz <= rate * (now - d.start + l.Slice()) && allowed * l.hz < U64
  {
    ElapsedBounds(l, d, now);
    GrantBound(rate, ElapsedRounded(l, d, now), U64, l.hz);
    MulLe(ElapsedRounded(l, d, now), now - d.start + l.Slice(), rate);
  }

  /** The byte counter of a slice stays far from wrapping around. */
  lemma NoByteWrap(bytes: int, size: int, hz: int)
    requires 0 <= bytes && bytes * hz < U64 && hz >= 10 && 0 <= size < U32
    ensures (bytes + size) % U64 == bytes + size
  {
    MulLe(10, hz, bytes);
  }

  lemma ChargeBytes(l: Limits, r: Run, t0: int, now: int, size: int, wraps: int)
    requires Books(l, r, t0, now, wraps) && r.dir.end >= now + l.Slice()
    requires 0 <= size < U32 && WithinBps(l, r.dir, size, now)
    ensures Charge(r.dir, size).bytes == r.dir.bytes + size
    ensures Balanced(l, Meter(l.bps, r.dir.bytes + size, r.bytes + size), r.dir, t0, now)
    ensures (r.dir.bytes + size) * l.hz < U64
  {
    NoByteWrap(r.dir.bytes, size, l.hz);
    AllowedBound(l, r.dir, now, l.bps);
    MulLe(r.dir.bytes + size, BytesAllowed(l, r.dir, now), l.hz);
    ChargeBalanced(l, BytesMeter(l, r), r.dir, t0, now, size);
  }

  /** The counter of I/Os is full: charging one more takes it to zero. */
  predicate Full(d: Dir) {
    d.ios == UINT_MAX
  }

  lemma ChargeIos(l: Limits, m: Meter, d: Dir, t0: int, now: int)
    requires Balanced(l, m, d, t0, now) && d.end >= now + l.Slice() && m.rate == l.iops && m.disp == d.ios
    requires d.ios < UINT_MAX && WithinIops(l, d, now)
    ensures Balanced(l, Meter(m.rate, m.disp + 1, m.total + 1), d, t0, now)
  {
    var allowed := l.iops * ElapsedRounded(l, d, now) % U64 / l.hz;
    AllowedBound(l, d, now, l.iops);
    MulLe(d.ios + 1, allowed, l.hz);
    ChargeBalanced(l, m, d, t0, now, 1);
  }

  /** What a wrap-around takes off the counter, it takes off the account. */
  lemma WrapBalanced(l: Limits, m: Meter, d: Dir, t0: int, now: int, lost: int)
    requires Balanced(l, m, d, t0, now) && 0 <= lost <= m.disp
    ensures Balanced(l, Meter(m.rate, m.disp - lost, m.total - lost), d, t0, now)
  {
    Distribute(m.total, -lost, l.hz);
    Distribute(m.disp, -lost, l.hz);
    MulLe(0, lost, l.hz);
  }

  lemma CountIos(l: Limits, r: Run, t0: int, now: int, size: int, wraps: int)
    requires Books(l, r, t0, now, wraps) && r.dir.end >= now + l.Slice() && WithinIops(l, r.dir, now)
    ensures var r1 := Run(Charge(r.dir, size), r.bytes + size, r.ios + 1);
            && Balanced(l, IosMeter(l, r1, wraps + if Full(r.dir) then 1 else 0), r1.dir, t0, now)
            && r1.dir.ios < U32
  {
    var m := IosMeter(l, r, wraps);
    if Full(r.dir) {
      WrapBalanced(l, m, r.dir, t0, now, UINT_MAX);
      assert r.ios + 1 - U32 * (wraps + 1) == m.total - UINT_MAX;
    } else {
      ChargeIos(l, m, r.dir, t0, now);
    }
  }

  /** A slice trimmed by `gone` and by no more than that grants, of either. */
  lemma TrimmedBooks(l: Limits, r: Run, t0: int, now: int, wraps: int, gone: int, bytesTrim: int, ioTrim: int, end: int)
    requires Books(l, r, t0, now, wraps) && end >= now + l.Slice() && 0 <= gone && r.dir.start + gone <= now
    requires 0 <= bytesTrim && bytesTrim * l.hz <= l.bps * gone && 0 <= ioTrim && ioTrim * l.hz <= l.iops * gone
    ensures var d := Dir(Max(r.dir.bytes - bytesTrim, 0), Max(r.dir.ios - ioTrim, 0), r.dir.start + gone, end);
            Books(l, r.(dir := d), t0, now, wraps)
  {
    MulLe(Max(r.dir.bytes - bytesTrim, 0), r.dir.bytes, l.hz);
    TrimBalanced(l, BytesMeter(l, r), r.dir, t0, now, gone, bytesTrim, end);
    TrimBalanced(l, IosMeter(l, r, wraps), r.dir, t0, now, gone, ioTrim, end);
  }

  lemma TrimBooks(l: Limits, r: Run, t0: int, now: int, wraps: int)
    requires Books(l, r, t0, now, wraps)
    ensures Books(l, r.(dir := Trim(l, r.dir, now)), t0, now, wraps)
  {
    var slices := (now - r.dir.start) / l.Slice();
    var bytesTrim := l.bps * l.Slice() * slices % U64 / l.hz;
    var ioTrim := l.iops * l.Slice() * slices % ULONG / l.hz;
    var end := Roundup(now + l.Slice(), l.Slice());
    RoundupBounds(now + l.Slice(), l.Slice());
    if slices == 0 || (bytesTrim == 0 && ioTrim == 0) {
      TrimmedBooks(l, r, t0, now, wraps, 0, 0, 0, end);
    } else {
      DivBounds(now - r.dir.start, l.Slice());
      TrimGrant(l.bps, l.Slice(), slices, U64, l.hz);
      TrimGrant(l.iops, l.Slice(), slices, ULONG, l.hz);
      TrimmedBooks(l, r, t0, now, wraps, slices * l.Slice(), bytesTrim, ioTrim, end);
    }
  }

  /** A dispatch: charge the bio, then trim. */
  lemma DispatchBooks(l: Limits, r: Run, t0: int, now: int, size: int, wraps: int)
    requires Books(l, r, t0, now, wraps) && r.dir.end >= now + l.Slice()
    requires 0 <= size < U32 && WithinBps(l, r.dir, size, now) && WithinIops(l, r.dir, now)
    ensures Books(l, Run(Trim(l, Charge(r.dir, size), now), r.bytes + size, r.ios + 1), t0, now,
                  wraps + if Full(r.dir) then 1 else 0)
  {
    var r1 := Run(Charge(r.dir, size), r.bytes + size, r.ios + 1);
    var wraps1 := wraps + if Full(r.dir) then 1 else 0;
    assert Books(l, r1, t0, now, wraps1) by {
      ChargeBytes(l, r, t0, now, size, wraps);
      CountIos(l, r, t0, now, size, wraps);
    }
    TrimBooks(l, r1, t0, now, wraps1);
  }

  /** The step dispatches a bio with the counter of I/Os full. */
  predicate WrapsAt(l: Limits, r: Run, e: Event)
    requires l.Valid()
  {
    MayDispatch(l, r.dir, e.size, e.now).may && e.dispatch && Full(Renew(l, r.dir, e.now))
  }

  /** A step, once the slice has been renewed. */
  lemma StepBooks(l: Limits, r: Run, t0: int, e: Event, wraps: int)
    requires l.Valid() && !l.Unlimited() && 0 <= e.size < U32
    requires Books(l, r.(dir := Renew(l, r.dir, e.now)), t0, e.now, wraps)
    requires Renew(l, r.dir, e.now).end >= e.now + l.Slice()
    ensures Books(l, Step(l, r, e), t0, e.now, wraps + if WrapsAt(l, r, e) then 1 else 0)
  {
    var r1 := r.(dir := Renew(l, r.dir, e.now));
    var v := MayDispatch(l, r.dir, e.size, e.now);
    if v.may && e.dispatch {
      DispatchBooks(l, r1, t0, e.now, e.size, wraps);
    } else if !v.may {
      if r1.dir.end < e.now + v.wait {
        RoundupBounds(e.now + v.wait, l.Slice());
      }
      LongerBalanced(l, BytesMeter(l, r1), r1.dir, t0, e.now, e.now, v.dir.end);
      LongerBalanced(l, IosMeter(l, r1, wraps), r1.dir, t0, e.now, e.now, v.dir.end);
    }
  }

  // ---------------------------------------------------------------------------
  // Whole runs
  // ---------------------------------------------------------------------------

  /** The first look at a group opens its first slice. */
  lemma FirstBooks(l: Limits, now: int)
    requires l.Valid() && 0 <= now
    ensures var d := Renew(l, Dir(0, 0, 0, 0), now);
            Books(l, Run(d, 0, 0), now, now, 0) && d.end >= now + l.Slice()
  {
    RoundupBounds(now + l.Slice(), l.Slice());
    var d := Renew(l, Dir(0, 0, 0, 0), now);
    MulLe(0, d.end - now, l.bps);
    MulLe(0, d.end - now, l.iops);
    MulLe(0, l.Slice(), l.bps);
    MulLe(0, l.Slice(), l.iops);
    assert d.start - now == 0;
  }

  /** How often the counter of I/Os wraps around in a run. */
  function Wraps(l: Limits, events: seq<Event>): nat
    requires l.Valid()
  {
    if events == [] then 0
    else
      var init, e := events[..|events| - 1], events[|events| - 1];
      Wraps(l, init) + if WrapsAt(l, Play(l, init), e) then 1 else 0
  }

  lemma {:induction false} PlayBooks(l: Limits, events: seq<Event>)
    requires l.Valid() && !l.Unlimited() && Timed(events) && events != []
    ensures Books(l, Play(l, events), events[0].now, events[|events| - 1].now, Wraps(l, events))
  {
    var init, e := events[..|events| - 1], events[|events| - 1];
    var r := Play(l, init);
    if init == [] {
      FirstBooks(l, e.now);
    } else {
      var last := events[|events| - 2];
      assert init[0] == events[0] && init[|init| - 1] == last;
      PlayBooks(l, init);
      RenewBooks(l, r, events[0].now, last.now, e.now, Wraps(l, init));
    }
    StepBooks(l, r, events[0].now, e, Wraps(l, init));
  }

  lemma AtMost(total: int, hz: int, grant: int)
    requires 0 < hz && total * hz <= grant && 0 <= grant
    ensures total <= grant / hz
  {
    DivBounds(grant, hz);
    if total > grant / hz {
      MulLe(grant / hz + 1, total, hz);
      Distribute(grant / hz, 1, hz);
    }
  }

  lemma GrantedUntil(l: Limits, m: Meter, d: Dir, t0: int, last: int, t: int)
    requires Balanced(l, m, d, t0, last) && last <= t
    ensures m.total <= m.rate * (t - t0 + l.Slice()) / l.hz
  {
    Later(l, m, t0, last + l.Slice(), t + l.Slice());
    MulLe(0, t - t0 + l.Slice(), m.rate);
    assert t + l.Slice() - t0 == t - t0 + l.Slice();
    AtMost(m.total, l.hz, m.rate * (t - t0 + l.Slice()));
  }

  /**
   The byte limit: from the start of the first slice up to any time `t`, no more bytes are
   dispatched than the limit grants for that time and one slice.
   */
  lemma ByteRate(l: Limits, events: seq<Event>, t: int)
    requires l.Valid() && !l.Unlimited() && Timed(events) && events != [] && events[|events| - 1].now <= t
    ensures Play(l, events).bytes <= l.bps * (t - events[0].now + l.Slice()) / l.hz
  {
    PlayBooks(l, events);
    var r := Play(l, events);
    GrantedUntil(l, BytesMeter(l, r), r.dir, events[0].now, events[|events| - 1].now, t);
  }

  /**
   The I/O limit, likewise, for every run: the bound is exceeded by no more than what the 32-bit
   counter of the slice loses in its wrap-arounds.
   */
  lemma IoRate(l: Limits, events: seq<Event>, t: int)
    requires l.Valid() && !l.Unlimited() && Timed(events) && events != [] && events[|events| - 1].now <= t
    ensures Play(l, events).ios <= l.iops * (t - events[0].now + l.Slice()) / l.hz + U32 * Wraps(l, events)
  {
    PlayBooks(l, events);
    var r := Play(l, events);
    GrantedUntil(l, IosMeter(l, r, Wraps(l, events)), r.dir, events[0].now, events[|events| - 1].now, t);
  }
}
