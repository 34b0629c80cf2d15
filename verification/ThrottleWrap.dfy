/**
 When the I/O counter of a slice can wrap around: only once the allowance is as large as the
 counter can hold.  Until then the I/O limit holds at all times; after that it need not.
 */
module ThrottleWrap {
  import opened Throttle
  import opened ThrottleRate
  import opened ThrottleWait

  /** No look of the run finds an allowance that tg_with_in_iops_limit has to cut to 32 bits. */
  ghost predicate Unsaturated(l: Limits, events: seq<Event>)
    requires l.Valid()
  {
    forall n: nat :: n < |events| ==> AllowedAt(l, events, n) < UINT_MAX
  }

  /** The I/Os allowed at the n-th look. */
  function AllowedAt(l: Limits, events: seq<Event>, n: nat): int
    requires l.Valid() && n < |events|
  {
    IosAllowed(l, Renew(l, Play(l, events[..n]).dir, events[n].now), events[n].now)
  }

  lemma UnsaturatedPrefix(l: Limits, events: seq<Event>)
    requires l.Valid() && events != [] && Unsaturated(l, events)
    ensures Unsaturated(l, events[..|events| - 1])
  {
    var init := events[..|events| - 1];
    forall n: nat | n < |init| ensures AllowedAt(l, init, n) < UINT_MAX {
      assert init[..n] == events[..n];
      assert AllowedAt(l, events, n) < UINT_MAX;
    }
  }

  lemma TrimIos(l: Limits, d: Dir, now: int)
    requires l.Valid() && 0 <= d.ios && d.start <= now
    ensures 0 <= Trim(l, d, now).ios <= d.ios
  {
    var slices := (now - d.start) / l.Slice();
    DivBounds(now - d.start, l.Slice());
    TrimGrant(l.iops, l.Slice(), slices, ULONG, l.hz);
  }

  lemma StepIos(l: Limits, r: Run, e: Event)
    requires l.Valid() && !l.Unlimited() && 0 <= r.dir.ios < UINT_MAX
    requires IosAllowed(l, Renew(l, r.dir, e.now), e.now) < UINT_MAX
    ensures 0 <= Step(l, r, e).dir.ios < UINT_MAX && !WrapsAt(l, r, e)
  {
    var d := Charge(Renew(l, r.dir, e.now), e.size);
    if d.start <= e.now {
      TrimIos(l, d, e.now);
    }
  }

  /** While no allowance is cut, no dispatch finds the counter full. */
  lemma {:induction false} UnsaturatedNoWraps(l: Limits, events: seq<Event>)
    requires l.Valid() && !l.Unlimited() && Unsaturated(l, events)
    ensures 0 <= Play(l, events).dir.ios < UINT_MAX && Wraps(l, events) == 0
  {
    if events != [] {
      var init, n := events[..|events| - 1], |events| - 1;
      UnsaturatedPrefix(l, events);
      UnsaturatedNoWraps(l, init);
      assert AllowedAt(l, events, n) < UINT_MAX;
      StepIos(l, Play(l, init), events[n]);
    }
  }

  /** The I/O limit at all times, while no look finds the allowance cut. */
  lemma IoRateUnsaturated(l: Limits, events: seq<Event>, t: int)
    requires l.Valid() && !l.Unlimited() && Timed(events) && events != [] && events[|events| - 1].now <= t
    requires Unsaturated(l, events)
    ensures Play(l, events).ios <= l.iops * (t - events[0].now + l.Slice()) / l.hz
  {
    UnsaturatedNoWraps(l, events);
    IoRate(l, events, t);
  }

  /** A full counter is within any limit: one more I/O makes it zero. */
  lemma FullPasses(l: Limits, d: Dir, now: int)
    requires l.Valid() && d.start <= now && Full(d)
    ensures WithinIops(l, d, now)
  {
    AllowedBound(l, d, now, l.iops);
    QuotientUnique(UINT_MAX + 1, U32, 1, 0);
  }

  // ---------------------------------------------------------------------------
  // A run in which it is cut, and the limit exceeded
  // ---------------------------------------------------------------------------

  /** Empty bios: one in each slice for two seconds, and then all at once. */
  function FloodAt(i: nat): Event {
    Event(0, if i < 20 then 10 * i else 200, true)
  }

  function Flood(m: nat): seq<Event> {
    seq(m, i requires i >= 0 => FloodAt(i))
  }

  lemma FloodLast(m: nat)
    requires m > 0
    ensures Flood(m)[..m - 1] == Flood(m - 1) && Flood(m)[m - 1] == FloodAt(m - 1)
  {
  }

  lemma WideIos(k: int)
    requires 1 <= k <= 20
    ensures 2000 <= 0x8000_0000 * (k * 10) < U64 && (k == 20 ==> UINT_MAX * 100 <= 0x8000_0000 * (k * 10))
  {
  }

  lemma WordIos(ios: int)
    requires 0 <= ios < U32
    ensures 0 <= (ios + 1) % U32 <= UINT_MAX && (ios < 20 ==> (ios + 1) % U32 == ios + 1)
  {
  }

  /** An empty bio is within both limits when the counter is within what the elapsed time grants. */
  lemma WithinBoth(l: Limits, d: Dir, now: int, rnd: int, allowed: int)
    requires l.Valid() && ElapsedRounded(l, d, now) == rnd && 0 <= rnd && d.bytes == 0
    requires 0 <= l.iops * rnd < U64 && allowed * l.hz <= l.iops * rnd && (d.ios + 1) % U32 <= allowed <= UINT_MAX
    ensures WithinBps(l, d, 0, now) && WithinIops(l, d, now)
  {
    GrantBound(l.bps, rnd, U64, l.hz);
    SmallMod(l.iops * rnd, U64);
    AtLeast(allowed, l.hz, l.iops * rnd);
    SmallMod(0, U64);
  }

  ghost predicate Wide(l: Limits) {
    l.Valid() && l.hz == 100 && l.bps == 0x8000_0000_0000_0000 && l.iops == 0x8000_0000 && l.Slice() == 10
  }

  lemma WideWithin(l: Limits, d: Dir, k: int)
    requires Wide(l) && d.start == 0 && 0 <= k <= 20 && d.bytes == 0 && 0 <= d.ios < U32 && (k < 20 ==> d.ios < 20)
    ensures WithinBps(l, d, 0, 10 * k) && WithinIops(l, d, 10 * k)
  {
    WholeSlices(l, d, k, 10 * k);
    WideIos(Max(k, 1));
    WordIos(d.ios);
    WithinBoth(l, d, 10 * k, Max(k, 1) * 10, if k == 20 then UINT_MAX else 20);
  }

  /** What would be trimmed is a multiple of the word: nothing is, and the slice goes on from its start. */
  lemma WideTrim(l: Limits, d: Dir, k: int)
    requires Wide(l) && 0 <= k && d.start == 0 && d.end == 10 * (k + 1)
    ensures Trim(l, d, 10 * k) == d
  {
    RoundupMultiple(k + 1, 10);
    QuotientUnique(10 * k, 10, k, 0);
    QuotientUnique(l.bps * 10 * k, U64, 5 * k, 0);
    QuotientUnique(l.iops * 10 * k, ULONG, 5 * k, 0);
  }

  /** An empty bio at a multiple of the slice is dispatched, and the slice made to last one slice more. */
  lemma FloodLook(l: Limits, r: Run, k: nat)
    requires Wide(l) && k <= 20 && r.dir.bytes == 0 && 0 <= r.dir.ios < U32 && (k < 20 ==> r.dir.ios < 20)
    requires r.dir.start == 0 && r.dir.end in {10 * k, 10 * (k + 1)}
    ensures Step(l, r, Event(0, 10 * k, true)) ==
            Run(Dir(0, (r.dir.ios + 1) % U32, 0, 10 * (k + 1)), r.bytes, r.ios + 1)
  {
    RoundupMultiple(k + 1, 10);
    var d := r.dir.(end := 10 * (k + 1));
    assert Renew(l, r.dir, 10 * k) == d;
    WideWithin(l, d, k);
    SmallMod(0, U64);
    WideTrim(l, Charge(d, 0), k);
  }

  /** However many empty bios come, all are dispatched. */
  lemma {:induction false} FloodPlay(l: Limits, m: nat)
    requires Wide(l)
    ensures var r := Play(l, Flood(m));
            && r.ios == m && r.dir.bytes == 0 && r.dir.start == 0 && 0 <= r.dir.ios < U32
            && (m <= 20 ==> r.dir.ios == m) && r.dir.end == 10 * if m <= 20 then m else 21
  {
    if m > 0 {
      FloodLast(m);
      FloodPlay(l, m - 1);
      FloodLook(l, Play(l, Flood(m - 1)), if m <= 20 then m - 1 else 20);
      WordIos(Play(l, Flood(m - 1)).dir.ios);
    }
  }

  /** The I/O limit is exceeded, by as much as one likes, once the allowance is cut. */
  lemma IoRateFails(n: nat)
    requires n > 20
    ensures var l := Limits(100, 0x8000_0000_0000_0000, 0x8000_0000);
            && l.Valid() && !l.Unlimited() && Timed(Flood(n)) && Flood(n)[0].now == 0 && Flood(n)[n - 1].now == 200
            && Play(l, Flood(n)).ios == n
            && (n >= 4509715661 ==> Play(l, Flood(n)).ios > l.iops * (200 - 0 + l.Slice()) / l.hz)
  {
    FloodPlay(Limits(100, 0x8000_0000_0000_0000, 0x8000_0000), n);
  }
}
