/**
 Rate limiting of one direction of one throttle group (block/blk-throttle.c).

 A group may dispatch as much in the current slice as its rate allows for the time since the slice
 started, rounded up to whole slices.  Slices are started anew, extended and trimmed, and every
 product is computed in a fixed-width word.  Time is a count of jiffies that never runs backwards.
 */
module Throttle {

  const U64: int := 0x1_0000_0000_0000_0000
  const U32: int := 0x1_0000_0000
  const UINT_MAX: int := 0xFFFF_FFFF
  const ULONG: int := 0x1_0000_0000      // unsigned long has 32 bits on this machine

  /** The configured limits; `hz` is HZ. */
  datatype Limits = Limits(hz: int, bps: int, iops: int) {
    predicate Valid() {
      hz >= 10 && 0 < bps < U64 && 0 < iops < U32
    }

    /** throtl_slice */
    function Slice(): int {
      hz / 10
    }

    function Unlimited(): bool {
      bps == U64 - 1 && iops == U32 - 1
    }
  }

  /** bytes_disp, io_disp, slice_start and slice_end of one direction. */
  datatype Dir = Dir(bytes: int, ios: int, start: int, end: int)

  function Roundup(x: int, y: int): int
    requires y > 0
  {
    (x + (y - 1)) / y * y
  }

  function Min(a: int, b: int): int {
    if a < b then a else b
  }

  function Max(a: int, b: int): int {
    if a < b then b else a
  }

  // ---------------------------------------------------------------------------
  // Slices
  // ---------------------------------------------------------------------------

  /** throtl_start_new_slice */
  function NewSlice(l: Limits, now: int): Dir {
    Dir(0, 0, now, now + l.Slice())
  }

  /** throtl_extend_slice and throtl_set_slice_end */
  function SetSliceEnd(l: Limits, d: Dir, end: int): Dir
    requires l.Valid()
  {
    d.(end := Roundup(end, l.Slice()))
  }

  /** throtl_slice_used */
  predicate SliceUsed(d: Dir, now: int) {
    !(d.start <= now <= d.end)
  }

  /** throtl_trim_slice */
  function Trim(l: Limits, d: Dir, now: int): Dir
    requires l.Valid()
  {
    if SliceUsed(d, now) then d
    else
      var d1 := SetSliceEnd(l, d, now + l.Slice());
      var slices := (now - d.start) / l.Slice();
      var bytesTrim := l.bps * l.Slice() * slices % U64 / l.hz;
      var ioTrim := l.iops * l.Slice() * slices % ULONG / l.hz;
      if slices == 0 || (bytesTrim == 0 && ioTrim == 0) then d1
      else
        d1.(bytes := Max(d.bytes - bytesTrim, 0), ios := Max(d.ios - ioTrim, 0), start := d.start + slices * l.Slice())
  }

  // ---------------------------------------------------------------------------
  // The two limits
  // ---------------------------------------------------------------------------

  /** The time since the slice started, rounded up to whole slices, and at least one. */
  function ElapsedRounded(l: Limits, d: Dir, now: int): int
    requires l.Valid()
  {
    Roundup(if now == d.start then l.Slice() else now - d.start, l.Slice())
  }

  function BytesAllowed(l: Limits, d: Dir, now: int): int
    requires l.Valid()
  {
    l.bps * ElapsedRounded(l, d, now) % U64 / l.hz
  }

  function IosAllowed(l: Limits, d: Dir, now: int): int
    requires l.Valid()
  {
    Min(l.iops * ElapsedRounded(l, d, now) % U64 / l.hz, UINT_MAX)
  }

  /** The verdict of tg_with_in_bps_limit. */
  predicate WithinBps(l: Limits, d: Dir, size: int, now: int)
    requires l.Valid()
  {
    (d.bytes + size) % U64 <= BytesAllowed(l, d, now)
  }

  /** The wait computed by tg_with_in_bps_limit when it refuses. */
  function BpsWait(l: Limits, d: Dir, size: int, now: int): int
    requires l.Valid()
  {
    var extra := ((d.bytes + size) % U64 - BytesAllowed(l, d, now)) % U64;
    var wait := extra * l.hz % U64 / l.bps % ULONG;
    (if wait == 0 then 1 else wait) + (ElapsedRounded(l, d, now) - (now - d.start))
  }

  /** The verdict of tg_with_in_iops_limit. */
  predicate WithinIops(l: Limits, d: Dir, now: int)
    requires l.Valid()
  {
    (d.ios + 1) % U32 <= IosAllowed(l, d, now)
  }

  /** The wait computed by tg_with_in_iops_limit when it refuses. */
  function IopsWait(l: Limits, d: Dir, now: int): int
    requires l.Valid()
  {
    var wait := (d.ios + 1) * l.hz % U32 / l.iops + 1;
    if wait > now - d.start then wait - (now - d.start) else 1
  }

  /** What tg_may_dispatch returns: the verdict, the wait, and the group's new slice. */
  datatype Verdict = Verdict(may: bool, wait: int, dir: Dir)

  /** The slice tg_may_dispatch decides in: a new one, or the old one made long enough. */
  function Renew(l: Limits, d: Dir, now: int): Dir
    requires l.Valid()
  {
    if SliceUsed(d, now) then NewSlice(l, now)
    else if d.end < now + l.Slice() then SetSliceEnd(l, d, now + l.Slice())
    else d
  }

  /** tg_may_dispatch; the I/O limit is not looked at when the byte limit already refuses. */
  function MayDispatch(l: Limits, d: Dir, size: int, now: int): Verdict
    requires l.Valid()
  {
    if l.Unlimited() then Verdict(true, 0, d)
    else
      var d1 := Renew(l, d, now);
      if WithinBps(l, d1, size, now) && WithinIops(l, d1, now) then Verdict(true, 0, d1)
      else
        var wait := if WithinBps(l, d1, size, now) then IopsWait(l, d1, now) else BpsWait(l, d1, size, now);
        Verdict(false, wait, if d1.end < now + wait then SetSliceEnd(l, d1, now + wait) else d1)
  }

  /** throtl_charge_bio */
  function Charge(d: Dir, size: int): Dir {
    d.(bytes := (d.bytes + size) % U64, ios := (d.ios + 1) % U32)
  }

  // ---------------------------------------------------------------------------
  // Runs
  // ---------------------------------------------------------------------------

  /** At time `now` a bio of `size` bytes is looked at, and dispatched if `dispatch` is set and it may be. */
  datatype Event = Event(size: int, now: int, dispatch: bool)

  /** The state of the direction, and what it has dispatched so far. */
  datatype Run = Run(dir: Dir, bytes: int, ios: int)

  function Step(l: Limits, r: Run, e: Event): Run
    requires l.Valid()
  {
    var v := MayDispatch(l, r.dir, e.size, e.now);
    if v.may && e.dispatch then
      Run(Trim(l, Charge(v.dir, e.size), e.now), r.bytes + e.size, r.ios + 1)
    else
      r.(dir := v.dir)
  }

  /** The run from a group as it is created, with all its fields zero. */
  function Play(l: Limits, events: seq<Event>): Run
    requires l.Valid()
  {
    if events == [] then Run(Dir(0, 0, 0, 0), 0, 0)
    else Step(l, Play(l, events[..|events| - 1]), events[|events| - 1])
  }

  /** Time does not run backwards, and bio sizes are what an unsigned int can hold. */
  ghost predicate Timed(events: seq<Event>) {
    && (forall i :: 0 <= i < |events| ==> 0 <= events[i].size < U32 && 0 <= events[i].now)
    && (forall i, j :: 0 <= i < j < |events| ==> events[i].now <= events[j].now)
  }
}
