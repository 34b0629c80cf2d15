/**
 Throttle groups and the queueing of bios in them (block/blk-throttle.c): what one group does with
 the bios waiting in its two directions.

 The queueing does not depend on how a limit is computed, so the limits enter as a rule on the
 accounting state of a direction; the rule of the source is given at the end.
 */
module ThrottleGroups {
  import T = Throttle
  import W = ThrottleWait

  /** bi_size, an unsigned int */
  type Size = n: nat | n < 0x1_0000_0000

  datatype Bio = Bio(id: nat, size: Size)

  /** What a look at a bio yields: whether it may pass, for how long it must wait, the new account. */
  datatype Verdict<D> = Verdict(may: bool, wait: int, account: D)

  /** A limit: the verdict on a bio of some size at some time, and the account after charging it. */
  datatype Rule<!D> = Rule(look: (D, nat, int) -> Verdict<D>, charge: (D, nat, int) -> D)

  /** A refusal stands when the question is asked again at once, and asks for a wait of a jiffy at least. */
  ghost predicate Sound<D(!new)>(rule: Rule<D>) {
    forall d, size, now :: !rule.look(d, size, now).may ==>
      var again := rule.look(rule.look(d, size, now).account, size, now);
      !again.may && again.wait >= 1
  }

  /** One direction of a group: its queue, the counter kept beside it, and its account. */
  datatype Half<D> = Half(bios: seq<Bio>, nrQueued: int, account: D)

  datatype Group<D> = Group(read: Half<D>, write: Half<D>, disptime: int, ref: int, onTree: bool, listed: bool) {
    function Of(isWrite: bool): Half<D> {
      if isWrite then write else read
    }

    function With(isWrite: bool, h: Half<D>): Group<D> {
      if isWrite then this.(write := h) else this.(read := h)
    }

    /** How many bios wait in the group. */
    function Waiting(): nat {
      |read.bios| + |write.bios|
    }
  }

  /** throtl_grp_quantum and throtl_quantum */
  const GRP_QUANTUM: int := 8
  const QUANTUM: int := 32

  const MAX_READS: int := GRP_QUANTUM * 3 / 4
  const MAX_WRITES: int := GRP_QUANTUM - MAX_READS

  /** tg_may_dispatch on the first bio of a direction. */
  function Look<D>(rule: Rule<D>, h: Half<D>, now: int): Verdict<D>
    requires h.bios != []
  {
    rule.look(h.account, h.bios[0].size, now)
  }

  /** tg_dispatch_one_bio, as far as the direction is concerned. */
  function PopFirst<D>(rule: Rule<D>, h: Half<D>, now: int): Half<D>
    requires h.bios != []
  {
    Half(h.bios[1..], h.nrQueued - 1, rule.charge(h.account, h.bios[0].size, now))
  }

  /** One of the two loops of throtl_dispatch_tg: up to `max` bios of a direction, while it is allowed. */
  function DispatchHalf<D>(rule: Rule<D>, h: Half<D>, max: int, now: int): (r: (Half<D>, seq<Bio>))
    ensures r.1 + r.0.bios == h.bios && |r.1| <= (if max < 0 then 0 else max)
    ensures r.0.nrQueued == h.nrQueued - |r.1|
    decreases |h.bios|
  {
    if max <= 0 || h.bios == [] then (h, [])
    else
      var v := Look(rule, h, now);
      if !v.may then (h.(account := v.account), [])
      else
        var (h1, bios) := DispatchHalf(rule, PopFirst(rule, h.(account := v.account), now), max - 1, now);
        (h1, [h.bios[0]] + bios)
  }

  /** The direction as tg_update_disptime leaves it, and the wait it contributes; none without a bio. */
  function Probe<D>(rule: Rule<D>, h: Half<D>, now: int): (Half<D>, int) {
    if h.bios == [] then (h, T.ULONG - 1)
    else (h.(account := Look(rule, h, now).account), Look(rule, h, now).wait)
  }

  /** tg_update_disptime, as far as the group itself is concerned. */
  function Reschedule<D>(rule: Rule<D>, g: Group<D>, now: int): Group<D> {
    var (read, readWait) := Probe(rule, g.read, now);
    var (write, writeWait) := Probe(rule, g.write, now);
    g.(read := read, write := write, disptime := now + T.Min(readWait, writeWait))
  }

  /** One direction of a group after a dispatch loop over it. */
  function AfterHalf<D>(rule: Rule<D>, g: Group<D>, write: bool, max: int, now: int): Group<D> {
    var (h, bios) := DispatchHalf(rule, g.Of(write), max, now);
    g.With(write, h).(ref := g.ref - |bios|)
  }

  /** throtl_dispatch_tg: reads first, then writes. */
  function AfterGroup<D>(rule: Rule<D>, g: Group<D>, now: int): Group<D> {
    AfterHalf(rule, AfterHalf(rule, g, false, MAX_READS, now), true, MAX_WRITES, now)
  }

  /** A direction that gives up nothing although a bio waits in it has to wait for a jiffy at least. */
  lemma StuckHalf<D(!new)>(rule: Rule<D>, h: Half<D>, max: int, now: int)
    requires Sound(rule) && max > 0 && DispatchHalf(rule, h, max, now).1 == []
    ensures Probe(rule, DispatchHalf(rule, h, max, now).0, now).1 >= 1
  {
    if h.bios != [] {
      var v := Look(rule, h, now);
      assert rule.look(h.account, h.bios[0].size, now) == v;
    }
  }

  /** A group that gave up nothing is due only later, once it has been rescheduled. */
  lemma StuckGroup<D(!new)>(rule: Rule<D>, g: Group<D>, now: int)
    requires Sound(rule) && AfterGroup(rule, g, now).Waiting() == g.Waiting()
    ensures Reschedule(rule, AfterGroup(rule, g, now), now).disptime > now
  {
    StuckHalf(rule, g.read, MAX_READS, now);
    StuckHalf(rule, g.write, MAX_WRITES, now);
  }

  /** A dispatch loop stops at its quota, at the end of the queue, or at a bio that is refused. */
  lemma {:induction false} HalfStops<D(!new)>(rule: Rule<D>, h: Half<D>, max: int, now: int)
    requires Sound(rule) && max >= 0
    ensures var (h1, bios) := DispatchHalf(rule, h, max, now);
            |bios| == max || h1.bios == [] || !Look(rule, h1, now).may
    decreases |h.bios|
  {
    if max > 0 && h.bios != [] {
      var v := Look(rule, h, now);
      assert rule.look(h.account, h.bios[0].size, now) == v;
      if v.may {
        HalfStops(rule, PopFirst(rule, h.(account := v.account), now), max - 1, now);
      }
    }
  }

  /** A group gives up six reads and two writes at a time, unless fewer wait or the next one is refused. */
  lemma GroupShares<D(!new)>(rule: Rule<D>, g: Group<D>, now: int, isWrite: bool)
    requires Sound(rule)
    ensures var h, h1 := g.Of(isWrite), AfterGroup(rule, g, now).Of(isWrite);
            var n := |h.bios| - |h1.bios|;
            && 0 <= n <= (if isWrite then 2 else 6) && h1.bios == h.bios[n..]
            && (n == (if isWrite then 2 else 6) || h1.bios == [] || !Look(rule, h1, now).may)
  {
    HalfStops(rule, g.Of(isWrite), if isWrite then MAX_WRITES else MAX_READS, now);
  }

  /**
   A rescheduled group is due when the first of its directions is: not after the wait of either, and at the end
   of one of them, as far as an unsigned long can say.
   */
  lemma RescheduleTime<D>(rule: Rule<D>, g: Group<D>, now: int, isWrite: bool)
    requires g.Of(isWrite).bios != []
    ensures var at, other := Reschedule(rule, g, now).disptime, g.Of(!isWrite);
            && at <= now + Look(rule, g.Of(isWrite), now).wait
            && (at == now + Look(rule, g.Of(isWrite), now).wait || at == now + T.ULONG - 1 ||
                (other.bios != [] && at == now + Look(rule, other, now).wait))
  {
  }

  // ---------------------------------------------------------------------------
  // The rule of the source
  // ---------------------------------------------------------------------------

  /** The limits of one direction and its current slice. */
  datatype Account = Account(limits: T.Limits, dir: T.Dir)

  /** tg_may_dispatch, throtl_charge_bio and throtl_trim_slice; without configured limits nothing is held back. */
  const THROTL: Rule<Account> := Rule(
    (a: Account, size: nat, now: int) =>
      if a.limits.Valid() then
        var v := T.MayDispatch(a.limits, a.dir, size, now);
        Verdict(v.may, v.wait, a.(dir := v.dir))
      else Verdict(true, 0, a),
    (a: Account, size: nat, now: int) =>
      if a.limits.Valid() then a.(dir := T.Trim(a.limits, T.Charge(a.dir, size), now)) else a)

  lemma RefusedAgain(l: T.Limits, d: T.Dir, size: nat, now: int)
    requires l.Valid() && !T.MayDispatch(l, d, size, now).may
    ensures var again := T.MayDispatch(l, T.MayDispatch(l, d, size, now).dir, size, now);
            !again.may && again.wait >= 1
  {
    var v := T.MayDispatch(l, d, size, now);
    var d1 := T.Renew(l, d, now);
    W.RoundupBoundsAny(now + l.Slice(), l.Slice());
    W.RefusalCoversWait(l, d, size, now);
    W.RoundupBoundsAny(now + v.wait, l.Slice());
    assert T.Renew(l, v.dir, now) == v.dir;
    W.SameLimit(l, d1, v.dir, size, now);
    W.RefusalCoversWait(l, v.dir, size, now);
  }

  /** The limits of the source keep dispatch rounds from spinning. */
  lemma ThrotlSound()
    ensures Sound(THROTL)
  {
    forall a, size, now | !THROTL.look(a, size, now).may
      ensures var again := THROTL.look(THROTL.look(a, size, now).account, size, now); !again.may && again.wait >= 1
    {
      RefusedAgain(a.limits, a.dir, size, now);
    }
  }
}
