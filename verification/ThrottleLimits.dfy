/**
 The rate limits for whole queues: through any operations of the throttler, what one direction of
 one group lets go stays within its limits (block/blk-throttle.c).
 */
module ThrottleLimits {
  import opened Options
  import opened ThrottleGroups
  import opened ThrottleDispatch
  import opened ThrottleLedger
  import T = Throttle
  import R = ThrottleRate
  import W = ThrottleWait
  import Wrap = ThrottleWrap

  /** One operation: when it happened, what it let go, and the data it left. */
  datatype Stage = Stage(now: int, out: seq<Released>, left: Data<Account>)

  /** The data after the operations. */
  function Last(s: Data<Account>, stages: seq<Stage>): Data<Account> {
    if stages == [] then s else stages[|stages| - 1].left
  }

  /** Each operation charges the accounts for what it lets go, and time does not run backwards. */
  ghost predicate Staged(s: Data<Account>, stages: seq<Stage>) {
    stages == [] ||
    (var init, e := stages[..|stages| - 1], stages[|stages| - 1];
     && Staged(s, init) && Paid(THROTL, Last(s, init), e.left, e.out, e.now)
     && 0 <= e.now && (init != [] ==> init[|init| - 1].now <= e.now))
  }

  /** All that the operations let go. */
  function AllOut(stages: seq<Stage>): seq<Released> {
    if stages == [] then [] else AllOut(stages[..|stages| - 1]) + stages[|stages| - 1].out
  }

  function Total(sizes: seq<Size>): nat {
    if sizes == [] then 0 else sizes[0] + Total(sizes[1..])
  }

  lemma {:induction false} TotalAppend(a: seq<Size>, b: seq<Size>)
    ensures Total(a + b) == Total(a) + Total(b)
  {
    if a == [] {
      assert a + b == b;
    } else {
      assert (a + b)[1..] == a[1..] + b;
      TotalAppend(a[1..], b);
    }
  }

  // ---------------------------------------------------------------------------
  // An account is the run of the looks at it
  // ---------------------------------------------------------------------------

  function EventOf(v: Visit, now: int): T.Event {
    T.Event(v.size, now, v.passed)
  }

  function Events(visits: seq<Visit>, now: int): seq<T.Event> {
    seq(|visits|, i requires 0 <= i < |visits| => EventOf(visits[i], now))
  }

  lemma PlayStep(l: T.Limits, events: seq<T.Event>, e: T.Event)
    requires l.Valid()
    ensures T.Play(l, events + [e]) == T.Step(l, T.Play(l, events), e)
  {
    assert (events + [e])[..|events|] == events;
  }

  /** One visit is one step. */
  lemma VisitStep(l: T.Limits, r: T.Run, v: Visit, now: int)
    requires l.Valid() && (v.passed ==> T.MayDispatch(l, r.dir, v.size, now).may)
    ensures var look := THROTL.look(Account(l, r.dir), v.size, now);
            var r1 := T.Step(l, r, EventOf(v, now));
            && Account(l, r1.dir) == (if v.passed then THROTL.charge(look.account, v.size, now) else look.account)
            && r1.bytes == r.bytes + (if v.passed then v.size else 0)
            && r1.ios == r.ios + (if v.passed then 1 else 0)
  {
  }

  lemma EventsFirst(visits: seq<Visit>, now: int)
    requires visits != []
    ensures Events(visits, now) == [EventOf(visits[0], now)] + Events(visits[1..], now)
  {
  }

  lemma Regroup(a: seq<T.Event>, e: T.Event, b: seq<T.Event>)
    ensures a + [e] + b == a + ([e] + b) && a + [] == a
  {
  }

  lemma PassedFirst(visits: seq<Visit>)
    requires visits != []
    ensures Total(Passed(visits)) == (if visits[0].passed then visits[0].size else 0) + Total(Passed(visits[1..]))
    ensures |Passed(visits)| == (if visits[0].passed then 1 else 0) + |Passed(visits[1..])|
  {
    TotalAppend(if visits[0].passed then [visits[0].size] else [], Passed(visits[1..]));
  }

  /** The account after visits is that after the steps they stand for. */
  lemma {:induction false} VisitsPlay(l: T.Limits, events: seq<T.Event>, visits: seq<Visit>, now: int)
    requires l.Valid() && Allowed(THROTL, Account(l, T.Play(l, events).dir), visits, now)
    ensures var r, r1 := T.Play(l, events), T.Play(l, events + Events(visits, now));
            && Account(l, r1.dir) == After(THROTL, Account(l, r.dir), visits, now)
            && r1.bytes == r.bytes + Total(Passed(visits)) && r1.ios == r.ios + |Passed(visits)|
    decreases |visits|
  {
    if visits == [] {
      Regroup(events, T.Event(0, 0, false), []);
    } else {
      var v := visits[0];
      var e := EventOf(v, now);
      PlayStep(l, events, e);
      VisitStep(l, T.Play(l, events), v, now);
      VisitsPlay(l, events + [e], visits[1..], now);
      EventsFirst(visits, now);
      Regroup(events, e, Events(visits[1..], now));
      PassedFirst(visits);
    }
  }

  /** The events of a direction: in order of time, none before `from` or after `until`. */
  ghost predicate Within(events: seq<T.Event>, from: int, until: int) {
    T.Timed(events) && forall i :: 0 <= i < |events| ==> from <= events[i].now <= until
  }

  lemma WithinMore(events: seq<T.Event>, visits: seq<Visit>, from: int, until: int, now: int)
    requires Within(events, from, until) && until <= now && from <= now && 0 <= now
    ensures Within(events + Events(visits, now), from, now)
  {
  }

  /** The account is that of a run of `events`, and what was let go is what the run dispatches. */
  ghost predicate Traced(l: T.Limits, events: seq<T.Event>, account: Account, gone: seq<Bio>)
    requires l.Valid()
  {
    var r := T.Play(l, events);
    account == Account(l, r.dir) && r.bytes == Total(Sizes(gone)) && r.ios == |gone|
  }

  lemma SizesAppend(a: seq<Bio>, b: seq<Bio>)
    ensures Sizes(a + b) == Sizes(a) + Sizes(b) && Total(Sizes(a + b)) == Total(Sizes(a)) + Total(Sizes(b))
  {
    assert Sizes(a + b) == Sizes(a) + Sizes(b);
    TotalAppend(Sizes(a), Sizes(b));
  }

  lemma BillTraced(l: T.Limits, events: seq<T.Event>, d: Account, d': Account, gone: seq<Bio>, more: seq<Bio>,
                   now: int, visits: seq<Visit>)
    requires l.Valid() && Traced(l, events, d, gone) && Bill(THROTL, d, d', more, now, visits)
    ensures Traced(l, events + Events(visits, now), d', gone + more)
  {
    VisitsPlay(l, events, visits, now);
    SizesAppend(gone, more);
  }

  /** One operation more. */
  lemma StageTraced(l: T.Limits, events: seq<T.Event>, s: Data<Account>, e: Stage, gone: seq<Bio>, x: Gid, write: bool,
                    from: int, until: int)
    returns (events': seq<T.Event>)
    requires l.Valid() && Paid(THROTL, s, e.left, e.out, e.now) && x in s.groups
    requires Traced(l, events, s.groups[x].Of(write).account, gone)
    requires Within(events, from, until) && from <= until <= e.now && 0 <= e.now
    ensures x in e.left.groups && Within(events', from, e.now)
    ensures Traced(l, events', e.left.groups[x].Of(write).account, gone + From(e.out, x, write))
  {
    assert PaidAt(THROTL, s, e.left, e.out, e.now, x, write);
    var d, d' := s.groups[x].Of(write).account, e.left.groups[x].Of(write).account;
    var visits :| Bill(THROTL, d, d', From(e.out, x, write), e.now, visits);
    BillTraced(l, events, d, d', gone, From(e.out, x, write), e.now, visits);
    WithinMore(events, visits, from, until, e.now);
    events' := events + Events(visits, e.now);
  }

  /**
   Through any operations, a direction that starts with a fresh account has been taken through the
   events of some run, and what it has let go is what that run dispatches.
   */
  lemma {:induction false} StagesTraced(s: Data<Account>, stages: seq<Stage>, x: Gid, write: bool, l: T.Limits)
    returns (events: seq<T.Event>)
    requires Staged(s, stages) && l.Valid() && x in s.groups
    requires s.groups[x].Of(write).account == Account(l, T.Dir(0, 0, 0, 0))
    ensures stages == [] ==> events == []
    ensures stages != [] ==> Within(events, stages[0].now, stages[|stages| - 1].now)
    ensures x in Last(s, stages).groups
    ensures Traced(l, events, Last(s, stages).groups[x].Of(write).account, From(AllOut(stages), x, write))
    decreases |stages|
  {
    if stages == [] {
      events := [];
    } else {
      var init, e := stages[..|stages| - 1], stages[|stages| - 1];
      var before := StagesTraced(s, init, x, write, l);
      var until := if init == [] then e.now else init[|init| - 1].now;
      if init != [] {
        StagesOrdered(s, init);
        assert init[0] == stages[0];
      }
      FromAppend(AllOut(init), e.out, x, write);
      events := StageTraced(l, before, Last(s, init), e, From(AllOut(init), x, write), x, write, stages[0].now, until);
    }
  }

  lemma {:induction false} StagesOrdered(s: Data<Account>, stages: seq<Stage>)
    requires Staged(s, stages) && stages != []
    ensures 0 <= stages[0].now <= stages[|stages| - 1].now
    decreases |stages|
  {
    var init := stages[..|stages| - 1];
    if init != [] {
      StagesOrdered(s, init);
      assert init[0] == stages[0];
    }
  }

  lemma StagesSummed(s: Data<Account>, stages: seq<Stage>, x: Gid, write: bool, l: T.Limits)
    returns (events: seq<T.Event>, account: Account)
    requires Staged(s, stages) && l.Valid() && x in s.groups && stages != []
    requires s.groups[x].Of(write).account == Account(l, T.Dir(0, 0, 0, 0))
    ensures stages[0].now <= stages[|stages| - 1].now && Within(events, stages[0].now, stages[|stages| - 1].now)
    ensures Traced(l, events, account, From(AllOut(stages), x, write))
    ensures x in Last(s, stages).groups && account == Last(s, stages).groups[x].Of(write).account
  {
    events := StagesTraced(s, stages, x, write, l);
    account := Last(s, stages).groups[x].Of(write).account;
    StagesOrdered(s, stages);
  }

  // ---------------------------------------------------------------------------
  // The limits
  // ---------------------------------------------------------------------------

  /** A bound that counts from later on is a bound that counts from earlier on. */
  lemma EarlierStart(total: int, rate: int, hz: int, slice: int, t: int, first: int, from: int)
    requires 0 < rate && 0 < hz && 0 <= slice && from <= first <= t && total <= rate * (t - first + slice) / hz
    ensures total <= rate * (t - from + slice) / hz
  {
    R.MulLe(t - first + slice, t - from + slice, rate);
    W.DivMonotone(rate * (t - first + slice), rate * (t - from + slice), hz);
  }

  lemma NothingWithin(rate: int, hz: int, time: int)
    requires 0 < rate && 0 < hz && 0 <= time
    ensures 0 <= rate * time / hz
  {
    R.MulLe(0, time, rate);
    R.DivBounds(rate * time, hz);
  }

  /** The limits over a run that starts at `from` or later. */
  lemma BytesFrom(l: T.Limits, events: seq<T.Event>, account: Account, gone: seq<Bio>, from: int, until: int, t: int)
    requires l.Valid() && !l.Unlimited() && Traced(l, events, account, gone) && Within(events, from, until)
    requires from <= until <= t
    ensures Total(Sizes(gone)) <= l.bps * (t - from + l.Slice()) / l.hz
  {
    if events == [] {
      NothingWithin(l.bps, l.hz, t - from + l.Slice());
    } else {
      R.ByteRate(l, events, t);
      EarlierStart(Total(Sizes(gone)), l.bps, l.hz, l.Slice(), t, events[0].now, from);
    }
  }

  lemma IosFrom(l: T.Limits, events: seq<T.Event>, account: Account, gone: seq<Bio>, from: int, until: int, t: int)
    requires l.Valid() && !l.Unlimited() && Traced(l, events, account, gone) && Within(events, from, until)
    requires from <= until <= t
    ensures |gone| <= l.iops * (t - from + l.Slice()) / l.hz + T.U32 * R.Wraps(l, events)
  {
    if events == [] {
      NothingWithin(l.iops, l.hz, t - from + l.Slice());
    } else {
      var lost := T.U32 * R.Wraps(l, events);
      assert |gone| - lost <= l.iops * (t - events[0].now + l.Slice()) / l.hz by {
        R.IoRate(l, events, t);
      }
      EarlierStart(|gone| - lost, l.iops, l.hz, l.Slice(), t, events[0].now, from);
    }
  }

  /**
   The byte limit for a queue: from the first operation on, the bytes that a direction of a group
   lets go, at once or from its queue, are at most what its limit grants for the time and one slice.
   */
  lemma BytesWithinLimit(s: Data<Account>, stages: seq<Stage>, x: Gid, write: bool, l: T.Limits, t: int)
    requires Staged(s, stages) && l.Valid() && !l.Unlimited() && x in s.groups
    requires s.groups[x].Of(write).account == Account(l, T.Dir(0, 0, 0, 0))
    requires stages != [] && stages[|stages| - 1].now <= t
    ensures Total(Sizes(From(AllOut(stages), x, write))) <= l.bps * (t - stages[0].now + l.Slice()) / l.hz
  {
    var from, until, gone := stages[0].now, stages[|stages| - 1].now, From(AllOut(stages), x, write);
    var events, account := StagesSummed(s, stages, x, write, l);
    BytesFrom(l, events, account, gone, from, until, t);
  }

  /** The I/O limit, likewise, up to the wrap-arounds of the counter; there are none while no allowance is cut. */
  lemma IosWithinLimit(s: Data<Account>, stages: seq<Stage>, x: Gid, write: bool, l: T.Limits, t: int)
    returns (events: seq<T.Event>)
    requires Staged(s, stages) && l.Valid() && !l.Unlimited() && x in s.groups
    requires s.groups[x].Of(write).account == Account(l, T.Dir(0, 0, 0, 0))
    requires stages != [] && stages[|stages| - 1].now <= t
    ensures x in Last(s, stages).groups
    ensures Traced(l, events, Last(s, stages).groups[x].Of(write).account, From(AllOut(stages), x, write))
    ensures |From(AllOut(stages), x, write)| <=
            l.iops * (t - stages[0].now + l.Slice()) / l.hz + T.U32 * R.Wraps(l, events)
    ensures Wrap.Unsaturated(l, events) ==> R.Wraps(l, events) == 0
  {
    var account;
    events, account := StagesSummed(s, stages, x, write, l);
    IosFrom(l, events, account, From(AllOut(stages), x, write), stages[0].now, stages[|stages| - 1].now, t);
    if Wrap.Unsaturated(l, events) {
      Wrap.UnsaturatedNoWraps(l, events);
    }
  }
}
