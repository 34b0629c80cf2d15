/**
 How the accounts of throttle groups change: every operation takes an account through looks at bios,
 and charges it for exactly the bios it lets go (block/blk-throttle.c).
 */
module ThrottleLedger {
  import opened Options
  import opened ThrottleGroups
  import opened ThrottleDispatch

  /** A look at a bio of some size; `passed` if the bio was let go. */
  datatype Visit = Visit(size: Size, passed: bool)

  /** The account after some visits at one time. */
  function After<D>(rule: Rule<D>, d: D, visits: seq<Visit>, now: int): D {
    if visits == [] then d
    else
      var v := rule.look(d, visits[0].size, now);
      After(rule, if visits[0].passed then rule.charge(v.account, visits[0].size, now) else v.account, visits[1..], now)
  }

  /** Only bios within the limits are let go. */
  predicate Allowed<D>(rule: Rule<D>, d: D, visits: seq<Visit>, now: int) {
    visits == [] ||
    (var v := rule.look(d, visits[0].size, now);
     if visits[0].passed then v.may && Allowed(rule, rule.charge(v.account, visits[0].size, now), visits[1..], now)
     else Allowed(rule, v.account, visits[1..], now))
  }

  /** The sizes of the bios let go, in order. */
  function Passed(visits: seq<Visit>): seq<Size> {
    if visits == [] then []
    else (if visits[0].passed then [visits[0].size] else []) + Passed(visits[1..])
  }

  function Sizes(bios: seq<Bio>): seq<Size> {
    seq(|bios|, i requires 0 <= i < |bios| => bios[i].size)
  }

  /** `visits` take the account from `d` to `d'`, and let go bios of the sizes of `bios`. */
  ghost predicate Bill<D>(rule: Rule<D>, d: D, d': D, bios: seq<Bio>, now: int, visits: seq<Visit>) {
    Allowed(rule, d, visits, now) && After(rule, d, visits, now) == d' && Passed(visits) == Sizes(bios)
  }

  ghost predicate Pays<D>(rule: Rule<D>, d: D, d': D, bios: seq<Bio>, now: int) {
    exists visits :: Bill(rule, d, d', bios, now, visits)
  }

  /** One account of `s` has been taken to that of `r`, and charged for what was let go. */
  ghost predicate PaidAt<D>(rule: Rule<D>, s: Data<D>, r: Data<D>, out: seq<Released>, now: int, x: Gid, write: bool) {
    x in s.groups ==>
      x in r.groups &&
      Pays(rule, s.groups[x].Of(write).account, r.groups[x].Of(write).account, From(out, x, write), now)
  }

  ghost predicate Paid<D>(rule: Rule<D>, s: Data<D>, r: Data<D>, out: seq<Released>, now: int) {
    forall x, write :: PaidAt(rule, s, r, out, now, x, write)
  }

  // ---------------------------------------------------------------------------
  // Visits put together
  // ---------------------------------------------------------------------------

  lemma {:induction false} AfterAppend<D>(rule: Rule<D>, d: D, a: seq<Visit>, b: seq<Visit>, now: int)
    ensures After(rule, d, a + b, now) == After(rule, After(rule, d, a, now), b, now)
    ensures Allowed(rule, d, a, now) && Allowed(rule, After(rule, d, a, now), b, now) ==> Allowed(rule, d, a + b, now)
    ensures Passed(a + b) == Passed(a) + Passed(b)
    decreases |a|
  {
    if a == [] {
      assert a + b == b;
    } else {
      assert (a + b)[1..] == a[1..] + b;
      var v := rule.look(d, a[0].size, now);
      AfterAppend(rule, if a[0].passed then rule.charge(v.account, a[0].size, now) else v.account, a[1..], b, now);
    }
  }

  lemma PaysTwice<D>(rule: Rule<D>, d: D, d1: D, d2: D, a: seq<Bio>, b: seq<Bio>, now: int)
    requires Pays(rule, d, d1, a, now) && Pays(rule, d1, d2, b, now)
    ensures Pays(rule, d, d2, a + b, now)
  {
    var va :| Bill(rule, d, d1, a, now, va);
    var vb :| Bill(rule, d1, d2, b, now, vb);
    AfterAppend(rule, d, va, vb, now);
    assert Sizes(a + b) == Sizes(a) + Sizes(b);
    assert Bill(rule, d, d2, a + b, now, va + vb);
  }

  lemma PaysNothing<D>(rule: Rule<D>, d: D, now: int)
    ensures Pays(rule, d, d, [], now)
  {
    assert Bill(rule, d, d, [], now, []);
  }

  lemma OneVisit<D>(rule: Rule<D>, d: D, visit: Visit, now: int)
    ensures var v := rule.look(d, visit.size, now);
            && After(rule, d, [visit], now) ==
               (if visit.passed then rule.charge(v.account, visit.size, now) else v.account)
            && Allowed(rule, d, [visit], now) == (visit.passed ==> v.may)
            && Passed([visit]) == (if visit.passed then [visit.size] else [])
  {
    assert [visit][1..] == [];
  }

  /** One look at a bio that stays where it is. */
  lemma PaysLook<D>(rule: Rule<D>, d: D, size: Size, now: int)
    ensures Pays(rule, d, rule.look(d, size, now).account, [], now)
  {
    OneVisit(rule, d, Visit(size, false), now);
    assert Bill(rule, d, rule.look(d, size, now).account, [], now, [Visit(size, false)]);
  }

  /** One bio let go. */
  lemma PaysOne<D>(rule: Rule<D>, d: D, bio: Bio, now: int)
    requires rule.look(d, bio.size, now).may
    ensures Pays(rule, d, rule.charge(rule.look(d, bio.size, now).account, bio.size, now), [bio], now)
  {
    OneVisit(rule, d, Visit(bio.size, true), now);
    assert Bill(rule, d, rule.charge(rule.look(d, bio.size, now).account, bio.size, now), [bio], now,
                [Visit(bio.size, true)]);
  }

  // ---------------------------------------------------------------------------
  // What the steps charge
  // ---------------------------------------------------------------------------

  lemma {:induction false} HalfPays<D>(rule: Rule<D>, h: Half<D>, max: int, now: int)
    ensures var r := DispatchHalf(rule, h, max, now); Pays(rule, h.account, r.0.account, r.1, now)
    decreases |h.bios|
  {
    if max <= 0 || h.bios == [] {
      PaysNothing(rule, h.account, now);
    } else {
      var v := Look(rule, h, now);
      if !v.may {
        PaysLook(rule, h.account, h.bios[0].size, now);
      } else {
        var h1 := PopFirst(rule, h.(account := v.account), now);
        HalfPays(rule, h1, max - 1, now);
        PaysOne(rule, h.account, h.bios[0], now);
        var r := DispatchHalf(rule, h1, max - 1, now);
        PaysTwice(rule, h.account, h1.account, r.0.account, [h.bios[0]], r.1, now);
      }
    }
  }

  lemma ProbePays<D>(rule: Rule<D>, h: Half<D>, now: int)
    ensures Pays(rule, h.account, Probe(rule, h, now).0.account, [], now)
  {
    if h.bios == [] {
      PaysNothing(rule, h.account, now);
    } else {
      PaysLook(rule, h.account, h.bios[0].size, now);
    }
  }

  lemma AfterGroupHalf<D>(rule: Rule<D>, g: Group<D>, write: bool, now: int)
    ensures AfterGroup(rule, g, now).Of(write) ==
            DispatchHalf(rule, g.Of(write), if write then MAX_WRITES else MAX_READS, now).0
  {
  }

  /** What a round does to the accounts of its group. */
  lemma RoundPays<D>(rule: Rule<D>, g: Group<D>, write: bool, now: int)
    ensures Pays(rule, g.Of(write).account, AfterRound(rule, g, write, now).account, GivenUp(rule, g, write, now), now)
  {
    var h, out := AfterGroup(rule, g, now).Of(write), GivenUp(rule, g, write, now);
    AfterGroupHalf(rule, g, write, now);
    HalfPays(rule, g.Of(write), if write then MAX_WRITES else MAX_READS, now);
    if AfterGroup(rule, g, now).Waiting() > 0 {
      ProbePays(rule, h, now);
      PaysTwice(rule, g.Of(write).account, h.account, Probe(rule, h, now).0.account, out, [], now);
      assert out + [] == out;
    }
  }

  lemma RoundPaid<D>(rule: Rule<D>, s: Data<D>, now: int)
    requires Valid(s) && s.tree != []
    ensures Paid(rule, s, Round(rule, s, now), RoundOut(rule, s, now), now)
  {
    forall x, write ensures PaidAt(rule, s, Round(rule, s, now), RoundOut(rule, s, now), now, x, write) {
      if x in s.groups {
        RoundHalves(rule, s, now, x, write);
        OutFrom(rule, s, now, x, write);
        if x == s.tree[0] {
          RoundPays(rule, s.groups[x], write, now);
        } else {
          PaysNothing(rule, s.groups[x].Of(write).account, now);
        }
      }
    }
  }

  lemma PaidTwice<D>(rule: Rule<D>, s: Data<D>, r: Data<D>, t: Data<D>, out: seq<Released>, more: seq<Released>,
                     now: int)
    requires Paid(rule, s, r, out, now) && Paid(rule, r, t, more, now)
    ensures Paid(rule, s, t, out + more, now)
  {
    forall x, write ensures PaidAt(rule, s, t, out + more, now, x, write) {
      if x in s.groups {
        assert PaidAt(rule, s, r, out, now, x, write) && PaidAt(rule, r, t, more, now, x, write);
        FromAppend(out, more, x, write);
        PaysTwice(rule, s.groups[x].Of(write).account, r.groups[x].Of(write).account, t.groups[x].Of(write).account,
                  From(out, x, write), From(more, x, write), now);
      }
    }
  }

  /** What changes no account lets nothing go. */
  lemma PaidNothing<D>(rule: Rule<D>, s: Data<D>, r: Data<D>, now: int)
    requires forall x, write :: x in s.groups ==>
               x in r.groups && r.groups[x].Of(write).account == s.groups[x].Of(write).account
    ensures Paid(rule, s, r, [], now)
  {
    forall x, write ensures PaidAt(rule, s, r, [], now, x, write) {
      if x in s.groups {
        PaysNothing(rule, s.groups[x].Of(write).account, now);
        assert r.groups[x].Of(write).account == s.groups[x].Of(write).account;
      }
    }
  }
}
