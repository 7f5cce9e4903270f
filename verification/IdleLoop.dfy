/** The idle loop: sleep until the next deadline but no longer than three seconds, then poll. */
module IdleLoop {
  import opened Timer
  import opened TimerRuns

  const MAX_TIMEOUT: int := 3000

  /** The timeout given to epoll_wait. */
  function Timeout(c: seq<Timer>, now: int): int {
    var next := NextTime(c, now);
    if next == NO_TIMER then MAX_TIMEOUT else if next < MAX_TIMEOUT then next else MAX_TIMEOUT
  }

  /** The sleep is the least delay left, but three seconds when there is no timer or every delay left is
      longer than that. */
  lemma TimeoutExactly(c: seq<Timer>, now: int)
    requires Sorted(c) && forall i :: 0 <= i < |c| ==> c[i].start - now < NO_TIMER
    ensures 0 <= Timeout(c, now) <= 3000
    ensures forall t :: t in c ==> Timeout(c, now) <= if t.start <= now then 0 else t.start - now
    ensures Timeout(c, now) == 3000
            || exists t :: t in c && Timeout(c, now) == if t.start <= now then 0 else t.start - now
  {
    NextTimeIsLeast(c, now);
    if c != [] {
      assert c[0] in c;
    }
  }

  /** One pass: the timers other threads add while this one sleeps, and when it wakes up. */
  datatype Pass = Pass(added: seq<Timer>, wake: int)

  function AddAll(m: Manager, ts: seq<Timer>): Manager
    decreases |ts|
  {
    if ts == [] then m else AddAll(Apply(m, Add(ts[0])), ts[1..])
  }

  predicate AllNew(m: Manager, ts: seq<Timer>)
    decreases |ts|
  {
    ts == [] || (Legal(m, Add(ts[0])) && AllNew(Apply(m, Add(ts[0])), ts[1..]))
  }

  /** A pass that starts at `now`: it wakes up no later than its timeout and a jitter of `delta`, and the
      timers added meanwhile have deadlines that were not yet past when it started. */
  predicate PassOk(m: Manager, now: int, p: Pass, delta: int) {
    && now <= p.wake <= now + Timeout(m.c, now) + delta
    && AllNew(m, p.added)
    && forall i :: 0 <= i < |p.added| ==> now <= p.added[i].start
  }

  function AfterPass(m: Manager, p: Pass): Manager {
    Apply(AddAll(m, p.added), PollAt(p.wake))
  }

  predicate PassesOk(m: Manager, now: int, ps: seq<Pass>, delta: int)
    decreases |ps|
  {
    ps == [] || (PassOk(m, now, ps[0], delta) && PassesOk(AfterPass(m, ps[0]), ps[0].wake, ps[1..], delta))
  }

  function AfterPasses(m: Manager, ps: seq<Pass>): Manager
    decreases |ps|
  {
    if ps == [] then m else AfterPasses(AfterPass(m, ps[0]), ps[1..])
  }

  function Clock(now: int, ps: seq<Pass>): int {
    if ps == [] then now else ps[|ps| - 1].wake
  }

  /* ---------- one pass ---------- */

  /** Timer `t` is in the container and has not fired. */
  predicate Waiting(m: Manager, t: Timer) {
    t.id in m.known && Sole(m.c, t) && Times(m.log, t.id) == []
  }

  lemma TimeoutIsShort(c: seq<Timer>, t: Timer, now: int)
    requires Sorted(c) && t in c && now <= t.start
    ensures Timeout(c, now) <= t.start - now || NextTime(c, now) == NO_TIMER
    ensures Timeout(c, now) <= MAX_TIMEOUT
  {
  }

  lemma {:induction false} AddAllKeeps(m: Manager, ts: seq<Timer>, t: Timer)
    requires Sorted(m.c) && Waiting(m, t) && AllNew(m, ts)
    ensures Sorted(AddAll(m, ts).c) && Waiting(AddAll(m, ts), t)
    decreases |ts|
  {
    if ts != [] {
      InsertOccurs(m.c, ts[0], t.id);
      InsertKeeps(m.c, ts[0]);
      AddAllKeeps(Apply(m, Add(ts[0])), ts[1..], t);
    }
  }

  /** Whenever it fires first, it is between `from` and `to`. */
  predicate FiredWithin(m: Manager, id: nat, from: int, to: int) {
    Times(m.log, id) != [] && from <= Times(m.log, id)[0] <= to
  }

  /** A poll fires a waiting timer exactly when it is due. */
  lemma PollWaiting(m: Manager, t: Timer, now: int)
    requires Sorted(m.c) && Waiting(m, t)
    ensures Sorted(Apply(m, PollAt(now)).c)
    ensures now < t.start ==> Waiting(Apply(m, PollAt(now)), t)
    ensures t.start <= now ==> Times(Apply(m, PollAt(now)).log, t.id) == [now]
  {
    PollStep(m, now);
    PollSole(m.c, t, now);
    TimesFirings(m.log, Expire(m.c, now, false).fired, now, t.id);
  }

  lemma {:induction false} TimesPrefix(log: seq<Firing>, more: seq<Firing>, id: nat)
    ensures Times(log, id) <= Times(log + more, id)
  {
    if more == [] {
      assert log + more == log;
    } else {
      assert (log + more)[..|log + more| - 1] == log + more[..|more| - 1];
      TimesPrefix(log, more[..|more| - 1], id);
    }
  }

  lemma {:induction false} AddAllLog(m: Manager, ts: seq<Timer>)
    ensures AddAll(m, ts).log == m.log && (Sorted(m.c) ==> Sorted(AddAll(m, ts).c))
    decreases |ts|
  {
    if ts != [] {
      if Sorted(m.c) { InsertKeeps(m.c, ts[0]); }
      AddAllLog(Apply(m, Add(ts[0])), ts[1..]);
    }
  }

  lemma {:induction false} FirstStays(m: Manager, ps: seq<Pass>, id: nat, from: int, to: int)
    requires Sorted(m.c) && FiredWithin(m, id, from, to)
    ensures FiredWithin(AfterPasses(m, ps), id, from, to)
    decreases |ps|
  {
    if ps != [] {
      var m1 := AddAll(m, ps[0].added);
      AddAllLog(m, ps[0].added);
      PollStep(m1, ps[0].wake);
      TimesPrefix(m1.log, Firings(Expire(m1.c, ps[0].wake, false).fired, ps[0].wake), id);
      FirstStays(AfterPass(m, ps[0]), ps[1..], id, from, to);
    }
  }

  /* ---------- lateness ---------- */

  /** A timer that is in the container when a pass starts, not yet due, fires within the jitter of its
      deadline: after any number of passes it has, or its deadline is not reached. */
  lemma {:induction false} Punctual(m: Manager, now: int, ps: seq<Pass>, delta: int, t: Timer)
    requires Sorted(m.c) && Waiting(m, t) && now <= t.start && t.start - now < NO_TIMER && 0 <= delta
    requires PassesOk(m, now, ps, delta)
    ensures FiredWithin(AfterPasses(m, ps), t.id, t.start, t.start + delta)
            || (Waiting(AfterPasses(m, ps), t) && Clock(now, ps) <= t.start)
    decreases |ps|
  {
    hide Waiting, Apply, AddAll, AllNew;
    if ps != [] {
      var p, m1 := ps[0], AddAll(m, ps[0].added);
      WaitingIn(m, t);
      TimeoutIsShort(m.c, t, now);
      AddAllKeeps(m, p.added, t);
      PollWaiting(m1, t, p.wake);
      assert Clock(p.wake, ps[1..]) == Clock(now, ps);
      if p.wake < t.start {
        Punctual(AfterPass(m, p), p.wake, ps[1..], delta, t);
      } else {
        FirstStays(AfterPass(m, p), ps[1..], t.id, t.start, t.start + delta);
      }
    }
  }

  lemma WaitingIn(m: Manager, t: Timer)
    requires Waiting(m, t)
    ensures t in m.c
  {
  }

  /** A timer added by another thread while a pass sleeps fires within the longest sleep and the jitter
      of its deadline. */
  lemma AddedWhileAsleep(m: Manager, now: int, ps: seq<Pass>, delta: int, t: Timer, i: nat)
    requires Sorted(m.c) && Unknown(m, t.id) && t.start - now < NO_TIMER && 0 <= delta
    requires ps != [] && PassesOk(m, now, ps, delta) && i < |ps[0].added| && ps[0].added[i] == t
    ensures FiredWithin(AfterPasses(m, ps), t.id, t.start, t.start + MAX_TIMEOUT + delta)
            || (Waiting(AfterPasses(m, ps), t) && Clock(now, ps) <= t.start)
  {
    hide Waiting, Unknown, Apply, AddAll, AllNew;
    var p, m1 := ps[0], AddAll(m, ps[0].added);
    AddAllAdds(m, p.added, t, i);
    TimeoutAtMost(m.c, now);
    PollWaiting(m1, t, p.wake);
    assert Clock(p.wake, ps[1..]) == Clock(now, ps);
    if p.wake < t.start {
      Punctual(AfterPass(m, p), p.wake, ps[1..], delta, t);
      Wider(AfterPasses(m, ps), t.id, t.start, t.start + delta, t.start + MAX_TIMEOUT + delta);
    } else {
      FirstStays(AfterPass(m, p), ps[1..], t.id, t.start, t.start + MAX_TIMEOUT + delta);
    }
  }

  lemma TimeoutAtMost(c: seq<Timer>, now: int)
    ensures Timeout(c, now) <= MAX_TIMEOUT
  {
  }

  lemma Wider(m: Manager, id: nat, from: int, to: int, to': int)
    requires to <= to'
    ensures FiredWithin(m, id, from, to) ==> FiredWithin(m, id, from, to')
  {
  }

  lemma {:induction false} AddAllAdds(m: Manager, ts: seq<Timer>, t: Timer, i: nat)
    requires Sorted(m.c) && Unknown(m, t.id) && AllNew(m, ts) && i < |ts| && ts[i] == t
    ensures Sorted(AddAll(m, ts).c) && Waiting(AddAll(m, ts), t)
    decreases |ts|
  {
    InsertKeeps(m.c, ts[0]);
    if i == 0 {
      AddedPending(m, t);
      AddAllKeeps(Apply(m, Add(t)), ts[1..], t);
    } else if ts[0].id == t.id {
      NotTwice(Apply(m, Add(ts[0])), ts[1..], t, i - 1);
    } else {
      UnknownStep(m, Add(ts[0]), t.id);
      AddAllAdds(Apply(m, Add(ts[0])), ts[1..], t, i - 1);
    }
  }

  /** An identity in use is not used again. */
  lemma {:induction false} NotTwice(m: Manager, ts: seq<Timer>, t: Timer, i: nat)
    requires t.id in m.known && AllNew(m, ts) && i < |ts|
    ensures ts[i].id != t.id
    decreases |ts|
  {
    if i > 0 {
      NotTwice(Apply(m, Add(ts[0])), ts[1..], t, i - 1);
    }
  }

  /* ---------- how many passes it takes ---------- */

  /** Nothing is added and nothing wakes the loop early. */
  predicate Quiet(m: Manager, now: int, ps: seq<Pass>)
    decreases |ps|
  {
    ps == [] ||
    (ps[0].added == [] && now + Timeout(m.c, now) <= ps[0].wake && Quiet(AfterPass(m, ps[0]), ps[0].wake, ps[1..]))
  }

  /** Rounded up. */
  function Passes(ms: int): int {
    (ms + MAX_TIMEOUT - 1) / MAX_TIMEOUT
  }

  /** A quiet pass before the first deadline takes one off the number of passes left, and after at most
      that many quiet passes the first timer has fired. */
  lemma {:induction false} QuietPasses(m: Manager, now: int, ps: seq<Pass>, delta: int, t: Timer)
    requires Sorted(m.c) && m.c != [] && m.c[0] == t && Waiting(m, t) && now <= t.start && t.start - now < NO_TIMER
    requires 0 <= delta && PassesOk(m, now, ps, delta) && Quiet(m, now, ps) && |ps| >= Passes(t.start - now) && ps != []
    ensures FiredWithin(AfterPasses(m, ps), t.id, t.start, t.start + delta)
    decreases |ps|
  {
    hide Waiting, Apply;
    var p := ps[0];
    assert AddAll(m, p.added) == m;
    assert Timeout(m.c, now) == if t.start - now < MAX_TIMEOUT then t.start - now else MAX_TIMEOUT;
    PollWaiting(m, t, p.wake);
    if p.wake < t.start {
      assert now + MAX_TIMEOUT <= p.wake;
      assert Passes(t.start - p.wake) <= Passes(t.start - now) - 1;
      assert Passes(t.start - p.wake) >= 1;
      NothingDue(m, p.wake);
      QuietPasses(AfterPass(m, p), p.wake, ps[1..], delta, t);
    } else {
      FirstStays(AfterPass(m, p), ps[1..], t.id, t.start, t.start + delta);
    }
  }

  lemma NothingDue(m: Manager, now: int)
    requires Sorted(m.c) && m.c != [] && now < m.c[0].start
    ensures Apply(m, PollAt(now)).c == m.c
  {
  }
}
