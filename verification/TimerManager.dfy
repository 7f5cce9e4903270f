/** Timers as they run: objects whose deadlines change in place, and the ordered container of them.
    Each method is proved against the functions of `Timer`. */
module TimerManager {
  import T = Timer
  import IdleLoop

  class TimerObject {
    const id: nat
    var func: nat
    var current: int
    var delay: int
    var start: int
    var cyclic: bool

    function View(): T.Timer
      reads this
    {
      T.Timer(id, func, current, delay, start, cyclic)
    }

    /** The clock is read twice, for the start of the delay and for the deadline. */
    constructor (id: nat, func: nat, time: int, cyclic: bool, now: int, now': int)
      ensures View() == T.Timer(id, func, now, time, (now' + time) % 0x1_0000_0000_0000_0000, cyclic)
    {
      this.id, this.func, delay, this.cyclic := id, func, time, cyclic;
      current, start := now, T.Plus(now', time);
    }
  }

  class TimerManager {
    var timers: seq<TimerObject>
    var previous: int

    ghost function View(): seq<T.Timer>
      reads this, timers
    {
      Views(timers)
    }

    /** An identity belongs to one object; the container may hold it more than once. */
    ghost predicate Valid()
      reads this
    {
      Identified(timers)
    }

    constructor (now: int)
      ensures Valid() && timers == [] && previous == now
    {
      timers, previous := [], now;
    }

    /** The set's insert, with the comparator of the code. */
    method Insert(t: TimerObject)
      modifies this`timers
      ensures View() == T.Insert(old(View()), t.View())
      ensures timers == old(timers)
              || exists k :: 0 <= k <= |old(timers)| && timers == old(timers)[..k] + [t] + old(timers)[k..]
    {
      var k := 0;
      while k < |timers| && !T.Before(false, t.start, timers[k].start)
        invariant 0 <= k <= |timers|
        invariant forall i :: 0 <= i < k ==> !T.Before(false, t.start, timers[i].start)
      {
        k := k + 1;
      }
      PlaceIs(View(), t.start, k);
      if k == 0 || T.Before(false, timers[k - 1].start, t.start) {
        timers := timers[..k] + [t] + timers[k..];
        assert View() == T.InsertAt(old(View()), k, t.View());
      }
    }

    method AddTimer(id: nat, func: nat, time: int, cyclic: bool, now: int, now': int) returns (t: TimerObject)
      modifies this`timers
      ensures var start := (now' + time) % 0x1_0000_0000_0000_0000;
              View() == T.Insert(old(View()), T.Timer(id, func, now, time, start, cyclic))
    {
      t := new TimerObject(id, func, time, cyclic, now, now');
      Insert(t);
    }

    /** The set's lower bound. */
    method LowerBound(key: int) returns (k: nat)
      ensures k == T.LowerBound(false, View(), key)
    {
      k := 0;
      while k < |timers| && T.Before(false, timers[k].start, key)
        invariant 0 <= k <= |timers|
        invariant forall i :: 0 <= i < k ==> T.Before(false, timers[i].start, key)
      {
        k := k + 1;
      }
      LowerBoundIs(View(), key, k);
    }

    method DeleteTimer(t: TimerObject) returns (done: bool)
      ensures (View(), done) == T.Delete(View(), t.View())
    {
      var target := LowerBound(t.start);
      T.FindNever(View(), t.start);
      if target == |timers| || T.Before(false, t.start, timers[target].start) {
        return false;
      }
      // The erase is never reached: the comparator puts the key before whatever follows it.
      assert false;
    }

    method DetectClockAdjust(time: int) returns (result: bool)
      modifies this`previous
      ensures result == T.Adjusted(old(previous), time) && previous == time
    {
      result := false;
      if time < previous && time < T.Minus(previous, T.ONE_HOUR) {
        result := true;
      }
      previous := time;
    }

    method GetNextTime(now: int) returns (next: int)
      ensures next == T.NextTime(View(), now)
    {
      if timers == [] {
        return T.NO_TIMER;
      }
      if now > timers[0].start {
        return 0;
      }
      return timers[0].start - now;
    }

    method GetExpiredList(now: int) returns (tasks: seq<nat>)
      requires Valid()
      modifies this, timers
      ensures Valid() && forall t :: t in timers ==> t in old(timers)
      ensures var (p, previous') := T.GetExpiredShared(old(previous), old(View()), now);
              View() == p.rest && previous == previous' && tasks == p.tasks
    {
      hide T.Cut, T.Requeue, T.Adjusted;
      tasks := [];
      if timers == [] {
        return;
      }
      var adjusted := DetectClockAdjust(now);
      if !adjusted && now < timers[0].start {
        return;
      }
      adjusted := DetectClockAdjust(now);
      var i := CutPoint(now, adjusted);
      ViewsSlice(timers, i);
      SplitIdentified(timers, i);
      ghost var all := View();
      var expired := timers[..i];
      timers := timers[i..];
      assert View() == all[i..] && Views(expired) == all[..i];
      tasks := Collect(expired, now);
    }

    /** The part of `GetExpiredList` that looks for the first timer that is not taken off. */
    method CutPoint(now: int, adjusted: bool) returns (i: nat)
      ensures i == T.Cut(false, View(), now, adjusted) && i <= |timers|
    {
      i := |timers|;
      if !adjusted {
        i := LowerBound(now);
      }
      ghost var from := i;
      while i < |timers| && timers[i].start == now
        invariant from <= i <= |timers|
        invariant T.Skip(View(), i, now) == T.Skip(View(), from, now)
      {
        i := i + 1;
      }
    }

    /** One turn of the loop over the expired timers; `rest` are the ones still to come. */
    method Requeue(j: TimerObject, ghost rest: seq<TimerObject>, now: int)
      requires Identified([j] + rest + timers)
      modifies this`timers, j
      ensures Identified(rest + timers) && forall t :: t in timers ==> t == j || t in old(timers)
      ensures j.View() == T.Spent(old(j.View()), now) && Views(rest) == T.Touched(old(Views(rest)), j.View())
      ensures var c := T.Touched(old(View()), j.View());
              View() == if old(j.cyclic) then T.Insert(c, j.View()) else c
    {
      hide T.Insert;
      PartsIdentified(j, rest, timers);
      TouchedViews(timers, j, j.View());
      TouchedViews(rest, j, j.View());
      if j.cyclic {
        j.current := now;
        j.start := T.Plus(j.current, j.delay);
        assert View() == T.Touched(old(View()), j.View());
        Insert(j);
      } else {
        j.func := T.NULL_FUNCTION;
        assert View() == T.Touched(old(View()), j.View());
      }
      assert Views(rest) == T.Touched(old(Views(rest)), j.View());
      StillIdentified(j, rest, old(timers), timers);
    }

    /** The loop of `GetExpiredList` over the expired timers: collects their functions and puts the cyclic
        ones back. */
    method Collect(expired: seq<TimerObject>, now: int) returns (tasks: seq<nat>)
      requires Identified(expired + timers)
      modifies this`timers, expired
      ensures Valid() && forall t :: t in timers ==> t in expired || t in old(timers)
      ensures T.Shared(tasks, View()) == T.Requeue(old(View()), old(Views(expired)), now)
    {
      hide T.Requeue, T.Insert, T.Touched, T.Spent, Identified;
      tasks := [];
      var left := expired;
      RequeueNone(View(), now);
      ghost var goal := T.Requeue(View(), Views(expired), now);
      while left != []
        invariant Identified(left + timers)
        invariant forall t :: t in left ==> t in expired
        invariant forall t :: t in timers ==> t in expired || t in old(timers)
        invariant Resumed(goal, tasks, T.Requeue(View(), Views(left), now))
        decreases |left|
      {
        var j, rest := left[0], left[1..];
        ghost var views, before := Views(left), tasks;
        assert j in left && left == [j] + rest;
        ViewsSlice(left, 1);
        RequeueNext(View(), views, now);
        tasks := tasks + [j.func];
        Requeue(j, rest, now);
        ResumedNext(goal, before, views[0].func, T.Requeue(View(), Views(rest), now));
        left := rest;
      }
      RequeueNone(View(), now);
      assert Views(left) == [] && tasks + [] == tasks && left + timers == timers;
    }

    /** `reset` of a timer of this manager; a null function keeps the old one. `shared` says whether the
        timer's `shared_from_this` works; otherwise that call throws before anything is changed. */
    method Reset(t: TimerObject, time: int, fromNow: bool, func: nat, now: int, shared: bool)
      returns (thrown: bool, ghost k: nat)
      requires forall i :: 0 <= i < |timers| && timers[i].id == t.id ==> timers[i] == t
      modifies this`timers, t
      ensures thrown == !shared
      ensures thrown ==> timers == old(timers) && t.View() == old(t.View()) && View() == old(View())
      ensures var was := old(t.View());
              var with := was.(func := if func == T.NULL_FUNCTION then was.func else func);
              !thrown ==>
                && k <= |old(timers)|
                && View() == T.Restarted(old(View()), with, if fromNow then now else was.current, time, k)
    {
      if !shared {
        return true, 0;
      }
      thrown := false;
      var _ := DeleteTimer(t);
      T.FindNever(View(), t.start);
      ghost var c := View();
      if func != T.NULL_FUNCTION {
        t.func := func;
      }
      if fromNow {
        t.current := now;
      }
      t.delay := time;
      t.start := T.Plus(t.current, t.delay);
      ghost var touched := T.Touched(c, t.View());
      assert View() == touched;
      Insert(t);
      T.InsertAlways(touched, t.View());
      k := T.Place(false, touched, t.start);
    }

    /** `refresh`; a timer without a manager does nothing. */
    method Refresh(t: TimerObject, now: int, managed: bool, shared: bool) returns (thrown: bool, ghost k: nat)
      requires forall i :: 0 <= i < |timers| && timers[i].id == t.id ==> timers[i] == t
      modifies this`timers, t
      ensures thrown == (managed && !shared)
      ensures thrown || !managed ==> timers == old(timers) && t.View() == old(t.View()) && View() == old(View())
      ensures managed && shared ==>
                k <= |old(timers)| && View() == T.Restarted(old(View()), old(t.View()), now, old(t.delay), k)
    {
      if !managed {
        return false, 0;
      }
      thrown, k := Reset(t, t.delay, true, T.NULL_FUNCTION, now, shared);
    }
  }

  /** How long `idle` lets epoll_wait sleep. */
  method IdleTimeout(m: TimerManager, now: int) returns (ms: int)
    ensures ms == IdleLoop.Timeout(m.View(), now)
  {
    ms := m.GetNextTime(now);
    if ms != T.NO_TIMER {
      ms := if ms < IdleLoop.MAX_TIMEOUT then ms else IdleLoop.MAX_TIMEOUT;
    } else {
      ms := IdleLoop.MAX_TIMEOUT;
    }
  }

  ghost predicate Identified(ts: seq<TimerObject>) {
    forall t, u :: t in ts && u in ts && t.id == u.id ==> t == u
  }

  lemma SplitIdentified(ts: seq<TimerObject>, i: nat)
    requires Identified(ts) && i <= |ts|
    ensures Identified(ts[..i] + ts[i..])
  {
  }

  lemma PartsIdentified(j: TimerObject, rest: seq<TimerObject>, ts: seq<TimerObject>)
    requires Identified([j] + rest + ts)
    ensures Identified([j] + rest) && Identified([j] + ts)
  {
    assert forall t :: t in [j] + rest || t in [j] + ts ==> t in [j] + rest + ts;
  }

  lemma StillIdentified(j: TimerObject, rest: seq<TimerObject>, ts: seq<TimerObject>, ts': seq<TimerObject>)
    requires Identified([j] + rest + ts) && forall t :: t in ts' ==> t == j || t in ts
    ensures Identified(rest + ts')
  {
    assert forall t :: t in rest + ts' ==> t in [j] + rest + ts;
  }

  /** What is left to do leads to the goal. */
  predicate Resumed(goal: T.Shared, tasks: seq<nat>, r: T.Shared) {
    goal == T.Shared(tasks + r.tasks, r.rest)
  }

  lemma ResumedNext(goal: T.Shared, tasks: seq<nat>, func: nat, r: T.Shared)
    requires Resumed(goal, tasks, T.Shared([func] + r.tasks, r.rest))
    ensures Resumed(goal, tasks + [func], r)
  {
    assert tasks + [func] + r.tasks == tasks + ([func] + r.tasks);
  }

  ghost function Views(ts: seq<TimerObject>): seq<T.Timer>
    reads ts
  {
    seq(|ts|, i requires 0 <= i < |ts| reads ts => ts[i].View())
  }

  lemma RequeueNone(c: seq<T.Timer>, now: int)
    ensures T.Requeue(c, [], now) == T.Shared([], c)
  {
  }

  lemma RequeueNext(c: seq<T.Timer>, expired: seq<T.Timer>, now: int)
    requires expired != []
    ensures var t' := T.Spent(expired[0], now);
            var c' := T.Touched(c, t');
            var r := T.Requeue(if expired[0].cyclic then T.Insert(c', t') else c', T.Touched(expired[1..], t'), now);
            T.Requeue(c, expired, now) == T.Shared([expired[0].func] + r.tasks, r.rest)
  {
  }

  /** Changing one object changes its entries and no others. */
  lemma TouchedViews(ts: seq<TimerObject>, j: TimerObject, t: T.Timer)
    requires Identified([j] + ts) && t.id == j.id
    ensures forall i :: 0 <= i < |ts| ==> (ts[i] == j <==> ts[i].id == t.id)
  {
    assert j in [j] + ts;
    assert forall i :: 0 <= i < |ts| ==> ts[i] in [j] + ts;
  }

  lemma ViewsSlice(ts: seq<TimerObject>, i: nat)
    requires i <= |ts|
    ensures Views(ts[..i]) == Views(ts)[..i] && Views(ts[i..]) == Views(ts)[i..]
  {
  }

  lemma PlaceIs(c: seq<T.Timer>, key: int, k: nat)
    requires k <= |c| && (k < |c| ==> T.Before(false, key, c[k].start))
    requires forall i :: 0 <= i < k ==> !T.Before(false, key, c[i].start)
    ensures T.Place(false, c, key) == k
  {
  }

  lemma LowerBoundIs(c: seq<T.Timer>, key: int, k: nat)
    requires k <= |c| && (k < |c| ==> !T.Before(false, c[k].start, key))
    requires forall i :: 0 <= i < k ==> T.Before(false, c[i].start, key)
    ensures T.LowerBound(false, c, key) == k
  {
  }
}
