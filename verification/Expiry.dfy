/** Expired timers on their way to the workers: what a poll collects is dispatched function by function. */
module Expiry {
  import opened Scheduler
  import opened Wrappers
  import SchedulerRuns
  import T = Timer
  import S = Schedule

  /** A function that was cleared makes an empty task. */
  function TaskOf(func: nat): Option<Work> {
    if func == T.NULL_FUNCTION then None else Some(Fn(func))
  }

  /** `batch_dispatch` as steps of the scheduler. */
  function Dispatches(funcs: seq<nat>): seq<Step> {
    if funcs == [] then [] else [Dispatch(TaskOf(funcs[0]), ANY)] + Dispatches(funcs[1..])
  }

  /** The callbacks among the functions, in order. */
  function Calls(funcs: seq<nat>): seq<Option<Work>> {
    if funcs == [] then []
    else (if funcs[0] == T.NULL_FUNCTION then [] else [Some(Fn(funcs[0]))]) + Calls(funcs[1..])
  }

  /** `t` is `s` with more work handed in and put behind what is queued, for any worker. */
  ghost predicate Queues(s: Sys, t: Sys, work: seq<Option<Work>>) {
    && Behind(s.queue, t.queue, work)
    && t.state == s.state
    && t.past == s.past.(submitted := s.past.submitted + multiset(work))
    && t.slots == s.slots && t.workers == s.workers
  }

  lemma QueuesNothing(s: Sys)
    ensures Queues(s, s, [])
  {
  }

  lemma QueuesThen(s: Sys, t: Sys, u: Sys, a: seq<Option<Work>>, b: seq<Option<Work>>)
    requires Queues(s, t, a) && Queues(t, u, b)
    ensures Queues(s, u, a + b)
  {
    BehindThen(s.queue, t.queue, u.queue, a, b);
    hide Behind;
  }

  lemma OneQueued(s: Sys, func: nat)
    ensures Queues(s, Apply(s, Dispatch(TaskOf(func), ANY)), if func == T.NULL_FUNCTION then [] else [Some(Fn(func))])
  {
  }

  lemma {:induction false} BatchQueues(s: Sys, funcs: seq<nat>)
    ensures SchedulerRuns.LegalRun(s, Dispatches(funcs))
    ensures Queues(s, SchedulerRuns.Run(s, Dispatches(funcs)), Calls(funcs))
    decreases |funcs|
  {
    hide Apply, Queues, TaskOf;
    if funcs == [] {
      QueuesNothing(s);
    } else {
      var e := Dispatch(TaskOf(funcs[0]), ANY);
      var one := if funcs[0] == T.NULL_FUNCTION then [] else [Some(Fn(funcs[0]))];
      assert Dispatches(funcs)[1..] == Dispatches(funcs[1..]);
      OneQueued(s, funcs[0]);
      BatchQueues(Apply(s, e), funcs[1..]);
      QueuesThen(s, Apply(s, e), SchedulerRuns.Run(s, Dispatches(funcs)), one, Calls(funcs[1..]));
    }
  }

  /** A poll and the batch dispatch behind it queue the functions of exactly the due timers, each once and
      in deadline order, behind whatever is queued and for any worker: one that finds nothing before them
      takes the first. They change nothing else the workers see. */
  lemma ExpiryDrives(previous: int, c: seq<T.Timer>, now: int, s: Sys)
    requires T.Sorted(c)
    ensures var funcs := T.Functions(T.GetExpired(previous, c, now).0.fired);
            && funcs == T.Functions(T.Due(c, now))
            && SchedulerRuns.LegalRun(s, Dispatches(funcs))
            && var t := SchedulerRuns.Run(s, Dispatches(funcs));
            && Behind(s.queue, t.queue, Calls(funcs)) && t.workers == s.workers && t.state == s.state
            && (Calls(funcs) != [] ==>
                  forall v: nat :: v < |s.workers| && Waits(s, v) ==> TakesFirst(t, v, Calls(funcs)[0]))
  {
    T.VerdictNeverMatters(previous, c, now);
    T.ExpireExactly(c, now, false);
    var funcs := T.Functions(T.Due(c, now));
    BatchQueues(s, funcs);
    CallsAreFunctions(funcs);
    hide Dispatches, Calls, SchedulerRuns.Run, SchedulerRuns.LegalRun, T.Due, T.GetExpired, T.Functions, T.Expire;
    hide Waits, TakesFirst;
    var t := SchedulerRuns.Run(s, Dispatches(funcs));
    forall v: nat | v < |s.workers| && Waits(s, v) && Calls(funcs) != [] ensures TakesFirst(t, v, Calls(funcs)[0]) {
      FirstTaken(s, t, v, Calls(funcs));
    }
  }

  /** The worker looks and finds nothing in the queue it may take. */
  predicate Waits(s: Sys, v: nat)
    requires v < |s.workers|
  {
    s.workers[v].Looking? && forall i :: 0 <= i < |s.queue| ==> !Eligible(s.queue[i], v, s.state)
  }

  /** The scan of worker `v` takes an entry with this work. */
  predicate TakesFirst(t: Sys, v: nat, work: Option<Work>) {
    && Enabled(t, Scan(v)) && v < |Apply(t, Scan(v)).workers|
    && work.Some? && Held(Apply(t, Scan(v)).workers[v]) == work
  }

  lemma FirstTaken(s: Sys, t: Sys, v: nat, work: seq<Option<Work>>)
    requires Behind(s.queue, t.queue, work) && t.workers == s.workers && t.state == s.state
    requires v < |s.workers| && Waits(s, v)
    requires work != [] && work[0].Some? && work[0].value.Fn?
    ensures TakesFirst(t, v, work[0])
  {
    var n := |s.queue|;
    assert Eligible(t.queue[n + 0], v, t.state);
    assert forall i :: 0 <= i < n ==> t.queue[i] == s.queue[i];
    var k := Pick(t.queue, v, t.state);
    assert k == n;
  }

  lemma {:induction false} CallsAreFunctions(funcs: seq<nat>)
    ensures forall i :: 0 <= i < |Calls(funcs)| ==> Calls(funcs)[i].Some? && Calls(funcs)[i].value.Fn?
  {
    if funcs != [] {
      CallsAreFunctions(funcs[1..]);
    }
  }

  /** `batch_dispatch`. */
  method BatchDispatch(schedule: S.Schedule, funcs: seq<nat>)
    modifies schedule
    ensures SchedulerRuns.LegalRun(old(schedule.View()), Dispatches(funcs))
    ensures schedule.View() == SchedulerRuns.Run(old(schedule.View()), Dispatches(funcs))
  {
    hide Apply;
    BatchQueues(schedule.View(), funcs);
    var begin := 0;
    while begin < |funcs|
      invariant 0 <= begin <= |funcs|
      invariant SchedulerRuns.LegalRun(schedule.View(), Dispatches(funcs[begin..]))
      invariant SchedulerRuns.Run(schedule.View(), Dispatches(funcs[begin..]))
                == SchedulerRuns.Run(old(schedule.View()), Dispatches(funcs))
    {
      ghost var rest := Dispatches(funcs[begin..]);
      assert rest[0] == Dispatch(TaskOf(funcs[begin]), ANY) && rest[1..] == Dispatches(funcs[begin + 1..]);
      var _ := schedule.DispatchTask(TaskOf(funcs[begin]), ANY);
      begin := begin + 1;
    }
  }
}
