/** Event table, timers and scheduler together: whole runs in which workers register for events, reports
    arrive, timers are added and polled, and workers go on with their loops. */
module Server {
  import opened Wrappers
  import Sch = Scheduler
  import Runs = SchedulerRuns
  import I = Interest
  import InterestRuns
  import T = Timer
  import TimerRuns
  import Driving
  import Expiry

  /** `direct` is the work dispatched by neither an event nor a timer. */
  datatype Server = Server(io: I.Io, timers: TimerRuns.Manager, sched: Sch.Sys, direct: multiset<Sch.Work>)

  datatype Action =
    | RegisterEvent(fd: nat, k: I.Kind, fn: Option<nat>, caller: I.Caller, up: bool)  // by any thread
    | Report(fd: nat, events: bv32, left: bv32)
    | Timers(op: TimerRuns.Op)
    | Worker(step: Sch.Step)   // dispatch, scan, enter, leave or wake up

  predicate Enabled(v: Server, a: Action) {
    match a
    case RegisterEvent(fd, k, fn, caller, up) => fd < |v.io.fds| || 1 <= fd
    case Report(fd, events, left) => fd < |v.io.fds| && I.Unstuck(v.io.fds[fd], events)
    case Timers(op) => TimerRuns.Legal(v.timers, op)
    case Worker(e) => Sch.Enabled(v.sched, e) && !e.Register? && !e.Trigger? && !e.Grow?
  }

  /** The functions of the timers a poll fires. */
  function Fired(m: TimerRuns.Manager, now: int): seq<nat> {
    T.Functions(T.GetExpired(m.previous, m.c, now).0.fired)
  }

  /** What the scheduler does in an action. */
  function Steps(v: Server, a: Action): seq<Sch.Step>
    requires Enabled(v, a)
  {
    match a
    case RegisterEvent(fd, k, fn, caller, up) => Driving.RegisterSteps(v.io, fd, k, fn, caller, up)
    case Report(fd, events, left) => Driving.ReportSteps(v.io, fd, events)
    case Timers(op) => if op.PollAt? then Expiry.Dispatches(Fired(v.timers, op.now)) else []
    case Worker(e) => [e]
  }

  function IoAfter(v: Server, a: Action): I.Io
    requires Enabled(v, a)
  {
    match a
    case RegisterEvent(fd, k, fn, caller, up) => I.Await(v.io, fd, k, fn, caller, up)
    case Report(fd, events, left) => I.Handle(v.io, fd, events, left)
    case _ => v.io
  }

  function TimersAfter(v: Server, a: Action): TimerRuns.Manager {
    if a.Timers? then TimerRuns.Apply(v.timers, a.op) else v.timers
  }

  function DirectAfter(v: Server, a: Action): multiset<Sch.Work> {
    match a
    case Worker(Dispatch(Some(work), _)) => v.direct + multiset{work}
    case _ => v.direct
  }

  /** The scheduler's slots are the contexts of the table. */
  ghost predicate Coupled(v: Server) {
    v.sched.slots == Driving.Slots(v.io.fds)
  }

  lemma StepsLegal(v: Server, a: Action)
    requires Coupled(v) && Enabled(v, a)
    ensures Runs.LegalRun(v.sched, Steps(v, a))
  {
    hide Driving.Slots, Runs.Run, Sch.Apply, Driving.RegisterSteps, Driving.ReportSteps;
    hide I.Await, I.Handle;
    match a
    case RegisterEvent(fd, k, fn, caller, up) => Driving.RegisterDrives(v.io, fd, k, fn, caller, up, v.sched);
    case Report(fd, events, left) => Driving.ReportDrives(v.io, fd, events, left, v.sched);
    case Timers(op) => if op.PollAt? { Expiry.BatchQueues(v.sched, Fired(v.timers, op.now)); }
    case Worker(e) => Runs.RunOne(v.sched, e);
  }

  ghost function Apply(v: Server, a: Action): Server
    requires Coupled(v) && Enabled(v, a)
  {
    StepsLegal(v, a);
    Server(IoAfter(v, a), TimersAfter(v, a), Runs.Run(v.sched, Steps(v, a)), DirectAfter(v, a))
  }

  lemma WorkerKeeps(s: Sch.Sys, e: Sch.Step)
    requires Sch.Enabled(s, e) && !e.Register? && !e.Trigger? && !e.Grow?
    ensures Sch.Apply(s, e).slots == s.slots && Sch.Apply(s, e).past.lost == s.past.lost
  {
  }

  lemma StepCoupled(v: Server, a: Action)
    requires Coupled(v) && Enabled(v, a)
    ensures Coupled(Apply(v, a))
  {
    hide Driving.Slots, Runs.Run, Runs.LegalRun, Sch.Apply, Driving.RegisterSteps, Driving.ReportSteps;
    hide I.Await, I.Handle;
    match a
    case RegisterEvent(fd, k, fn, caller, up) => Driving.RegisterDrives(v.io, fd, k, fn, caller, up, v.sched);
    case Report(fd, events, left) => Driving.ReportDrives(v.io, fd, events, left, v.sched);
    case Timers(op) =>
      if op.PollAt? { Expiry.BatchQueues(v.sched, Fired(v.timers, op.now)); } else { NoSteps(v.sched); }
    case Worker(e) =>
      Runs.RunOne(v.sched, e);
      WorkerKeeps(v.sched, e);
  }

  lemma NoSteps(s: Sch.Sys)
    ensures Runs.LegalRun(s, []) && Runs.Run(s, []) == s
  {
  }

  /* ---------- what was handed in ---------- */

  function Funcs(log: seq<TimerRuns.Firing>): seq<nat> {
    seq(|log|, i requires 0 <= i < |log| => log[i].func)
  }

  /** How often callback `f` was accepted by `RegisterEvent`, expired from a timer, or dispatched directly. */
  ghost function HandedIn(v: Server, f: nat): int {
    InterestRuns.Times(v.io.registered, Sch.Fn(f)) + multiset(Funcs(v.timers.log))[f] + v.direct[Sch.Fn(f)]
  }

  /** The scheduler was handed exactly that. */
  ghost predicate Booked(v: Server, f: nat) {
    v.sched.past.submitted[Some(Sch.Fn(f))] == HandedIn(v, f)
  }

  lemma RegisterBooked(v: Server, fd: nat, k: I.Kind, fn: Option<nat>, caller: I.Caller, up: bool, f: nat)
    requires Coupled(v) && Enabled(v, RegisterEvent(fd, k, fn, caller, up)) && Booked(v, f)
    ensures Booked(Apply(v, RegisterEvent(fd, k, fn, caller, up)), f)
  {
    hide Driving.Slots, Runs.Run, Runs.LegalRun, InterestRuns.Times, Sch.Overwritten, Driving.RegisterSteps, Funcs;
    var work := I.Accepted(fn, caller);
    Driving.RegisterDrives(v.io, fd, k, fn, caller, up, v.sched);
    RegisteredAfter(v.io, fd, k, fn, caller, up);
    InterestRuns.TimesAppend(v.io.registered, [work], Sch.Fn(f));
    InterestRuns.TimesOne(work, Sch.Fn(f));
    RegisterSubmits(v.sched.(slots := Driving.Slots(I.Resized(v.io.fds, fd))), Driving.Index(fd, k, fn.Some?), work, f);
    hide I.Await, I.Accepted, InterestRuns.Accepts;
  }

  lemma RegisteredAfter(io: I.Io, fd: nat, k: I.Kind, fn: Option<nat>, caller: I.Caller, up: bool)
    requires fd < |io.fds| || 1 <= fd
    ensures I.Await(io, fd, k, fn, caller, up).registered
            == if InterestRuns.Accepts(io, fd, k, up) then io.registered + [I.Accepted(fn, caller)] else io.registered
  {
  }

  lemma RegisterSubmits(s: Sch.Sys, i: nat, work: Sch.Work, f: nat)
    ensures i < |s.slots| ==> Sch.RegisterWork(s, i, work).past.submitted[Some(Sch.Fn(f))]
                              == s.past.submitted[Some(Sch.Fn(f))] + if work == Sch.Fn(f) then 1 else 0
  {
  }

  lemma ReportBooked(v: Server, fd: nat, events: bv32, left: bv32, f: nat)
    requires Coupled(v) && Enabled(v, Report(fd, events, left)) && Booked(v, f)
    ensures Booked(Apply(v, Report(fd, events, left)), f)
  {
    hide Driving.Slots, Runs.Run, Runs.LegalRun, InterestRuns.Times, Driving.ReportSteps, I.Handle, Driving.Reported;
    Driving.ReportDrives(v.io, fd, events, left, v.sched);
    Driving.HandedOver(v.io, fd, events, left);
  }

  lemma {:induction false} CallsCount(funcs: seq<nat>, f: nat)
    requires f != T.NULL_FUNCTION
    ensures multiset(Expiry.Calls(funcs))[Some(Sch.Fn(f))] == multiset(funcs)[f]
  {
    if funcs != [] {
      CallsCount(funcs[1..], f);
      HeadCount(funcs[0], funcs[1..], f);
      HeadCount(Some(Sch.Fn(funcs[0])), Expiry.Calls(funcs[1..]), Some(Sch.Fn(f)));
      CallsHead(funcs);
      assert funcs == [funcs[0]] + funcs[1..];
      hide Expiry.Calls;
    }
  }

  lemma CallsHead(funcs: seq<nat>)
    requires funcs != []
    ensures Expiry.Calls(funcs) == if funcs[0] == T.NULL_FUNCTION then Expiry.Calls(funcs[1..])
                                   else [Some(Sch.Fn(funcs[0]))] + Expiry.Calls(funcs[1..])
  {
  }

  lemma HeadCount<T>(x: T, s: seq<T>, y: T)
    ensures multiset([x] + s)[y] == multiset(s)[y] + if x == y then 1 else 0
  {
  }

  lemma LogGrows(m: TimerRuns.Manager, now: int)
    ensures Funcs(TimerRuns.Apply(m, TimerRuns.PollAt(now)).log) == Funcs(m.log) + Fired(m, now)
  {
  }

  lemma TimersBooked(v: Server, op: TimerRuns.Op, f: nat)
    requires Coupled(v) && Enabled(v, Timers(op)) && Booked(v, f) && f != T.NULL_FUNCTION
    ensures Booked(Apply(v, Timers(op)), f)
  {
    hide Driving.Slots, Runs.Run, Runs.LegalRun, InterestRuns.Times, Funcs, Fired, Expiry.Dispatches, Expiry.Calls;
    if op.PollAt? {
      Expiry.BatchQueues(v.sched, Fired(v.timers, op.now));
      CallsCount(Fired(v.timers, op.now), f);
      LogGrows(v.timers, op.now);
      hide TimerRuns.Apply;
    } else {
      NoSteps(v.sched);
    }
  }

  lemma WorkerBooked(v: Server, e: Sch.Step, f: nat)
    requires Coupled(v) && Enabled(v, Worker(e)) && Booked(v, f)
    ensures Booked(Apply(v, Worker(e)), f)
  {
    hide Driving.Slots, Runs.Run, Runs.LegalRun, InterestRuns.Times, Funcs, Sch.Apply;
    Runs.RunOne(v.sched, e);
    Runs.Books(v.sched, e, Sch.Fn(f));
  }

  lemma StepBooked(v: Server, a: Action, f: nat)
    requires Coupled(v) && Enabled(v, a) && Booked(v, f) && f != T.NULL_FUNCTION
    ensures Booked(Apply(v, a), f)
  {
    hide Apply, Booked, Coupled;
    match a
    case RegisterEvent(fd, k, fn, caller, up) => RegisterBooked(v, fd, k, fn, caller, up, f);
    case Report(fd, events, left) => ReportBooked(v, fd, events, left, f);
    case Timers(op) => TimersBooked(v, op, f);
    case Worker(e) => WorkerBooked(v, e, f);
  }

  /* ---------- whole runs ---------- */

  ghost predicate LegalRun(v: Server, acts: seq<Action>)
    requires Coupled(v)
    decreases |acts|
  {
    acts == [] || (Enabled(v, acts[0]) && (StepCoupled(v, acts[0]); LegalRun(Apply(v, acts[0]), acts[1..])))
  }

  ghost function Run(v: Server, acts: seq<Action>): (r: Server)
    requires Coupled(v) && LegalRun(v, acts)
    ensures Coupled(r)
    decreases |acts|
  {
    if acts == [] then v
    else
      StepCoupled(v, acts[0]);
      Run(Apply(v, acts[0]), acts[1..])
  }

  /** Nothing registered, no timer ever fired, nothing dispatched, all workers looking. */
  ghost predicate Started(v: Server) {
    && v.io == InterestRuns.START && v.timers.log == [] && v.direct == multiset{}
    && Runs.Initial(v.sched) && v.sched.slots == []
  }

  /** What the scheduler's own runs keep. */
  ghost predicate Kept(s: Sch.Sys) {
    Runs.Conserved(s) && Runs.OnlyCoroutinesDropped(s) && Runs.Orderly(s) && Runs.Counted(s)
  }

  lemma {:induction false} AlwaysKept(v: Server, acts: seq<Action>, f: nat)
    requires Coupled(v) && LegalRun(v, acts) && Kept(v.sched) && Booked(v, f) && f != T.NULL_FUNCTION
    ensures Kept(Run(v, acts).sched) && Booked(Run(v, acts), f)
    decreases |acts|
  {
    hide Coupled, Enabled, Booked, Runs.LegalRun, Runs.Run, Runs.Conserved, Runs.OnlyCoroutinesDropped,
      Runs.Orderly, Runs.Counted, Steps;
    if acts != [] {
      var a := acts[0];
      StepCoupled(v, a);
      StepsLegal(v, a);
      Runs.AlwaysConserved(v.sched, Steps(v, a));
      Runs.NoCallbackDropped(v.sched, Steps(v, a));
      Runs.AlwaysOrderly(v.sched, Steps(v, a));
      Runs.AlwaysCounted(v.sched, Steps(v, a));
      StepBooked(v, a, f);
      AlwaysKept(Apply(v, a), acts[1..], f);
    }
  }

  /** How often callback `f` is executed by a worker in a run. */
  ghost function Executions(v: Server, acts: seq<Action>, f: nat): nat
    requires Coupled(v) && LegalRun(v, acts)
    decreases |acts|
  {
    if acts == [] then 0
    else
      StepsLegal(v, acts[0]); StepCoupled(v, acts[0]);
      Runs.Executions(v.sched, Steps(v, acts[0]), f) + Executions(Apply(v, acts[0]), acts[1..], f)
  }

  lemma {:induction false} EnteredIsExecuted(v: Server, acts: seq<Action>, f: nat)
    requires Coupled(v) && LegalRun(v, acts)
    ensures Run(v, acts).sched.past.entered[Some(Sch.Fn(f))]
            == v.sched.past.entered[Some(Sch.Fn(f))] + Executions(v, acts, f)
    decreases |acts|
  {
    hide Coupled, Enabled, Steps, Runs.Run, Runs.LegalRun, Runs.Executions;
    if acts != [] {
      StepCoupled(v, acts[0]);
      StepsLegal(v, acts[0]);
      Runs.EnteredIsExecuted(v.sched, Steps(v, acts[0]), f);
      EnteredIsExecuted(Apply(v, acts[0]), acts[1..], f);
    }
  }

  /** Every time callback `f` was accepted for an event, expired from a timer or was dispatched, it is now
      in a context, in the queue, in a worker's hand, was executed, or was overwritten in its context. */
  ghost predicate Accounted(v: Server, f: nat, executions: int) {
    var x := Some(Sch.Fn(f));
    HandedIn(v, f) == InterestRuns.Stored(v.io.fds, Sch.Fn(f)) + multiset(Sch.QueuedWork(v.sched.queue))[x]
                      + multiset(Sch.HeldWork(v.sched.workers))[x] + executions + v.sched.past.lost[x]
  }

  lemma StartsKept(v: Server, f: nat)
    requires Started(v)
    ensures Coupled(v) && Kept(v.sched) && Booked(v, f)
  {
    hide Runs.Conserved, Runs.Orderly, Runs.Counted, Runs.OneToken, Runs.Exclusive;
    Runs.StartsGood(v.sched);
    Runs.NothingDropped(v.sched);
    assert Funcs([]) == [];
    assert Driving.Slots([]) == [];
  }

  /** The end-to-end result, over every run of the whole server from its start. */
  lemma EndToEnd(v: Server, acts: seq<Action>, f: nat)
    requires Started(v) && f != T.NULL_FUNCTION
    ensures Coupled(v)
    ensures LegalRun(v, acts) ==> Accounted(Run(v, acts), f, Executions(v, acts, f))
  {
    StartsKept(v, f);
    assert v.sched.past.entered == multiset{};
    hide Started, Coupled, LegalRun, Run, Kept, Booked, Accounted, Executions;
    if LegalRun(v, acts) {
      AlwaysKept(v, acts, f);
      EnteredIsExecuted(v, acts, f);
      KeptAccounts(Run(v, acts), f);
    }
  }

  lemma KeptAccounts(v: Server, f: nat)
    requires Coupled(v) && Kept(v.sched) && Booked(v, f)
    ensures Accounted(v, f, v.sched.past.entered[Some(Sch.Fn(f))])
  {
    hide Runs.Conserved, Runs.OnlyCoroutinesDropped, Runs.Orderly, Runs.Counted, Driving.Slots, HandedIn;
    Runs.PlacesOf(v.sched, f);
    Driving.SlotsStored(v.io.fds, Sch.Fn(f));
  }

  /* ---------- nothing lost ---------- */

  /** A registration that the kernel accepts writes an empty field. */
  predicate Careful(v: Server, a: Action)
    requires Enabled(v, a)
  {
    match a
    case RegisterEvent(fd, k, fn, caller, up) =>
      InterestRuns.Accepts(v.io, fd, k, up) ==> InterestRuns.Written(I.ContextOf(I.Target(v.io, fd), k), fn).None?
    case _ => true
  }

  /** An action loses work if and only if it is not careful. */
  lemma LostExactly(v: Server, a: Action)
    requires Coupled(v) && Enabled(v, a)
    ensures Apply(v, a).sched.past.lost == v.sched.past.lost <==> Careful(v, a)
  {
    hide Driving.Slots, Runs.Run, Runs.LegalRun, Sch.Apply, Driving.RegisterSteps, Driving.ReportSteps, I.Await,
      I.Handle, InterestRuns.Accepts, InterestRuns.Written, I.Target, I.ContextOf, Fired;
    match a
    case RegisterEvent(fd, k, fn, caller, up) =>
      Driving.RegisterDrives(v.io, fd, k, fn, caller, up, v.sched);
      Driving.AwaitSlots(v.io, fd, k, fn, caller, up);
      OverwrittenLoses(v.sched.past, InterestRuns.Written(I.ContextOf(I.Target(v.io, fd), k), fn));
    case Report(fd, events, left) => Driving.ReportDrives(v.io, fd, events, left, v.sched);
    case Timers(op) =>
      if op.PollAt? { Expiry.BatchQueues(v.sched, Fired(v.timers, op.now)); } else { NoSteps(v.sched); }
    case Worker(e) =>
      Runs.RunOne(v.sched, e);
      WorkerKeeps(v.sched, e);
  }

  lemma OverwrittenLoses(past: Sch.Past, slot: Option<Sch.Work>)
    ensures Sch.Overwritten(past, slot).lost == past.lost <==> slot.None?
  {
  }

  /** The actions that keep table, kernel and counter in step, see `Interest`. */
  ghost predicate GoodAction(v: Server, a: Action)
    requires Enabled(v, a)
  {
    match a
    case RegisterEvent(fd, k, fn, caller, up) =>
      InterestRuns.Good(v.io, InterestRuns.Accept(fd, k, fn, caller, up))
    case Report(fd, events, left) => InterestRuns.Good(v.io, InterestRuns.Report(fd, events, left))
    case _ => true
  }

  ghost predicate GoodRun(v: Server, acts: seq<Action>)
    requires Coupled(v) && LegalRun(v, acts)
    decreases |acts|
  {
    acts == [] || (GoodAction(v, acts[0]) && (StepCoupled(v, acts[0]); GoodRun(Apply(v, acts[0]), acts[1..])))
  }

  lemma GoodStep(v: Server, a: Action)
    requires Coupled(v) && Enabled(v, a) && GoodAction(v, a) && I.Inv(v.io)
    ensures I.Inv(Apply(v, a).io) && Careful(v, a)
  {
    hide I.Inv, I.Await, I.Handle, I.Target, InterestRuns.Written, InterestRuns.Accepts, I.Expected,
      I.ContextOf, I.HasBit;
    match a
    case RegisterEvent(fd, k, fn, caller, up) =>
      I.RegisterExactly(v.io, fd, k, fn, caller, up);
      if up { GoodWritesEmpty(v.io, fd, k, fn); } else { RefusedAccepts(v.io, fd, k); }
    case Report(fd, events, left) => I.ReadyExactly(v.io, fd, events, left);
    case _ =>
  }

  lemma RefusedAccepts(io: I.Io, fd: nat, k: I.Kind)
    requires fd < |io.fds| || 1 <= fd
    ensures !InterestRuns.Accepts(io, fd, k, false)
  {
  }

  lemma GoodWritesEmpty(io: I.Io, fd: nat, k: I.Kind, fn: Option<nat>)
    requires I.Inv(io) && (fd < |io.fds| || 1 <= fd) && !I.HasBit(I.Target(io, fd).current, k)
    ensures InterestRuns.Written(I.ContextOf(I.Target(io, fd), k), fn).None?
  {
  }

  lemma {:induction false} AlwaysGood(v: Server, acts: seq<Action>)
    requires Coupled(v) && LegalRun(v, acts) && GoodRun(v, acts) && I.Inv(v.io)
    ensures I.Inv(Run(v, acts).io) && Run(v, acts).sched.past.lost == v.sched.past.lost
    decreases |acts|
  {
    hide Coupled, Enabled, GoodAction, Careful, I.Inv, Apply;
    if acts != [] {
      StepCoupled(v, acts[0]);
      GoodStep(v, acts[0]);
      LostExactly(v, acts[0]);
      AlwaysGood(Apply(v, acts[0]), acts[1..]);
    }
  }

  /** In a run of good actions nothing is lost: every accepted, expired or dispatched callback is exactly
      once in a context, in the queue, in a worker's hand, or was executed. */
  lemma ExactlyOnce(v: Server, acts: seq<Action>, f: nat)
    requires Started(v) && f != T.NULL_FUNCTION && Coupled(v) && LegalRun(v, acts) && GoodRun(v, acts)
    ensures var r, x := Run(v, acts), Some(Sch.Fn(f));
            HandedIn(r, f) == InterestRuns.Stored(r.io.fds, Sch.Fn(f)) + multiset(Sch.QueuedWork(r.sched.queue))[x]
                              + multiset(Sch.HeldWork(r.sched.workers))[x] + Executions(v, acts, f)
  {
    EndToEnd(v, acts, f);
    InterestRuns.StartsInStep();
    hide LegalRun, GoodRun, Coupled, Run, I.Inv, Executions;
    AlwaysGood(v, acts);
    hide HandedIn, InterestRuns.Stored, Sch.QueuedWork, Sch.HeldWork;
  }

  /* ---------- one worker at a time ---------- */

  ghost predicate DisciplinedRun(v: Server, acts: seq<Action>)
    requires Coupled(v) && LegalRun(v, acts)
    decreases |acts|
  {
    acts == [] ||
    (StepsLegal(v, acts[0]); StepCoupled(v, acts[0]);
     Runs.DisciplinedRun(v.sched, Steps(v, acts[0])) && DisciplinedRun(Apply(v, acts[0]), acts[1..]))
  }

  /** With one wake token for a coroutine at a time, contexts included, no coroutine is ever executed by
      two workers, over every run of the whole server. */
  lemma {:induction false} NeverTwice(v: Server, acts: seq<Action>)
    requires Coupled(v) && LegalRun(v, acts) && DisciplinedRun(v, acts)
    requires Runs.OneToken(v.sched) && Runs.Exclusive(v.sched.workers, v.sched.state)
    ensures Runs.OneToken(Run(v, acts).sched) && Runs.Exclusive(Run(v, acts).sched.workers, Run(v, acts).sched.state)
    decreases |acts|
  {
    hide Coupled, Enabled, Steps, Runs.OneToken, Runs.Exclusive, Runs.Run, Runs.LegalRun, Runs.DisciplinedRun;
    if acts != [] {
      StepCoupled(v, acts[0]);
      StepsLegal(v, acts[0]);
      Runs.NeverTwice(v.sched, Steps(v, acts[0]));
      NeverTwice(Apply(v, acts[0]), acts[1..]);
    }
  }

  /* ---------- reports that get stuck ---------- */

  /** What a run does to the event table alone. */
  function IoSteps(acts: seq<Action>): seq<InterestRuns.IoStep> {
    if acts == [] then []
    else
      (match acts[0]
       case RegisterEvent(fd, k, fn, caller, up) => [InterestRuns.Accept(fd, k, fn, caller, up)]
       case Report(fd, events, left) => [InterestRuns.Report(fd, events, left)]
       case _ => []) + IoSteps(acts[1..])
  }

  lemma {:induction false} ProjectsIo(v: Server, acts: seq<Action>)
    requires Coupled(v) && LegalRun(v, acts)
    ensures InterestRuns.LegalRun(v.io, IoSteps(acts)) && InterestRuns.RunIo(v.io, IoSteps(acts)) == Run(v, acts).io
    decreases |acts|
  {
    hide Coupled, Steps, I.Await, I.Handle, I.Unstuck;
    if acts != [] {
      StepCoupled(v, acts[0]);
      ProjectsIo(Apply(v, acts[0]), acts[1..]);
      var rest := IoSteps(acts[1..]);
      if IoSteps(acts) != rest {
        assert IoSteps(acts)[1..] == rest;
      }
    }
  }

  /** Each context that the report fires is empty or was last registered by a thread with a current
      scheduler. */
  predicate AllReachable(es: seq<InterestRuns.IoStep>, fd: nat, events: bv32)
    requires InterestRuns.LegalRun(InterestRuns.START, es) && fd < |InterestRuns.RunIo(InterestRuns.START, es).fds|
  {
    I.Concerns(events, InterestRuns.RunIo(InterestRuns.START, es).fds[fd].current) ==>
      && (I.HasBit(events, I.Read) ==> InterestRuns.Reachable(InterestRuns.START, es, fd, I.Read))
      && (I.HasBit(events, I.Write) ==> InterestRuns.Reachable(InterestRuns.START, es, fd, I.Write))
  }

  /** After every run of the server that is exactly when a report can be handled. */
  lemma HandledExactly(v: Server, acts: seq<Action>, fd: nat, events: bv32, left: bv32)
    requires Started(v) && Coupled(v) && LegalRun(v, acts) && fd < |Run(v, acts).io.fds|
    ensures InterestRuns.LegalRun(InterestRuns.START, IoSteps(acts))
    ensures InterestRuns.RunIo(InterestRuns.START, IoSteps(acts)) == Run(v, acts).io
    ensures Enabled(Run(v, acts), Report(fd, events, left)) <==> AllReachable(IoSteps(acts), fd, events)
  {
    ProjectsIo(v, acts);
    InterestRuns.HandedOverExactly(IoSteps(acts), fd, events);
    hide Run, LegalRun, IoSteps, InterestRuns.LegalRun, InterestRuns.RunIo, InterestRuns.Reachable, I.Unstuck;
  }

  /** Every registration comes from a thread with a current scheduler. */
  predicate OnlyScheduled(acts: seq<Action>) {
    forall i :: 0 <= i < |acts| && acts[i].RegisterEvent? ==> acts[i].caller.scheduled
  }

  lemma {:induction false} OnlyScheduledSteps(acts: seq<Action>)
    requires OnlyScheduled(acts)
    ensures InterestRuns.OnlyScheduled(IoSteps(acts))
  {
    if acts != [] {
      OnlyScheduledSteps(acts[1..]);
    }
  }

  /** Then no report ever gets stuck. */
  lemma NeverStuck(v: Server, acts: seq<Action>, fd: nat, events: bv32, left: bv32)
    requires Started(v) && Coupled(v) && LegalRun(v, acts) && OnlyScheduled(acts) && fd < |Run(v, acts).io.fds|
    ensures Enabled(Run(v, acts), Report(fd, events, left))
  {
    ProjectsIo(v, acts);
    OnlyScheduledSteps(acts);
    InterestRuns.NeverStuck(IoSteps(acts), fd, events);
    hide Run, LegalRun, IoSteps, InterestRuns.LegalRun, InterestRuns.RunIo, I.Unstuck;
  }
}
