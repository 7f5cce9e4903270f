/** Whole runs of registrations and reports, and how they drive the scheduler. */
module InterestRuns {
  import opened Scheduler
  import opened Wrappers
  import opened Interest

  /* ---------- what the contexts hold ---------- */

  function Holds(c: Context, x: Work): nat {
    (if x.Fn? && c.fn == Some(x.f) then 1 else 0) + (if x.Co? && c.co == Some(x.c) then 1 else 0)
  }

  function EventHolds(e: Event, x: Work): nat {
    Holds(e.read, x) + Holds(e.write, x)
  }

  function Stored(fds: seq<Event>, x: Work): nat {
    if fds == [] then 0 else Stored(fds[..|fds| - 1], x) + EventHolds(fds[|fds| - 1], x)
  }

  function Times(s: seq<Work>, x: Work): nat {
    if s == [] then 0 else Times(s[..|s| - 1], x) + if s[|s| - 1] == x then 1 else 0
  }

  /** How much of `x` was accepted and is neither held nor handed over. */
  function Missing(io: Io, x: Work): int {
    Times(io.registered, x) - Stored(io.fds, x) - Times(io.dispatched, x)
  }

  /** Every callback accepted is in a context or was handed to the scheduler, as often as it was accepted. */
  ghost predicate Conserved(io: Io) {
    forall x: Work :: Missing(io, x) == 0
  }

  lemma {:induction false} StoredUpdate(fds: seq<Event>, fd: nat, e: Event, x: Work)
    requires fd < |fds|
    ensures Stored(fds[fd := e], x) == Stored(fds, x) - EventHolds(fds[fd], x) + EventHolds(e, x)
  {
    var n := |fds| - 1;
    if fd == n {
      assert fds[fd := e][..n] == fds[..n];
    } else {
      assert fds[fd := e][..n] == fds[..n][fd := e];
      StoredUpdate(fds[..n], fd, e, x);
    }
  }

  lemma {:induction false} StoredGrow(fds: seq<Event>, n: nat, x: Work)
    ensures Stored(fds + seq(n, _ => NEW_EVENT), x) == Stored(fds, x)
  {
    var more := seq(n, _ => NEW_EVENT);
    if n == 0 {
      assert fds + more == fds;
    } else {
      assert (fds + more)[..|fds| + n - 1] == fds + seq(n - 1, _ => NEW_EVENT);
      StoredGrow(fds, n - 1, x);
    }
  }

  lemma {:induction false} TimesAppend(s: seq<Work>, t: seq<Work>, x: Work)
    ensures Times(s + t, x) == Times(s, x) + Times(t, x)
  {
    if t == [] {
      assert s + t == s;
    } else {
      assert (s + t)[..|s + t| - 1] == s + t[..|t| - 1];
      TimesAppend(s, t[..|t| - 1], x);
    }
  }

  lemma TimesOne(y: Work, x: Work)
    ensures Times([y], x) == if y == x then 1 else 0
  {
  }

  lemma TimesContents(c: Context, x: Work)
    ensures Times(Contents(c), x) == Holds(c, x)
  {
    hide Times;
    var f := if c.fn.Some? then [Fn(c.fn.value)] else [];
    var g := if c.co.Some? then [Co(c.co.value)] else [];
    TimesAppend(f, g, x);
    if c.fn.Some? { TimesOne(Fn(c.fn.value), x); }
    if c.co.Some? { TimesOne(Co(c.co.value), x); }
    TimesNone(x);
  }

  lemma TimesNone(x: Work)
    ensures Times([], x) == 0
  {
  }

  /* ---------- runs ---------- */

  datatype IoStep =
    | Accept(fd: nat, k: Kind, fn: Option<nat>, caller: Caller, up: bool)
    | Report(fd: nat, events: bv32, left: bv32)

  /** The kernel is willing and the request is legal. */
  predicate Accepts(io: Io, fd: nat, k: Kind, up: bool)
    requires fd < |io.fds| || 1 <= fd
  {
    var current := Target(io, fd).current;
    up && Ctl(io.kernel, RegisterOp(current), fd, KernelMask(WithBit(current, k))).Some?
  }

  /** The descriptor has a place in the table, and a report does not get stuck. */
  predicate Enabled(io: Io, e: IoStep) {
    match e
    case Accept(fd, k, fn, caller, up) => fd < |io.fds| || 1 <= fd
    case Report(fd, events, left) => fd < |io.fds| && Unstuck(io.fds[fd], events)
  }

  function Act(io: Io, e: IoStep): Io
    requires Enabled(io, e)
  {
    match e
    case Accept(fd, k, fn, caller, up) => Await(io, fd, k, fn, caller, up)
    case Report(fd, events, left) => Handle(io, fd, events, left)
  }

  predicate LegalRun(io: Io, es: seq<IoStep>)
    decreases |es|
  {
    es == [] || (Enabled(io, es[0]) && LegalRun(Act(io, es[0]), es[1..]))
  }

  function RunIo(io: Io, es: seq<IoStep>): Io
    requires LegalRun(io, es)
    decreases |es|
  {
    if es == [] then io else RunIo(Act(io, es[0]), es[1..])
  }

  /** The steps that keep everything in step, see `RegisterExactly` and `ReadyExactly`. */
  ghost predicate Good(io: Io, e: IoStep)
    requires Enabled(io, e)
  {
    match e
    case Accept(fd, k, fn, caller, up) => up <==> !HasBit(Target(io, fd).current, k)
    case Report(fd, events, left) => Expected(io.fds[fd].current, events, left)
  }

  ghost predicate GoodRun(io: Io, es: seq<IoStep>)
    requires LegalRun(io, es)
    decreases |es|
  {
    es == [] || (Good(io, es[0]) && GoodRun(Act(io, es[0]), es[1..]))
  }

  /** What is in the field that a registration writes: the function when one is passed, else the coroutine. */
  function Written(c: Context, fn: Option<nat>): Option<Work> {
    if fn.Some? then (if c.fn.Some? then Some(Fn(c.fn.value)) else None)
    else if c.co.Some? then Some(Co(c.co.value))
    else None
  }

  function One(y: Option<Work>, x: Work): int {
    if y == Some(x) then 1 else 0
  }

  /** Whatever the state of the table, a registration makes exactly the work missing that it overwrites. */
  lemma RegistrationMisses(io: Io, fd: nat, k: Kind, fn: Option<nat>, caller: Caller, up: bool, x: Work)
    requires fd < |io.fds| || 1 <= fd
    ensures Missing(Await(io, fd, k, fn, caller, up), x)
            == Missing(io, x) + if Accepts(io, fd, k, up) then One(Written(ContextOf(Target(io, fd), k), fn), x) else 0
  {
    hide Stored, Times, Ctl, RegisterOp, KernelMask, WithBit, Armed;
    var fds := Resized(io.fds, fd);
    if fd >= |io.fds| { StoredGrow(io.fds, 2 * fd - |io.fds|, x); }
    var e := fds[fd];
    var e1 := e.(current := WithBit(e.current, k));
    StoredUpdate(fds, fd, e1, x);
    StoredUpdate(fds, fd, Armed(e1, k, fn, caller), x);
    ArmedHolds(e1, k, fn, caller, x);
    TimesAppend(io.registered, [Accepted(fn, caller)], x);
    TimesOne(Accepted(fn, caller), x);
  }

  lemma ArmedHolds(e: Event, k: Kind, fn: Option<nat>, caller: Caller, x: Work)
    ensures EventHolds(Armed(e, k, fn, caller), x)
            == EventHolds(e, x) + One(Some(Accepted(fn, caller)), x) - One(Written(ContextOf(e, k), fn), x)
  {
  }

  /** An accepted registration loses nothing if and only if the field it writes was empty: a function
      registered over a function and a coroutine over a coroutine lose the first one, mixed ones do not. */
  lemma RegistrationLosesExactly(io: Io, fd: nat, k: Kind, fn: Option<nat>, caller: Caller, up: bool)
    requires (fd < |io.fds| || 1 <= fd) && Accepts(io, fd, k, up)
    ensures (forall x: Work :: Missing(Await(io, fd, k, fn, caller, up), x) == Missing(io, x))
            <==> Written(ContextOf(Target(io, fd), k), fn).None?
  {
    hide Missing, Await, Accepts, Written, Target;
    var written := Written(ContextOf(Target(io, fd), k), fn);
    if written.Some? {
      RegistrationMisses(io, fd, k, fn, caller, up, written.value);
    }
    forall x: Work ensures Missing(Await(io, fd, k, fn, caller, up), x) == Missing(io, x) + One(written, x) {
      RegistrationMisses(io, fd, k, fn, caller, up, x);
    }
  }

  /** A type that is not registered has nothing in its context. */
  lemma NothingWritten(e: Event, k: Kind, fn: Option<nat>)
    requires EventOk(e) && !HasBit(e.current, k)
    ensures Written(ContextOf(e, k), fn).None?
  {
  }

  lemma AcceptMisses(io: Io, fd: nat, k: Kind, fn: Option<nat>, caller: Caller, up: bool, x: Work)
    requires Inv(io) && Enabled(io, Accept(fd, k, fn, caller, up)) && Good(io, Accept(fd, k, fn, caller, up))
    ensures Missing(Await(io, fd, k, fn, caller, up), x) == Missing(io, x)
  {
    ResizeKeeps(io, fd);
    RegistrationMisses(io, fd, k, fn, caller, up, x);
    if up {
      NothingWritten(Target(io, fd), k, fn);
    }
    hide Missing, Await, Written, Inv, Target;
  }

  lemma FireMisses(io: Io, fd: nat, k: Kind, x: Work)
    requires fd < |io.fds|
    ensures Missing(Fire(io, fd, k), x) == Missing(io, x)
  {
    hide Stored, Times;
    StoredUpdate(io.fds, fd, Triggered(io.fds[fd], k), x);
    TimesAppend(io.dispatched, Contents(ContextOf(io.fds[fd], k)), x);
    TimesContents(ContextOf(io.fds[fd], k), x);
  }

  lemma FireBothMisses(io: Io, fd: nat, read: bool, write: bool, x: Work)
    requires fd < |io.fds|
    ensures Missing(FireBoth(io, fd, read, write), x) == Missing(io, x)
  {
    hide Missing, Fire;
    FireMisses(io, fd, Read, x);
    FireSize(io, fd, Read);
    FireMisses(if read then Fire(io, fd, Read) else io, fd, Write, x);
  }

  lemma ToldMisses(io: Io, op: Op, fd: nat, mask: bv32, read: bool, write: bool, x: Work)
    requires fd < |io.fds|
    ensures Tell(io, op, fd, mask).fds == io.fds
    ensures Missing(FireBoth(Tell(io, op, fd, mask), fd, read, write), x) == Missing(io, x)
  {
    hide FireBoth, Stored, Times, Ctl;
    FireBothMisses(Tell(io, op, fd, mask), fd, read, write, x);
  }

  lemma ReportMisses(io: Io, fd: nat, events: bv32, left: bv32, x: Work)
    requires fd < |io.fds|
    ensures Missing(Handle(io, fd, events, left), x) == Missing(io, x)
  {
    hide FireBoth, Missing, ReadyOp, Tell;
    ToldMisses(io, ReadyOp(StillAwaited(io.fds[fd].current, events)), fd, left,
               HasBit(events, Read), HasBit(events, Write), x);
  }

  lemma FireSize(io: Io, fd: nat, k: Kind)
    requires fd < |io.fds|
    ensures |Fire(io, fd, k).fds| == |io.fds|
  {
  }

  lemma AcceptStep(io: Io, fd: nat, k: Kind, fn: Option<nat>, caller: Caller, up: bool)
    requires Inv(io) && Conserved(io) && Enabled(io, Accept(fd, k, fn, caller, up))
    requires Good(io, Accept(fd, k, fn, caller, up))
    ensures Inv(Await(io, fd, k, fn, caller, up)) && Conserved(Await(io, fd, k, fn, caller, up))
  {
    hide Inv, Missing, Await, Target, HasBit;
    RegisterExactly(io, fd, k, fn, caller, up);
    forall x: Work ensures Missing(Await(io, fd, k, fn, caller, up), x) == 0 {
      AcceptMisses(io, fd, k, fn, caller, up, x);
    }
  }

  lemma ReportStep(io: Io, fd: nat, events: bv32, left: bv32)
    requires Inv(io) && Conserved(io) && Enabled(io, Report(fd, events, left)) && Good(io, Report(fd, events, left))
    ensures Inv(Handle(io, fd, events, left)) && Conserved(Handle(io, fd, events, left))
  {
    hide Inv, Missing, Handle, Expected;
    ReadyExactly(io, fd, events, left);
    forall x: Work ensures Missing(Handle(io, fd, events, left), x) == 0 {
      ReportMisses(io, fd, events, left, x);
    }
  }

  lemma GoodStep(io: Io, e: IoStep)
    requires Inv(io) && Conserved(io) && Enabled(io, e) && Good(io, e)
    ensures Inv(Act(io, e)) && Conserved(Act(io, e))
  {
    hide Inv, Conserved, Expected, Await, Handle, Target, HasBit, Unstuck;
    match e
    case Accept(fd, k, fn, caller, up) => AcceptStep(io, fd, k, fn, caller, up);
    case Report(fd, events, left) => ReportStep(io, fd, events, left);
  }

  /** Over every good run masks, contexts, kernel and count stay in step and no callback is lost or
      handed over twice. */
  lemma {:induction false} AlwaysInStep(io: Io, es: seq<IoStep>)
    requires Inv(io) && Conserved(io) && LegalRun(io, es) && GoodRun(io, es)
    ensures Inv(RunIo(io, es)) && Conserved(RunIo(io, es))
    decreases |es|
  {
    hide Inv, Conserved, Expected, HasBit, Act, Enabled;
    if es != [] {
      GoodStep(io, es[0]);
      AlwaysInStep(Act(io, es[0]), es[1..]);
    }
  }

  const START: Io := Io([], map[], 0, [], [])

  lemma StartsInStep()
    ensures Inv(START) && Conserved(START)
  {
  }

  /* ---------- which contexts can be fired ---------- */

  /** The step is an accepted registration of that type. */
  predicate Arms(io: Io, e: IoStep, fd: nat, k: Kind)
    requires Enabled(io, e)
  {
    e.Accept? && e.fd == fd && e.k == k && Accepts(io, fd, k, e.up)
  }

  /** Whether the last accepted registration of a type came from a thread with a current scheduler. */
  function LastAccepted(io: Io, es: seq<IoStep>, fd: nat, k: Kind, last: Option<bool>): Option<bool>
    requires LegalRun(io, es)
    decreases |es|
  {
    if es == [] then last
    else
      LastAccepted(Act(io, es[0]), es[1..], fd, k,
                   if Arms(io, es[0], fd, k) then Some(es[0].caller.scheduled) else last)
  }

  predicate Remembers(io: Io, fd: nat, k: Kind, last: Option<bool>) {
    fd < |io.fds| && Contents(ContextOf(io.fds[fd], k)) != [] ==> last == Some(ContextOf(io.fds[fd], k).scheduled)
  }

  lemma AwaitRemembers(io: Io, fd': nat, k': Kind, fn: Option<nat>, caller: Caller, up: bool,
                       fd: nat, k: Kind, last: Option<bool>)
    requires (fd' < |io.fds| || 1 <= fd') && Remembers(io, fd, k, last)
    ensures Remembers(Await(io, fd', k', fn, caller, up), fd, k,
                      if fd' == fd && k' == k && Accepts(io, fd, k, up) then Some(caller.scheduled) else last)
  {
    hide Ctl, RegisterOp, KernelMask, WithBit;
    var io' := Await(io, fd', k', fn, caller, up);
    assert fd < |io'.fds| && |io.fds| <= fd && fd != fd' ==> io'.fds[fd] == NEW_EVENT;
  }

  lemma FireRemembers(io: Io, fd': nat, j: Kind, fd: nat, k: Kind, last: Option<bool>)
    requires fd' < |io.fds| && Remembers(io, fd, k, last)
    ensures Remembers(Fire(io, fd', j), fd, k, last)
  {
    hide WithoutBit;
  }

  lemma HandleRemembers(io: Io, fd': nat, events: bv32, left: bv32, fd: nat, k: Kind, last: Option<bool>)
    requires fd' < |io.fds| && Remembers(io, fd, k, last)
    ensures Remembers(Handle(io, fd', events, left), fd, k, last)
  {
    hide Fire, HasBit, Concerns, StillAwaited, Ctl;
    var io0 := Tell(io, ReadyOp(StillAwaited(io.fds[fd'].current, events)), fd', left);
    FireSize(io0, fd', Read);
    FireRemembers(io0, fd', Read, fd, k, last);
    FireRemembers(io0, fd', Write, fd, k, last);
    FireRemembers(Fire(io0, fd', Read), fd', Write, fd, k, last);
    hide Remembers;
  }

  lemma {:induction false} AlwaysRemembers(io: Io, es: seq<IoStep>, fd: nat, k: Kind, last: Option<bool>)
    requires LegalRun(io, es) && Remembers(io, fd, k, last)
    ensures Remembers(RunIo(io, es), fd, k, LastAccepted(io, es, fd, k, last))
    decreases |es|
  {
    hide Remembers, Await, Handle, Accepts, Unstuck;
    if es != [] {
      match es[0] {
        case Accept(fd', k', fn, caller, up) => AwaitRemembers(io, fd', k', fn, caller, up, fd, k, last);
        case Report(fd', events, left) => HandleRemembers(io, fd', events, left, fd, k, last);
      }
      AlwaysRemembers(Act(io, es[0]), es[1..], fd, k,
                      if Arms(io, es[0], fd, k) then Some(es[0].caller.scheduled) else last);
    }
  }

  /** The context is empty, or its last accepted registration came from a thread with a current scheduler. */
  predicate Reachable(io: Io, es: seq<IoStep>, fd: nat, k: Kind)
    requires LegalRun(io, es) && fd < |RunIo(io, es).fds|
  {
    Contents(ContextOf(RunIo(io, es).fds[fd], k)) == [] || LastAccepted(io, es, fd, k, None) == Some(true)
  }

  /** After every run from the start, a report is handed over if and only if each context it fires is
      empty or was last registered by a thread with a current scheduler; otherwise it gets stuck. */
  lemma HandedOverExactly(es: seq<IoStep>, fd: nat, events: bv32)
    requires LegalRun(START, es) && fd < |RunIo(START, es).fds|
    ensures forall k :: Firable(ContextOf(RunIo(START, es).fds[fd], k)) <==> Reachable(START, es, fd, k)
    ensures Unstuck(RunIo(START, es).fds[fd], events)
            <==> (Concerns(events, RunIo(START, es).fds[fd].current)
                  ==> (HasBit(events, Read) ==> Reachable(START, es, fd, Read))
                      && (HasBit(events, Write) ==> Reachable(START, es, fd, Write)))
  {
    hide LegalRun, RunIo, LastAccepted, HasBit, Concerns;
    AlwaysRemembers(START, es, fd, Read, None);
    AlwaysRemembers(START, es, fd, Write, None);
  }

  predicate OnlyScheduled(es: seq<IoStep>) {
    forall i :: 0 <= i < |es| && es[i].Accept? ==> es[i].caller.scheduled
  }

  lemma {:induction false} LastScheduled(io: Io, es: seq<IoStep>, fd: nat, k: Kind, last: Option<bool>)
    requires LegalRun(io, es) && OnlyScheduled(es) && last != Some(false)
    ensures LastAccepted(io, es, fd, k, last) != Some(false)
    decreases |es|
  {
    hide Act, Enabled, Accepts;
    if es != [] {
      LastScheduled(Act(io, es[0]), es[1..], fd, k,
                    if Arms(io, es[0], fd, k) then Some(es[0].caller.scheduled) else last);
    }
  }

  /** When every registration comes from a thread with a current scheduler, no report ever gets stuck. */
  lemma NeverStuck(es: seq<IoStep>, fd: nat, events: bv32)
    requires LegalRun(START, es) && OnlyScheduled(es) && fd < |RunIo(START, es).fds|
    ensures Unstuck(RunIo(START, es).fds[fd], events)
  {
    hide LegalRun, RunIo, LastAccepted, HasBit, Concerns, OnlyScheduled;
    AlwaysRemembers(START, es, fd, Read, None);
    AlwaysRemembers(START, es, fd, Write, None);
    LastScheduled(START, es, fd, Read, None);
    LastScheduled(START, es, fd, Write, None);
  }

  /** A registration from a thread without one, a worker for instance, gets the next report of its type
      stuck. */
  lemma UnscheduledSticks(io: Io, fd: nat, k: Kind, fn: Option<nat>, caller: Caller, up: bool, events: bv32)
    requires (fd < |io.fds| || 1 <= fd) && Accepts(io, fd, k, up) && !caller.scheduled && HasBit(events, k)
    ensures fd < |Await(io, fd, k, fn, caller, up).fds|
    ensures !Unstuck(Await(io, fd, k, fn, caller, up).fds[fd], events)
  {
    hide Ctl, KernelMask, RegisterOp, HasBit, WithBit, Concerns;
    OrHas(Target(io, fd).current, k, k);
    BothHave(events, WithBit(Target(io, fd).current, k), k);
  }

  lemma BothHave(events: bv32, current: bv32, k: Kind)
    requires HasBit(events, k) && HasBit(current, k)
    ensures Concerns(events, current)
  {
  }
}
