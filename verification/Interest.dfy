/** Interest in file descriptors: what each descriptor waits for, what to run when it is ready, what the
    kernel was told, and how many events are awaited in all. */
module Interest {
  import opened Scheduler
  import opened Wrappers

  const READ: bv32 := 0x1
  const WRITE: bv32 := 0x4
  const BOTH: bv32 := 0x5
  const EPOLLET: bv32 := 0x8000_0000

  datatype Kind = Read | Write

  function Bit(k: Kind): bv32 {
    if k.Read? then READ else WRITE
  }

  function WithBit(mask: bv32, k: Kind): bv32 {
    Bit(k) | mask
  }

  function WithoutBit(mask: bv32, k: Kind): bv32 {
    Minus(mask, Bit(k))
  }

  function Minus(mask: bv32, bits: bv32): bv32 {
    mask & !bits
  }

  predicate HasBit(mask: bv32, k: Kind) {
    Masked(mask, Bit(k)) != 0
  }

  function Masked(mask: bv32, bits: bv32): bv32 {
    mask & bits
  }

  /** Nothing but the two known types. */
  predicate Known(mask: bv32) {
    mask & !BOTH == 0
  }

  /** The two known types of a kernel mask. */
  function Awaited(mask: bv32): bv32 {
    mask & BOTH
  }

  /** What is still awaited after `events`. */
  function StillAwaited(current: bv32, events: bv32): bv32 {
    Minus(current, Awaited(events))
  }

  predicate Concerns(events: bv32, current: bv32) {
    events & current != 0
  }

  /** The mask as it is given to the kernel, edge triggered. */
  function KernelMask(mask: bv32): bv32 {
    mask | EPOLLET
  }

  /** A context holds a function or a coroutine to wake; `scheduled` says whether its pointer to a
      scheduler is set. */
  datatype Context = Context(fn: Option<nat>, co: Option<nat>, scheduled: bool)

  const EMPTY_CONTEXT: Context := Context(None, None, false)

  /** The thread that calls `RegisterEvent`: the coroutine current on it, and whether the thread has a
      current scheduler. Only the thread that made or started the scheduler has one; workers do not. */
  datatype Caller = Caller(coroutine: nat, scheduled: bool)

  datatype Event = Event(current: bv32, read: Context, write: Context)

  const NEW_EVENT: Event := Event(0, EMPTY_CONTEXT, EMPTY_CONTEXT)

  /** `kernel` is the interest mask epoll holds for each descriptor it knows; `dispatched` is the work
      handed to the scheduler so far and `registered` the work accepted so far. */
  datatype Io = Io(fds: seq<Event>, kernel: map<nat, bv32>, waiting: int,
                   dispatched: seq<Work>, registered: seq<Work>)

  /* ---------- epoll_ctl ---------- */

  datatype Op = ADD | MOD | DEL

  /** ADD wants a descriptor that is not there, MOD and DEL one that is; otherwise the call fails. */
  function Ctl(kernel: map<nat, bv32>, op: Op, fd: nat, mask: bv32): Option<map<nat, bv32>> {
    match op
    case ADD => if fd in kernel then None else Some(kernel[fd := mask])
    case MOD => if fd in kernel then Some(kernel[fd := mask]) else None
    case DEL => if fd in kernel then Some(kernel - {fd}) else None
  }

  function RegisterOp(current: bv32): Op {
    if current != 0 then MOD else ADD
  }

  function ReadyOp(left: bv32): Op {
    if left != 0 then MOD else DEL
  }

  /* ---------- RegisterEvent ---------- */

  /** `resize(2 * fd)` when the descriptor has no event yet. */
  function Resized(fds: seq<Event>, fd: nat): seq<Event> {
    if fd < |fds| then fds else fds + seq(2 * fd - |fds|, _ => NEW_EVENT)
  }

  /** There is a slot to use exactly when there was one already or the descriptor is not 0: the table grows
      to twice the descriptor and keeps what it holds. */
  lemma SlotExists(fds: seq<Event>, fd: nat)
    ensures fd < |Resized(fds, fd)| <==> fd < |fds| || 1 <= fd
    ensures |Resized(fds, fd)| == if fd < |fds| then |fds| else 2 * fd
    ensures fds <= Resized(fds, fd)
  {
  }

  /** The event a registration works on. */
  function Target(io: Io, fd: nat): Event
    requires fd < |io.fds| || 1 <= fd
  {
    Resized(io.fds, fd)[fd]
  }

  function Armed(e: Event, k: Kind, fn: Option<nat>, caller: Caller): Event {
    var c := if k.Read? then e.read else e.write;
    var c1 := c.(scheduled := caller.scheduled);
    var c' := if fn.Some? then c1.(fn := fn) else c1.(co := Some(caller.coroutine));
    if k.Read? then e.(read := c') else e.(write := c')
  }

  function Accepted(fn: Option<nat>, caller: Caller): Work {
    if fn.Some? then Fn(fn.value) else Co(caller.coroutine)
  }

  /** `up` says whether the kernel is willing. The mask of the event changes before the kernel is asked
      and is not taken back when it refuses. */
  function Await(io: Io, fd: nat, k: Kind, fn: Option<nat>, caller: Caller, up: bool): Io
    requires fd < |io.fds| || 1 <= fd
  {
    var fds := Resized(io.fds, fd);
    var e := fds[fd];
    var mask := WithBit(e.current, k);
    var e1 := e.(current := mask);
    var r := if up then Ctl(io.kernel, RegisterOp(e.current), fd, KernelMask(mask)) else None;
    if r.None? then io.(fds := fds[fd := e1])
    else Io(fds[fd := Armed(e1, k, fn, caller)], r.value, io.waiting + 1,
            io.dispatched, io.registered + [Accepted(fn, caller)])
  }

  /* ---------- idle: one reported event ---------- */

  function Contents(c: Context): seq<Work> {
    (if c.fn.Some? then [Fn(c.fn.value)] else []) + (if c.co.Some? then [Co(c.co.value)] else [])
  }

  function ContextOf(e: Event, k: Kind): Context {
    if k.Read? then e.read else e.write
  }

  /** There is nothing to hand over, or a scheduler to hand it to; otherwise `TriggerEvent` calls through
      a null pointer. */
  predicate Firable(c: Context) {
    Contents(c) == [] || c.scheduled
  }

  /** `TriggerEvent` of a context that can be fired: clears the bit and empties the context. */
  function Triggered(e: Event, k: Kind): Event {
    var current := WithoutBit(e.current, k);
    if k.Read? then e.(current := current, read := EMPTY_CONTEXT) else e.(current := current, write := EMPTY_CONTEXT)
  }

  function Fire(io: Io, fd: nat, k: Kind): Io
    requires fd < |io.fds|
  {
    io.(fds := io.fds[fd := Triggered(io.fds[fd], k)], waiting := io.waiting - 1,
        dispatched := io.dispatched + Contents(ContextOf(io.fds[fd], k)))
  }

  /** Asks the kernel and goes on whatever it answers. */
  function Tell(io: Io, op: Op, fd: nat, mask: bv32): Io {
    var r := Ctl(io.kernel, op, fd, mask);
    if r.Some? then io.(kernel := r.value) else io
  }

  function FireBoth(io: Io, fd: nat, read: bool, write: bool): Io
    requires fd < |io.fds|
  {
    var io1 := if read then Fire(io, fd, Read) else io;
    if write then Fire(io1, fd, Write) else io1
  }

  /** Every context that a report fires can be fired. Otherwise handling the report gets stuck. */
  predicate Unstuck(e: Event, events: bv32) {
    Concerns(events, e.current)
    ==> (HasBit(events, Read) ==> Firable(e.read)) && (HasBit(events, Write) ==> Firable(e.write))
  }

  /** What handling a report does when it does not get stuck. `events` is what epoll_wait reported; `left`
      is what the uninitialised `leftevent` asks for. */
  function Handle(io: Io, fd: nat, events: bv32, left: bv32): Io
    requires fd < |io.fds|
  {
    var current := io.fds[fd].current;
    if !Concerns(events, current) then io
    else FireBoth(Tell(io, ReadyOp(StillAwaited(current, events)), fd, left), fd,
                  HasBit(events, Read), HasBit(events, Write))
  }

  /* ---------- the invariant ---------- */

  function Bits(current: bv32): int {
    (if HasBit(current, Read) then 1 else 0) + (if HasBit(current, Write) then 1 else 0)
  }

  function TotalBits(fds: seq<Event>): int {
    if fds == [] then 0 else TotalBits(fds[..|fds| - 1]) + Bits(fds[|fds| - 1].current)
  }

  /** A context holds exactly one thing when its bit is set and nothing when it is not. */
  predicate Filled(c: Context, set': bool) {
    |Contents(c)| == if set' then 1 else 0
  }

  predicate EventOk(e: Event) {
    && Known(e.current)
    && Filled(e.read, HasBit(e.current, Read))
    && Filled(e.write, HasBit(e.current, Write))
  }

  /** The kernel knows the descriptor exactly when something is awaited, and then awaits the same. */
  predicate InStep(e: Event, kernel: map<nat, bv32>, fd: nat) {
    && (fd in kernel <==> e.current != 0)
    && (fd in kernel ==> Awaited(kernel[fd]) == e.current)
  }

  ghost predicate Inv(io: Io) {
    && (forall fd :: 0 <= fd < |io.fds| ==> EventOk(io.fds[fd]) && InStep(io.fds[fd], io.kernel, fd))
    && (forall fd :: fd in io.kernel ==> fd < |io.fds|)
    && io.waiting == TotalBits(io.fds)
  }

  /* ---------- counting ---------- */

  lemma {:induction false} BitsUpdate(fds: seq<Event>, fd: nat, e: Event)
    requires fd < |fds|
    ensures TotalBits(fds[fd := e]) == TotalBits(fds) - Bits(fds[fd].current) + Bits(e.current)
  {
    var n := |fds| - 1;
    if fd == n {
      assert fds[fd := e][..n] == fds[..n];
    } else {
      assert fds[fd := e][..n] == fds[..n][fd := e];
      BitsUpdate(fds[..n], fd, e);
    }
  }

  lemma {:induction false} BitsGrow(fds: seq<Event>, n: nat)
    ensures TotalBits(fds + seq(n, _ => NEW_EVENT)) == TotalBits(fds)
  {
    var more := seq(n, _ => NEW_EVENT);
    if n == 0 {
      assert fds + more == fds;
    } else {
      assert (fds + more)[..|fds| + n - 1] == fds + seq(n - 1, _ => NEW_EVENT);
      BitsGrow(fds, n - 1);
    }
  }

  lemma ResizeKeeps(io: Io, fd: nat)
    requires Inv(io)
    ensures Inv(io.(fds := Resized(io.fds, fd)))
  {
    if fd >= |io.fds| {
      BitsGrow(io.fds, 2 * fd - |io.fds|);
    }
  }

  /* ---------- one descriptor at a time ---------- */

  /** `io'` differs from `io` only in what concerns `fd`. */
  ghost predicate OnlyAt(io: Io, io': Io, fd: nat) {
    && fd < |io.fds| && io'.fds == io.fds[fd := if fd < |io'.fds| then io'.fds[fd] else NEW_EVENT]
    && (forall k: nat :: k != fd ==> (k in io'.kernel <==> k in io.kernel))
    && (forall k: nat :: k != fd && k in io.kernel ==> io'.kernel[k] == io.kernel[k])
  }

  lemma OneChanged(io: Io, io': Io, fd: nat)
    requires Inv(io) && OnlyAt(io, io', fd) && |io'.fds| == |io.fds|
    ensures Inv(io') <==> EventOk(io'.fds[fd]) && InStep(io'.fds[fd], io'.kernel, fd)
                          && io'.waiting - io.waiting == Bits(io'.fds[fd].current) - Bits(io.fds[fd].current)
  {
    BitsUpdate(io.fds, fd, io'.fds[fd]);
    forall k | 0 <= k < |io.fds| && k != fd
      ensures io'.fds[k] == io.fds[k] && InStep(io'.fds[k], io'.kernel, k)
    {
    }
  }

  /* ---------- registering ---------- */

  lemma OrKnown(current: bv32, k: Kind)
    requires Known(current)
    ensures Known(WithBit(current, k)) && WithBit(current, k) != 0
  {
  }

  lemma OrKernel(current: bv32, k: Kind)
    requires Known(current)
    ensures Awaited(KernelMask(WithBit(current, k))) == WithBit(current, k)
  {
  }

  lemma OrHas(current: bv32, k: Kind, j: Kind)
    ensures HasBit(WithBit(current, k), j) == (HasBit(current, j) || j == k)
  {
    OrMasked(current, k, j);
    assert Bit(j) != 0;
    hide Masked, WithBit, Bit;
  }

  lemma OrMasked(current: bv32, k: Kind, j: Kind)
    ensures Masked(WithBit(current, k), Bit(j)) == if j == k then Bit(j) else Masked(current, Bit(j))
  {
  }

  lemma OrSame(current: bv32, k: Kind)
    ensures HasBit(current, k) ==> WithBit(current, k) == current
  {
  }

  /** The kernel never refuses an operation the code chooses for want of the descriptor, or for it being
      there already. */
  lemma RegisterLegal(io: Io, fd: nat, k: Kind, mask: bv32)
    requires Inv(io) && fd < |io.fds|
    ensures Ctl(io.kernel, RegisterOp(io.fds[fd].current), fd, mask).Some?
  {
  }

  lemma ArmOk(e: Event, k: Kind, fn: Option<nat>, caller: Caller)
    requires EventOk(e) && !HasBit(e.current, k)
    ensures EventOk(Armed(e.(current := WithBit(e.current, k)), k, fn, caller))
  {
    hide Known, HasBit, WithBit;
    OrKnown(e.current, k);
    OrHas(e.current, k, Read);
    OrHas(e.current, k, Write);
  }

  /** RegisterEvent keeps masks, contexts, kernel and count in step exactly when the kernel accepts a
      type that is not registered yet (or refuses one that is, which changes nothing). */
  lemma RegisterExactly(io: Io, fd: nat, k: Kind, fn: Option<nat>, caller: Caller, up: bool)
    requires Inv(io) && (fd < |io.fds| || 1 <= fd)
    ensures Inv(Await(io, fd, k, fn, caller, up))
            <==> (up <==> !HasBit(Target(io, fd).current, k))
  {
    hide Inv, HasBit;
    ResizeKeeps(io, fd);
    AwaitResized(io, fd, k, fn, caller, up);
    RegisterAt(io.(fds := Resized(io.fds, fd)), fd, k, fn, caller, up);
  }

  lemma EdgeBits(current: bv32, k: Kind)
    requires Known(current)
    ensures WithBit(current, k) == current | if k.Read? then 0x1 else 0x4
    ensures KernelMask(WithBit(current, k)) & 0x8000_0000 == 0x8000_0000
    ensures KernelMask(WithBit(current, k)) & 0x7FFF_FFFF == WithBit(current, k)
  {
  }

  /** What RegisterEvent tells the kernel: an accepted registration is edge triggered and awaits the type
      besides what was awaited, and a refused one changes the mask of the event alone. */
  lemma RegisterTells(io: Io, fd: nat, k: Kind, fn: Option<nat>, caller: Caller, up: bool)
    requires (fd < |io.fds| || 1 <= fd) && Known(Target(io, fd).current)
    ensures var current, io' := Target(io, fd).current, Await(io, fd, k, fn, caller, up);
            var accepted := up && (fd in io.kernel <==> current != 0);
            && io'.fds[fd].current == current | (if k.Read? then 0x1 else 0x4)
            && |io'.registered| == |io.registered| + (if accepted then 1 else 0)
            && (if accepted then
                  && io'.kernel.Keys == io.kernel.Keys + {fd}
                  && (forall other :: other in io.kernel && other != fd ==> io'.kernel[other] == io.kernel[other])
                  && io'.kernel[fd] & 0x8000_0000 == 0x8000_0000
                  && io'.kernel[fd] & 0x7FFF_FFFF == io'.fds[fd].current
                else io'.kernel == io.kernel)
  {
    EdgeBits(Target(io, fd).current, k);
    hide Known, WithBit, KernelMask;
  }

  /** What RegisterEvent leaves in the table: an accepted registration sets the function, or the caller's
      coroutine without one, and the scheduler of the context of its type. The other field of that context,
      the other context and every other event stay. */
  lemma RegisterArms(io: Io, fd: nat, k: Kind, fn: Option<nat>, caller: Caller, up: bool)
    requires fd < |io.fds| || 1 <= fd
    ensures var e, io' := Target(io, fd), Await(io, fd, k, fn, caller, up);
            var accepted := up && (fd in io.kernel <==> e.current != 0);
            var c := ContextOf(e, k);
            var c' := if !accepted then c
                      else if fn.Some? then Context(fn, c.co, caller.scheduled)
                      else Context(c.fn, Some(caller.coroutine), caller.scheduled);
            var e' := io'.fds[fd];
            && io'.registered == io.registered + (if !accepted then [] else if fn.Some? then [Fn(fn.value)]
                                                  else [Co(caller.coroutine)])
            && e' == Event(e'.current, if k.Read? then c' else e.read, if k.Write? then c' else e.write)
            && io'.fds == Resized(io.fds, fd)[fd := e'] && io'.dispatched == io.dispatched
            && io'.waiting == io.waiting + if accepted then 1 else 0
  {
    assert io.registered + [] == io.registered;
    hide WithBit, KernelMask, Resized;
  }

  lemma AwaitResized(io: Io, fd: nat, k: Kind, fn: Option<nat>, caller: Caller, up: bool)
    requires fd < |io.fds| || 1 <= fd
    ensures Await(io.(fds := Resized(io.fds, fd)), fd, k, fn, caller, up) == Await(io, fd, k, fn, caller, up)
  {
    hide WithBit, KernelMask, Ctl, RegisterOp, Armed;
  }

  /** What the event of a registration is afterwards. */
  function Registered(e: Event, k: Kind, fn: Option<nat>, caller: Caller, up: bool): Event {
    var e1 := e.(current := WithBit(e.current, k));
    if up then Armed(e1, k, fn, caller) else e1
  }

  lemma RegisterAt(io: Io, fd: nat, k: Kind, fn: Option<nat>, caller: Caller, up: bool)
    requires Inv(io) && fd < |io.fds|
    ensures Inv(Await(io, fd, k, fn, caller, up)) <==> (up <==> !HasBit(io.fds[fd].current, k))
  {
    var e, io' := io.fds[fd], Await(io, fd, k, fn, caller, up);
    RegisterLegal(io, fd, k, KernelMask(WithBit(e.current, k)));
    assert EventOk(e) && InStep(e, io.kernel, fd);
    assert OnlyAt(io, io', fd) && io'.fds[fd] == Registered(e, k, fn, caller, up);
    OneChanged(io, io', fd);
    RegisterStep(e, k, fn, caller, up);
    RegisterKernel(e, io.kernel, io'.kernel, fd, k, fn, caller, up);
    hide Inv, EventOk, InStep, Registered, Bits, HasBit;
  }

  /** The event alone: it stays good and gains a bit exactly when its type is new and accepted; otherwise
      the count is wrong, or the event is. */
  lemma RegisterStep(e: Event, k: Kind, fn: Option<nat>, caller: Caller, up: bool)
    requires EventOk(e)
    ensures var e' := Registered(e, k, fn, caller, up);
            && (up != HasBit(e.current, k) ==>
                  EventOk(e') && Bits(e'.current) == Bits(e.current) + if up then 1 else 0)
            && (up == HasBit(e.current, k) ==> Bits(e'.current) != Bits(e.current) + if up then 1 else 0)
  {
    hide Known, HasBit, WithBit, EventOk;
    OrHas(e.current, k, Read);
    OrHas(e.current, k, Write);
    OrSame(e.current, k);
    if !HasBit(e.current, k) {
      ArmOk(e, k, fn, caller);
    }
  }

  lemma RegisterKernel(e: Event, kernel: map<nat, bv32>, kernel': map<nat, bv32>, fd: nat,
                       k: Kind, fn: Option<nat>, caller: Caller, up: bool)
    requires Known(e.current) && InStep(e, kernel, fd)
    requires kernel' == if up then kernel[fd := KernelMask(WithBit(e.current, k))] else kernel
    ensures up != HasBit(e.current, k) ==> InStep(Registered(e, k, fn, caller, up), kernel', fd)
  {
    OrKnown(e.current, k);
    OrKernel(e.current, k);
    OrSame(e.current, k);
    hide Known, HasBit, WithBit, KernelMask, Awaited;
  }

  /* ---------- a ready descriptor ---------- */

  lemma StillHas(current: bv32, events: bv32, j: Kind)
    ensures HasBit(StillAwaited(current, events), j) == (HasBit(current, j) && !HasBit(events, j))
  {
    StillMasked(current, events, j);
    hide Masked, StillAwaited, Bit;
  }

  lemma StillMasked(current: bv32, events: bv32, j: Kind)
    ensures Masked(events, Bit(j)) == 0 ==> Masked(StillAwaited(current, events), Bit(j)) == Masked(current, Bit(j))
    ensures Masked(events, Bit(j)) != 0 ==> Masked(StillAwaited(current, events), Bit(j)) == 0
  {
  }

  lemma StillKnown(current: bv32, events: bv32)
    requires Known(current)
    ensures Known(StillAwaited(current, events))
  {
  }

  /** Clearing the reported types one by one leaves what is still awaited. */
  lemma StillIsCleared(current: bv32, events: bv32)
    ensures StillAwaited(current, events) == Cleared(current, HasBit(events, Read), HasBit(events, Write))
  {
    Reported(events);
    StillCleared(current, events, HasBit(events, Read), HasBit(events, Write));
  }

  /** The reported types, from the two bits. */
  function Selected(read: bool, write: bool): bv32 {
    if read then (if write then BOTH else READ) else if write then WRITE else 0
  }

  lemma Reported(events: bv32)
    ensures Awaited(events) == Selected(HasBit(events, Read), HasBit(events, Write))
  {
    BothBits(events);
    OneBit(events, Read);
    OneBit(events, Write);
    assert READ | WRITE == BOTH && READ | 0 == READ && 0 | WRITE == WRITE && 0 as bv32 | 0 == 0;
    hide Masked, Awaited;
  }

  lemma BothBits(events: bv32)
    ensures Awaited(events) == Masked(events, READ) | Masked(events, WRITE)
  {
  }

  lemma OneBit(events: bv32, k: Kind)
    ensures Masked(events, Bit(k)) != 0 ==> Masked(events, Bit(k)) == Bit(k)
  {
  }

  lemma StillCleared(current: bv32, events: bv32, read: bool, write: bool)
    requires Awaited(events) == Selected(read, write)
    ensures StillAwaited(current, events) == Cleared(current, read, write)
  {
    MinusSelected(current, read, write);
    hide Minus, Awaited, Selected, Cleared;
  }

  lemma MinusSelected(current: bv32, read: bool, write: bool)
    ensures Minus(current, Selected(read, write)) == Cleared(current, read, write)
  {
    MinusBoth(current);
    hide Minus;
  }

  lemma MinusBoth(current: bv32)
    ensures Minus(current, BOTH) == Minus(Minus(current, READ), WRITE) && Minus(current, 0) == current
  {
  }

  function Cleared(current: bv32, read: bool, write: bool): bv32 {
    var r := if read then WithoutBit(current, Read) else current;
    if write then WithoutBit(r, Write) else r
  }

  lemma ConcernsSome(current: bv32, events: bv32)
    ensures Concerns(events, current) ==> current != 0
  {
  }

  /** The bits of a report: 1 is reading and 4 is writing. */
  lemma ReportedBit(events: bv32, k: Kind)
    ensures HasBit(events, k) == (events & (if k.Read? then 0x1 else 0x4) != 0)
  {
  }

  /** What a report leaves awaited, and whether it concerns the event at all. */
  lemma LeftAwaited(events: bv32, current: bv32)
    ensures StillAwaited(current, events) == current & !(events & 0x5)
    ensures Concerns(events, current) == (events & current != 0)
  {
  }

  /** What a context hands over: its function first. */
  lemma FunctionFirst(c: Context, f: nat, x: nat)
    ensures Contents(c) == [Fn(f), Co(x)] <==> c.fn == Some(f) && c.co == Some(x)
    ensures Contents(c) == [Fn(f)] <==> c.fn == Some(f) && c.co == None
    ensures Contents(c) == [Co(x)] <==> c.fn == None && c.co == Some(x)
    ensures Contents(c) == [] <==> c.fn == None && c.co == None
  {
    var t := Contents(c);
    if c.fn.Some? {
      assert t[0] == Fn(c.fn.value);
      if c.co.Some? { assert |t| == 2 && t[1] == Co(c.co.value); }
    } else if c.co.Some? {
      assert |t| == 1 && t[0] == Co(c.co.value);
    }
  }

  lemma FireBothExactly(io: Io, fd: nat, read: bool, write: bool)
    requires fd < |io.fds|
    ensures var e, io' := io.fds[fd], FireBoth(io, fd, read, write);
            && io'.dispatched
               == io.dispatched + (if read then Contents(e.read) else []) + (if write then Contents(e.write) else [])
            && io'.waiting == io.waiting - (if read then 1 else 0) - (if write then 1 else 0)
            && io'.fds == io.fds[fd := Event(Cleared(e.current, read, write),
                                             if read then EMPTY_CONTEXT else e.read,
                                             if write then EMPTY_CONTEXT else e.write)]
  {
    hide WithoutBit, Contents;
  }

  /** Which contexts a report fires, in which order, and what it leaves of the event. */
  lemma HandleExactly(io: Io, fd: nat, events: bv32, left: bv32)
    requires fd < |io.fds|
    ensures var e, io' := io.fds[fd], Handle(io, fd, events, left);
            var concerned := Concerns(events, e.current);
            var read, write := concerned && HasBit(events, Read), concerned && HasBit(events, Write);
            && io'.dispatched
               == io.dispatched + (if read then Contents(e.read) else []) + (if write then Contents(e.write) else [])
            && io'.waiting == io.waiting - (if read then 1 else 0) - (if write then 1 else 0)
            && io'.fds == io.fds[fd := Event(if concerned then StillAwaited(e.current, events) else e.current,
                                             if read then EMPTY_CONTEXT else e.read,
                                             if write then EMPTY_CONTEXT else e.write)]
  {
    hide Concerns, HasBit, StillAwaited, Cleared, Contents, FireBoth, Ctl, ReadyOp;
    var current := io.fds[fd].current;
    if Concerns(events, current) {
      StillIsCleared(current, events);
      FireBothExactly(Tell(io, ReadyOp(StillAwaited(current, events)), fd, left), fd,
                      HasBit(events, Read), HasBit(events, Write));
    }
  }

  lemma ReadyLegal(io: Io, fd: nat, left: bv32, mask: bv32)
    requires Inv(io) && fd < |io.fds| && io.fds[fd].current != 0
    ensures Ctl(io.kernel, ReadyOp(left), fd, mask).Some?
  {
  }

  /** Only awaited types are reported. */
  predicate AllAwaited(current: bv32, events: bv32) {
    (HasBit(events, Read) ==> HasBit(current, Read)) && (HasBit(events, Write) ==> HasBit(current, Write))
  }

  /** Either the report does not concern the descriptor, or all its types are awaited and the mask left
      in the kernel is the one still awaited. */
  predicate Expected(current: bv32, events: bv32, left: bv32) {
    || !Concerns(events, current)
    || (AllAwaited(current, events)
        && (StillAwaited(current, events) != 0 ==> Awaited(left) == StillAwaited(current, events)))
  }

  /** Handling a report keeps everything in step exactly when it is an expected one. */
  lemma ReadyExactly(io: Io, fd: nat, events: bv32, left: bv32)
    requires Inv(io) && fd < |io.fds|
    ensures Inv(Handle(io, fd, events, left)) <==> Expected(io.fds[fd].current, events, left)
  {
    hide HasBit, WithoutBit, StillAwaited, Known, Awaited, Concerns;
    var e, io' := io.fds[fd], Handle(io, fd, events, left);
    if Concerns(events, e.current) {
      ConcernsSome(e.current, events);
      StillIsCleared(e.current, events);
      StillKnown(e.current, events);
      StillHas(e.current, events, Read);
      StillHas(e.current, events, Write);
      ReadyLegal(io, fd, StillAwaited(e.current, events), left);
      OneChanged(io, io', fd);
    }
  }
}
