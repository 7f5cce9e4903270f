/** What registrations and reports make the scheduler do. Every context has four places in the scheduler's
    slots, for the function and the coroutine of each type. */
module Driving {
  import opened Scheduler
  import opened SchedulerRuns
  import opened Wrappers
  import I = Interest
  import InterestRuns

  function FnWork(x: Option<nat>): Option<Work> {
    if x.Some? then Some(Fn(x.value)) else None
  }

  function CoWork(x: Option<nat>): Option<Work> {
    if x.Some? then Some(Co(x.value)) else None
  }

  function SlotOf(e: I.Event, r: nat): Option<Work> {
    if r == 0 then FnWork(e.read.fn)
    else if r == 1 then CoWork(e.read.co)
    else if r == 2 then FnWork(e.write.fn)
    else CoWork(e.write.co)
  }

  function Slots(fds: seq<I.Event>): (slots: seq<Option<Work>>)
    ensures |slots| == 4 * |fds|
  {
    seq(4 * |fds|, i requires 0 <= i < 4 * |fds| => SlotOf(fds[i / 4], i % 4))
  }

  /** The place of a function or a coroutine inside its event. */
  function Place(k: I.Kind, fn: bool): (r: nat)
    ensures r < 4
  {
    (if k.Read? then 0 else 2) + if fn then 0 else 1
  }

  function Index(fd: nat, k: I.Kind, fn: bool): nat {
    4 * fd + Place(k, fn)
  }

  lemma SlotAt(fds: seq<I.Event>, fd: nat, r: nat)
    requires fd < |fds| && r < 4
    ensures Slots(fds)[4 * fd + r] == SlotOf(fds[fd], r)
  {
  }

  /** A change of one place of one event is a change of one slot. */
  lemma SlotUpdate(fds: seq<I.Event>, fd: nat, e: I.Event, r: nat)
    requires fd < |fds| && r < 4
    requires forall q: nat :: q < 4 && q != r ==> SlotOf(e, q) == SlotOf(fds[fd], q)
    ensures Slots(fds[fd := e]) == Slots(fds)[4 * fd + r := SlotOf(e, r)]
  {
    hide SlotOf;
    var a, b := Slots(fds[fd := e]), Slots(fds)[4 * fd + r := SlotOf(e, r)];
    forall i | 0 <= i < 4 * |fds| ensures a[i] == b[i] {
      assert i == 4 * (i / 4) + i % 4;
    }
  }

  lemma SlotsGrow(fds: seq<I.Event>, n: nat)
    ensures Slots(fds + seq(n, _ => I.NEW_EVENT)) == Slots(fds) + seq(4 * n, _ => None)
  {
    var a, b := Slots(fds + seq(n, _ => I.NEW_EVENT)), Slots(fds) + seq(4 * n, _ => None);
    forall i | 0 <= i < 4 * (|fds| + n) ensures a[i] == b[i] {
    }
  }

  /* ---------- what the slots hold ---------- */

  function Places(e: I.Event): seq<Option<Work>> {
    [SlotOf(e, 0), SlotOf(e, 1), SlotOf(e, 2), SlotOf(e, 3)]
  }

  lemma SlotsLast(fds: seq<I.Event>)
    requires fds != []
    ensures Slots(fds) == Slots(fds[..|fds| - 1]) + Places(fds[|fds| - 1])
  {
    hide SlotOf;
  }

  function Hit<T(==)>(a: T, y: T): int {
    if a == y then 1 else 0
  }

  lemma FourTimes<T>(a: T, b: T, c: T, d: T, y: T)
    ensures multiset([a, b, c, d])[y] == Hit(a, y) + Hit(b, y) + Hit(c, y) + Hit(d, y)
  {
  }

  lemma FieldHolds(c: I.Context, x: Work)
    ensures InterestRuns.Holds(c, x) == Hit(FnWork(c.fn), Some(x)) + Hit(CoWork(c.co), Some(x))
  {
  }

  lemma PlacesHold(e: I.Event, x: Work)
    ensures multiset(Places(e))[Some(x)] == InterestRuns.EventHolds(e, x)
  {
    hide InterestRuns.Holds, FnWork, CoWork, Hit;
    FourTimes(SlotOf(e, 0), SlotOf(e, 1), SlotOf(e, 2), SlotOf(e, 3), Some(x));
    FieldHolds(e.read, x);
    FieldHolds(e.write, x);
  }

  /** The slots hold exactly what the contexts hold. */
  lemma {:induction false} SlotsStored(fds: seq<I.Event>, x: Work)
    ensures multiset(Slots(fds))[Some(x)] == InterestRuns.Stored(fds, x)
  {
    hide Slots, Places, InterestRuns.EventHolds;
    if fds != [] {
      SlotsStored(fds[..|fds| - 1], x);
      SlotsLast(fds);
      PlacesHold(fds[|fds| - 1], x);
    }
  }

  /* ---------- registering ---------- */

  /** Room for the new events, and the registration itself if the kernel accepts it. */
  function RegisterSteps(io: I.Io, fd: nat, k: I.Kind, fn: Option<nat>, caller: I.Caller, up: bool): seq<Step>
    requires fd < |io.fds| || 1 <= fd
  {
    [Grow(4 * (|I.Resized(io.fds, fd)| - |io.fds|))]
    + if InterestRuns.Accepts(io, fd, k, up) then [Register(Index(fd, k, fn.Some?), I.Accepted(fn, caller))] else []
  }

  lemma GrowDrives(io: I.Io, fd: nat, s: Sys)
    requires (fd < |io.fds| || 1 <= fd) && s.slots == Slots(io.fds)
    ensures Apply(s, Grow(4 * (|I.Resized(io.fds, fd)| - |io.fds|))) == s.(slots := Slots(I.Resized(io.fds, fd)))
  {
    if fd >= |io.fds| {
      SlotsGrow(io.fds, 2 * fd - |io.fds|);
    } else {
      assert s.slots + seq(0, _ => None) == s.slots;
    }
  }

  lemma ArmedSlots(fds: seq<I.Event>, fd: nat, current: bv32, k: I.Kind, fn: Option<nat>, caller: I.Caller)
    requires fd < |fds|
    ensures Slots(fds[fd := fds[fd].(current := current)]) == Slots(fds)
    ensures Slots(fds[fd := I.Armed(fds[fd].(current := current), k, fn, caller)])
            == Slots(fds)[Index(fd, k, fn.Some?) := Some(I.Accepted(fn, caller))]
    ensures Slots(fds)[Index(fd, k, fn.Some?)] == InterestRuns.Written(I.ContextOf(fds[fd], k), fn)
  {
    var e1 := fds[fd].(current := current);
    SlotAt(fds, fd, 0);
    SlotUpdate(fds, fd, e1, 0);
    SlotAt(fds, fd, Place(k, fn.Some?));
    SlotUpdate(fds, fd, I.Armed(e1, k, fn, caller), Place(k, fn.Some?));
    hide Slots;
    assert Slots(fds)[4 * fd := SlotOf(e1, 0)] == Slots(fds);
  }

  /** The slots after a registration. */
  lemma AwaitSlots(io: I.Io, fd: nat, k: I.Kind, fn: Option<nat>, caller: I.Caller, up: bool)
    requires fd < |io.fds| || 1 <= fd
    ensures var slots := Slots(I.Resized(io.fds, fd));
            && slots[Index(fd, k, fn.Some?)] == InterestRuns.Written(I.ContextOf(I.Target(io, fd), k), fn)
            && Slots(I.Await(io, fd, k, fn, caller, up).fds)
               == if InterestRuns.Accepts(io, fd, k, up)
                  then slots[Index(fd, k, fn.Some?) := Some(I.Accepted(fn, caller))] else slots
  {
    var fds := I.Resized(io.fds, fd);
    ArmedSlots(fds, fd, I.WithBit(fds[fd].current, k), k, fn, caller);
    hide Slots, I.Armed, I.WithBit, I.KernelMask, I.Ctl, I.RegisterOp, InterestRuns.Written;
  }

  /** Whatever the table, whoever the caller and whatever the kernel answers, `RegisterEvent` is a legal run
      of the scheduler: growth included, the slots follow the contexts. */
  lemma RegisterDrives(io: I.Io, fd: nat, k: I.Kind, fn: Option<nat>, caller: I.Caller, up: bool, s: Sys)
    requires (fd < |io.fds| || 1 <= fd) && s.slots == Slots(io.fds)
    ensures LegalRun(s, RegisterSteps(io, fd, k, fn, caller, up))
    ensures Run(s, RegisterSteps(io, fd, k, fn, caller, up)).slots == Slots(I.Await(io, fd, k, fn, caller, up).fds)
    ensures var s1 := s.(slots := Slots(I.Resized(io.fds, fd)));
            Run(s, RegisterSteps(io, fd, k, fn, caller, up))
            == if InterestRuns.Accepts(io, fd, k, up)
               then RegisterWork(s1, Index(fd, k, fn.Some?), I.Accepted(fn, caller)) else s1
  {
    hide Slots, I.Await, I.Resized, I.Accepted, InterestRuns.Accepts, InterestRuns.Written, LegalRun, Run, Overwritten;
    GrownBy(io.fds, fd);
    var grow := Grow(4 * (|I.Resized(io.fds, fd)| - |io.fds|));
    var put := Register(Index(fd, k, fn.Some?), I.Accepted(fn, caller));
    var s1 := s.(slots := Slots(I.Resized(io.fds, fd)));
    GrowDrives(io, fd, s);
    AwaitSlots(io, fd, k, fn, caller, up);
    RunOne(s, grow);
    if InterestRuns.Accepts(io, fd, k, up) {
      RunOne(s1, put);
      RunAppend(s, [grow], [put]);
    } else {
      assert [grow] + [] == [grow];
    }
  }

  lemma GrownBy(fds: seq<I.Event>, fd: nat)
    requires fd < |fds| || 1 <= fd
    ensures fd < |I.Resized(fds, fd)| && |fds| <= |I.Resized(fds, fd)|
  {
  }

  /* ---------- reports ---------- */

  /** `t` is `s` with the slots changed and more work put behind what is queued, for any worker. */
  ghost predicate Moves(s: Sys, t: Sys, slots: seq<Option<Work>>, work: seq<Option<Work>>) {
    && t == s.(slots := slots, queue := t.queue, serial := t.serial)
    && Behind(s.queue, t.queue, work)
  }

  function Full(slot: Option<Work>): seq<Option<Work>> {
    if slot.Some? then [slot] else []
  }

  /** One dispatch of `TriggerEvent`, if there is something to dispatch. */
  function Pop(i: nat, slot: Option<Work>): seq<Step> {
    if slot.Some? then [Trigger(i)] else []
  }

  lemma PopRuns(s: Sys, i: nat)
    requires i < |s.slots|
    ensures LegalRun(s, Pop(i, s.slots[i]))
    ensures Moves(s, Run(s, Pop(i, s.slots[i])), s.slots[i := None], Full(s.slots[i]))
  {
    if s.slots[i].Some? {
      RunOne(s, Trigger(i));
      var t := Task(s.serial, ANY, s.slots[i].value);
      assert (s.queue + [t])[|s.queue|] == t;
    } else {
      assert s.slots[i := None] == s.slots;
    }
  }

  lemma MovesThen(s: Sys, a: seq<Step>, b: seq<Step>, slots: seq<Option<Work>>, slots': seq<Option<Work>>,
                  x: seq<Option<Work>>, y: seq<Option<Work>>)
    requires LegalRun(s, a) && Moves(s, Run(s, a), slots, x)
    requires LegalRun(Run(s, a), b) && Moves(Run(s, a), Run(Run(s, a), b), slots', y)
    ensures LegalRun(s, a + b) && Moves(s, Run(s, a + b), slots', x + y)
  {
    BehindThen(s.queue, Run(s, a).queue, Run(Run(s, a), b).queue, x, y);
    hide Behind, Run, LegalRun;
    RunAppend(s, a, b);
  }

  function FireSteps(e: I.Event, fd: nat, k: I.Kind): seq<Step> {
    var c := I.ContextOf(e, k);
    Pop(Index(fd, k, true), FnWork(c.fn)) + Pop(Index(fd, k, false), CoWork(c.co))
  }

  lemma FiredSlots(fds: seq<I.Event>, fd: nat, k: I.Kind)
    requires fd < |fds|
    ensures var c := I.ContextOf(fds[fd], k);
            && Slots(fds)[Index(fd, k, true)] == FnWork(c.fn)
            && Slots(fds)[Index(fd, k, false)] == CoWork(c.co)
            && Slots(fds[fd := I.Triggered(fds[fd], k)])
               == Slots(fds)[Index(fd, k, true) := None][Index(fd, k, false) := None]
  {
    var e := fds[fd];
    var e1 := if k.Read? then e.(read := e.read.(fn := None)) else e.(write := e.write.(fn := None));
    SlotAt(fds, fd, Place(k, true));
    SlotAt(fds, fd, Place(k, false));
    SlotUpdate(fds, fd, e1, Place(k, true));
    SlotUpdate(fds[fd := e1], fd, I.Triggered(e, k), Place(k, false));
    hide Slots;
    assert fds[fd := e1][fd := I.Triggered(e, k)] == fds[fd := I.Triggered(e, k)];
  }

  function Somes(ws: seq<Work>): seq<Option<Work>> {
    seq(|ws|, i requires 0 <= i < |ws| => Some(ws[i]))
  }

  lemma ContentsFull(c: I.Context)
    ensures Somes(I.Contents(c)) == Full(FnWork(c.fn)) + Full(CoWork(c.co))
  {
  }

  /** Firing one context, if it can be fired, is a legal run of Trigger steps that queues its contents, the
      function first. */
  lemma FireDrives(io: I.Io, fd: nat, k: I.Kind, s: Sys)
    requires fd < |io.fds| && s.slots == Slots(io.fds)
    ensures LegalRun(s, FireSteps(io.fds[fd], fd, k))
    ensures Moves(s, Run(s, FireSteps(io.fds[fd], fd, k)), Slots(I.Fire(io, fd, k).fds),
                  Somes(I.Contents(I.ContextOf(io.fds[fd], k))))
  {
    var c := I.ContextOf(io.fds[fd], k);
    var i, j := Index(fd, k, true), Index(fd, k, false);
    FiredSlots(io.fds, fd, k);
    ContentsFull(c);
    PopRuns(s, i);
    var s1 := Run(s, Pop(i, s.slots[i]));
    PopRuns(s1, j);
    hide Slots, Run, LegalRun, Behind;
    MovesThen(s, Pop(i, s.slots[i]), Pop(j, s1.slots[j]), s.slots[i := None], s1.slots[j := None],
              Full(s.slots[i]), Full(s1.slots[j]));
  }

  /** The dispatch calls of one report: the reader's context first. */
  function ReportSteps(io: I.Io, fd: nat, events: bv32): seq<Step>
    requires fd < |io.fds|
  {
    var e := io.fds[fd];
    if !I.Concerns(events, e.current) then []
    else
      (if I.HasBit(events, I.Read) then FireSteps(e, fd, I.Read) else [])
      + if I.HasBit(events, I.Write) then FireSteps(e, fd, I.Write) else []
  }

  /** The work handed over by one report. */
  function Reported(io: I.Io, fd: nat, events: bv32): seq<Work>
    requires fd < |io.fds|
  {
    var e := io.fds[fd];
    if !I.Concerns(events, e.current) then []
    else
      (if I.HasBit(events, I.Read) then I.Contents(e.read) else [])
      + if I.HasBit(events, I.Write) then I.Contents(e.write) else []
  }

  lemma MovesNothing(s: Sys)
    ensures LegalRun(s, []) && Moves(s, Run(s, []), s.slots, [])
  {
  }

  lemma FireIf(io: I.Io, fd: nat, k: I.Kind, on: bool, s: Sys)
    requires fd < |io.fds| && s.slots == Slots(io.fds)
    ensures var steps := if on then FireSteps(io.fds[fd], fd, k) else [];
            var io' := if on then I.Fire(io, fd, k) else io;
            && LegalRun(s, steps)
            && Moves(s, Run(s, steps), Slots(io'.fds), if on then Somes(I.Contents(I.ContextOf(io.fds[fd], k))) else [])
  {
    hide Slots, Moves, Run, LegalRun, FireSteps, I.Fire;
    if on {
      FireDrives(io, fd, k, s);
    } else {
      MovesNothing(s);
    }
  }

  lemma MovedSlots(s: Sys, t: Sys, slots: seq<Option<Work>>, work: seq<Option<Work>>)
    requires Moves(s, t, slots, work)
    ensures t.slots == slots
  {
  }

  lemma FireLeaves(io: I.Io, fd: nat)
    requires fd < |io.fds|
    ensures var io' := I.Fire(io, fd, I.Read);
            |io'.fds| == |io.fds| && io'.fds[fd].write == io.fds[fd].write
            && FireSteps(io'.fds[fd], fd, I.Write) == FireSteps(io.fds[fd], fd, I.Write)
  {
  }

  lemma FireBothDrives(io: I.Io, fd: nat, read: bool, write: bool, s: Sys)
    requires fd < |io.fds| && s.slots == Slots(io.fds)
    ensures var e := io.fds[fd];
            var steps := (if read then FireSteps(e, fd, I.Read) else [])
                         + if write then FireSteps(e, fd, I.Write) else [];
            var work := (if read then Somes(I.Contents(e.read)) else [])
                        + if write then Somes(I.Contents(e.write)) else [];
            LegalRun(s, steps) && Moves(s, Run(s, steps), Slots(I.FireBoth(io, fd, read, write).fds), work)
  {
    hide Slots, Moves, Run, LegalRun, FireSteps, I.Fire, Somes;
    var e := io.fds[fd];
    var a := if read then FireSteps(e, fd, I.Read) else [];
    var b := if write then FireSteps(e, fd, I.Write) else [];
    var io1 := if read then I.Fire(io, fd, I.Read) else io;
    var x := if read then Somes(I.Contents(e.read)) else [];
    var y := if write then Somes(I.Contents(e.write)) else [];
    FireIf(io, fd, I.Read, read, s);
    MovedSlots(s, Run(s, a), Slots(io1.fds), x);
    FireLeaves(io, fd);
    FireIf(io1, fd, I.Write, write, Run(s, a));
    MovesThen(s, a, b, Slots(io1.fds), Slots(I.FireBoth(io, fd, read, write).fds), x, y);
  }

  lemma SomesOf(a: seq<Work>, b: seq<Work>, read: bool, write: bool)
    ensures Somes((if read then a else []) + if write then b else [])
            == (if read then Somes(a) else []) + if write then Somes(b) else []
  {
  }

  /** Any report that does not get stuck, expected or not, is a legal run of Trigger steps that queues
      exactly the work handed over, once and in order; the slots follow the contexts. */
  lemma ReportDrives(io: I.Io, fd: nat, events: bv32, left: bv32, s: Sys)
    requires fd < |io.fds| && s.slots == Slots(io.fds)
    ensures LegalRun(s, ReportSteps(io, fd, events))
    ensures Moves(s, Run(s, ReportSteps(io, fd, events)), Slots(I.Handle(io, fd, events, left).fds),
                  Somes(Reported(io, fd, events)))
  {
    hide Slots, Moves, Run, LegalRun, FireSteps, Somes, I.FireBoth, I.HasBit, I.Concerns;
    var e := io.fds[fd];
    if I.Concerns(events, e.current) {
      var op := I.ReadyOp(I.StillAwaited(e.current, events));
      TellKeeps(io, op, fd, left);
      hide I.Tell;
      FireBothDrives(I.Tell(io, op, fd, left), fd, I.HasBit(events, I.Read), I.HasBit(events, I.Write), s);
      SomesOf(I.Contents(e.read), I.Contents(e.write), I.HasBit(events, I.Read), I.HasBit(events, I.Write));
    } else {
      MovesNothing(s);
      SomesNone();
    }
  }

  lemma SomesNone()
    ensures Somes([]) == []
  {
  }

  lemma TellKeeps(io: I.Io, op: I.Op, fd: nat, mask: bv32)
    ensures I.Tell(io, op, fd, mask).fds == io.fds && I.Tell(io, op, fd, mask).dispatched == io.dispatched
    ensures I.Tell(io, op, fd, mask).registered == io.registered
  {
  }

  /** The hand-over list grows by exactly that work. */
  lemma HandedOver(io: I.Io, fd: nat, events: bv32, left: bv32)
    requires fd < |io.fds|
    ensures I.Handle(io, fd, events, left).dispatched == io.dispatched + Reported(io, fd, events)
    ensures I.Handle(io, fd, events, left).registered == io.registered
    ensures |I.Handle(io, fd, events, left).fds| == |io.fds|
  {
    hide I.HasBit, I.Concerns, I.Tell, I.Contents, I.WithoutBit;
    TellKeeps(io, I.ReadyOp(I.StillAwaited(io.fds[fd].current, events)), fd, left);
  }
}
