/** The event table as it runs: one event object for each descriptor, changed in place. Each method is
    proved against the functions of `Interest`. */
module IoSchedule {
  import opened Scheduler
  import opened Wrappers
  import I = Interest

  class FdEvent {
    var current: bv32
    var read: I.Context
    var write: I.Context

    function View(): I.Event
      reads this
    {
      I.Event(current, read, write)
    }

    constructor ()
      ensures View() == I.NEW_EVENT
    {
      current, read, write := 0, I.EMPTY_CONTEXT, I.EMPTY_CONTEXT;
    }

    /** Hands the context of one type over and empties it; `tasks` are the dispatch calls, in order. A
        context that is filled but has no scheduler makes it call through a null pointer: not `ok`. */
    method TriggerEvent(k: I.Kind) returns (ok: bool, tasks: seq<Work>)
      modifies this
      ensures ok == I.Firable(I.ContextOf(old(View()), k))
      ensures ok ==> View() == I.Triggered(old(View()), k) && tasks == I.Contents(I.ContextOf(old(View()), k))
      ensures !ok ==> View() == old(View()).(current := I.WithoutBit(old(current), k)) && tasks == []
    {
      hide I.WithoutBit;
      current := I.WithoutBit(current, k);
      var context := if k.Read? then read else write;
      tasks := [];
      if context.fn.Some? {
        if !context.scheduled {
          return false, [];
        }
        tasks := tasks + [Fn(context.fn.value)];
      }
      if context.co.Some? {
        if !context.scheduled {
          return false, [];
        }
        tasks := tasks + [Co(context.co.value)];
      }
      if k.Read? {
        read := I.EMPTY_CONTEXT;
      } else {
        write := I.EMPTY_CONTEXT;
      }
      ok := true;
    }
  }

  /** What epoll_wait reports: the wake-up pipe, or bits for a descriptor; `left` is the content of the
      uninitialised mask that the code passes back to the kernel. */
  datatype Ready = FromPipe | FromFd(fd: nat, events: bv32, left: bv32)

  predicate AllInTable(rs: seq<Ready>, size: nat) {
    forall i :: 0 <= i < |rs| && rs[i].FromFd? ==> rs[i].fd < size
  }

  /** All reports in order; nothing when one of them gets stuck. */
  function HandleAll(io: I.Io, rs: seq<Ready>): (r: Option<I.Io>)
    requires AllInTable(rs, |io.fds|)
    ensures r.Some? ==> |r.value.fds| == |io.fds|
    decreases |rs|
  {
    if rs == [] then Some(io)
    else if rs[0].FromPipe? then HandleAll(io, rs[1..])
    else if I.Unstuck(io.fds[rs[0].fd], rs[0].events) then
      var io' := I.Handle(io, rs[0].fd, rs[0].events, rs[0].left);
      HandleAll(io', rs[1..])
    else None
  }

  class IoSchedule {
    var fds: seq<FdEvent>
    var kernel: map<nat, bv32>
    var waitingEvents: int
    var dispatched: seq<Work>
    ghost var registered: seq<Work>

    ghost predicate Valid()
      reads this
    {
      forall i, j :: 0 <= i < j < |fds| ==> fds[i] != fds[j]
    }

    ghost function Events(): seq<I.Event>
      reads this, fds
    {
      seq(|fds|, i requires 0 <= i < |fds| reads this, fds => fds[i].View())
    }

    ghost function View(): I.Io
      reads this, fds
    {
      I.Io(Events(), kernel, waitingEvents, dispatched, registered)
    }

    constructor ()
      ensures Valid() && View() == I.Io([], map[], 0, [], [])
    {
      fds, kernel, waitingEvents, dispatched, registered := [], map[], 0, [], [];
    }

    method Resize(size: nat)
      requires Valid()
      modifies this`fds
      ensures Valid() && old(fds) <= fds
      ensures forall i :: |old(fds)| <= i < |fds| ==> fresh(fds[i])
      ensures Events() == old(Events()) + seq(if size < |old(fds)| then 0 else size - |old(fds)|, _ => I.NEW_EVENT)
    {
      if size < |fds| {
        assert old(Events()) + seq(0, _ => I.NEW_EVENT) == old(Events());
        return;
      }
      var i := |fds|;
      while i < size
        invariant |old(fds)| <= i <= size && |fds| == i
        invariant Valid() && old(fds) <= fds
        invariant forall j :: |old(fds)| <= j < |fds| ==> fresh(fds[j]) && fds[j].View() == I.NEW_EVENT
        invariant forall j :: 0 <= j < |old(fds)| ==> fds[j].View() == old(fds[j].View())
      {
        var fd := new FdEvent();
        fds := fds + [fd];
        i := i + 1;
      }
    }

    /** The first part of `RegisterEvent`: the event of the descriptor, after growing the table. */
    method Find(fd: nat) returns (temp: FdEvent)
      requires Valid() && (fd < |fds| || 1 <= fd)
      modifies this`fds
      ensures Valid() && fd < |fds| && temp == fds[fd]
      ensures forall i :: 0 <= i < |fds| ==> fds[i] in old(fds) || fresh(fds[i])
      ensures Events() == I.Resized(old(Events()), fd)
    {
      if fd >= |fds| {
        Resize(fd * 2);
      }
      temp := fds[fd];
    }

    /** `RegisterEvent`. No function means the coroutine current on the calling thread; `up` is the kernel's
        answer to a legal request. */
    method RegisterEvent(fd: nat, k: I.Kind, fn: Option<nat>, caller: I.Caller, up: bool)
      requires Valid() && (fd < |fds| || 1 <= fd)
      modifies this, fds
      ensures Valid() && View() == I.Await(old(View()), fd, k, fn, caller, up)
    {
      hide I.WithBit, I.KernelMask, I.Resized, I.Ctl;
      var temp := Find(fd);
      label resized:
      var op := I.RegisterOp(temp.current);
      var mask := I.WithBit(temp.current, k);
      temp.current := mask;
      var value := if up then I.Ctl(kernel, op, fd, I.KernelMask(mask)) else None;
      if value.None? {
        assert Events() == old@resized(Events())[fd := temp.View()];
        return;
      }
      kernel := value.value;
      waitingEvents := waitingEvents + 1;
      var context := if k.Read? then temp.read else temp.write;
      context := context.(scheduled := caller.scheduled);
      context := if fn.Some? then context.(fn := fn) else context.(co := Some(caller.coroutine));
      if k.Read? {
        temp.read := context;
      } else {
        temp.write := context;
      }
      registered := registered + [I.Accepted(fn, caller)];
      assert Events() == old@resized(Events())[fd := temp.View()];
    }

    /** One type of one reported descriptor. */
    method FireEvent(fd: nat, k: I.Kind) returns (ok: bool)
      requires Valid() && fd < |fds|
      modifies this`dispatched, this`waitingEvents, fds[fd]
      ensures Valid() && ok == I.Firable(I.ContextOf(old(fds[fd].View()), k))
      ensures ok ==> View() == I.Fire(old(View()), fd, k)
    {
      var tasks;
      ok, tasks := fds[fd].TriggerEvent(k);
      if !ok {
        return;
      }
      dispatched := dispatched + tasks;
      waitingEvents := waitingEvents - 1;
      assert Events() == old(Events())[fd := fds[fd].View()];
    }

    /** One turn of the loop over reported events in `idle`. */
    method HandleEvent(fd: nat, events: bv32, left: bv32) returns (ok: bool)
      requires Valid() && fd < |fds|
      modifies this, fds[fd]
      ensures Valid() && fds == old(fds) && ok == I.Unstuck(old(fds[fd].View()), events)
      ensures ok ==> View() == I.Handle(old(View()), fd, events, left)
    {
      hide I.Concerns, I.StillAwaited, I.HasBit, I.Fire, I.Firable;
      var current := fds[fd].current;
      if !I.Concerns(events, current) {
        return true;
      }
      var value := I.Ctl(kernel, I.ReadyOp(I.StillAwaited(current, events)), fd, left);
      if value.Some? {
        kernel := value.value;
      }
      ghost var told := I.Tell(old(View()), I.ReadyOp(I.StillAwaited(current, events)), fd, left);
      assert View() == told;
      FireKeepsWrite(told, fd);
      if I.HasBit(events, I.Read) {
        ok := FireEvent(fd, I.Read);
        if !ok {
          return;
        }
      }
      ghost var read := if I.HasBit(events, I.Read) then I.Fire(told, fd, I.Read) else told;
      assert View() == read && Events()[fd].write == told.fds[fd].write;
      if I.HasBit(events, I.Write) {
        ok := FireEvent(fd, I.Write);
        if !ok {
          return;
        }
      }
      ok := true;
    }

    /** The loop over what epoll_wait reported. */
    method HandleEvents(rs: seq<Ready>) returns (ok: bool)
      requires Valid() && AllInTable(rs, |fds|)
      modifies this, fds
      ensures Valid() && fds == old(fds)
      ensures HandleAll(old(View()), rs) == if ok then Some(View()) else None
    {
      hide I.Handle, I.Unstuck;
      var i := 0;
      while i < |rs|
        invariant 0 <= i <= |rs| && Valid() && fds == old(fds)
        invariant HandleAll(View(), rs[i..]) == HandleAll(old(View()), rs)
      {
        assert rs[i..][0] == rs[i] && rs[i..][1..] == rs[i + 1..];
        if rs[i].FromFd? {
          assert Events()[rs[i].fd] == fds[rs[i].fd].View();
          ok := HandleEvent(rs[i].fd, rs[i].events, rs[i].left);
          if !ok {
            return;
          }
        }
        i := i + 1;
      }
      ok := true;
    }

    /** The event side of one idle coroutine's passes: `reports[n]` is what there is to report in pass `n`.
        The buffer is released at the end of the first pass and not allocated again, and without it
        epoll_wait fails as soon as there is something to report. So only the first pass handles anything,
        and at most as many reports as the buffer holds. */
    method Passes(reports: seq<seq<Ready>>) returns (ok: bool)
      requires Valid()
      requires forall n :: 0 <= n < |reports| ==> AllInTable(reports[n], |fds|)
      modifies this, fds
      ensures Valid() && fds == old(fds)
      ensures (if reports == [] then Some(old(View())) else HandleAll(old(View()), Fitting(reports[0])))
              == if ok then Some(View()) else None
    {
      var events: array?<Ready> := new Ready[MAX_EVENTS](_ => FromPipe);
      ok := true;
      for n := 0 to |reports|
        invariant ok && Valid() && fds == old(fds)
        invariant if n == 0 then events != null && fresh(events) && events.Length == MAX_EVENTS else events == null
        invariant (if n == 0 then Some(old(View())) else HandleAll(old(View()), Fitting(reports[0]))) == Some(View())
      {
        var number := EpollWait(events, reports[n]);
        if events != null && 0 < number {
          ok := HandleEvents(events[..number]);
          if !ok {
            return;
          }
        }
        events := null;
      }
    }
  }

  lemma FireKeepsWrite(io: I.Io, fd: nat)
    requires fd < |io.fds|
    ensures |I.Fire(io, fd, I.Read).fds| == |io.fds| && I.Fire(io, fd, I.Read).fds[fd].write == io.fds[fd].write
  {
  }

  const MAX_EVENTS: nat := 1024

  function Fitting(rs: seq<Ready>): (r: seq<Ready>)
    ensures forall size: nat :: AllInTable(rs, size) ==> AllInTable(r, size)
  {
    if |rs| <= MAX_EVENTS then rs else rs[..MAX_EVENTS]
  }

  /** epoll_wait: copies what there is to report, as much as fits, and fails when it has to write to a
      buffer that is not there. */
  method EpollWait(events: array?<Ready>, reports: seq<Ready>) returns (number: int)
    requires events != null ==> events.Length == MAX_EVENTS
    modifies if events == null then {} else {events}
    ensures if events == null then number == if reports == [] then 0 else -1
            else
              && number == (if |reports| < 1024 then |reports| else 1024) && number <= events.Length
              && events[..number] == reports[..number] == Fitting(reports)
  {
    if events == null {
      return if reports == [] then 0 else -1;
    }
    number := 0;
    while number < |reports| && number < MAX_EVENTS
      invariant 0 <= number <= |reports| && number <= MAX_EVENTS
      invariant events[..number] == reports[..number]
    {
      events[number] := reports[number];
      number := number + 1;
    }
  }
}
