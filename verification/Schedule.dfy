/** The scheduler as it runs: the shared list, what each worker's loop holds, the coroutine states, the
    event contexts and the two counters. Each method is one step of `Scheduler`. */
module Schedule {
  import opened Scheduler
  import opened Wrappers

  class Schedule {
    var coroutines: seq<Task>
    var serial: nat
    var temp: seq<Worker>              // `temp` of each worker's loop
    var state: map<nat, CoState>
    var contexts: seq<Option<Work>>
    var activeThreadNum: int
    var freeThreadNum: int
    ghost var taken: seq<Task>
    ghost var past: Past

    ghost function View(): Sys
      reads this
    {
      Sys(coroutines, serial, temp, state, contexts, activeThreadNum, freeThreadNum,
          taken, past)
    }

    constructor (threads: nat, slots: nat)
      ensures |temp| == threads && |contexts| == slots && View().queue == []
      ensures View() == Sys([], 0, temp, map[], contexts, 0, 0, [], NOTHING_YET)
      ensures forall w :: 0 <= w < threads ==> temp[w] == Looking
      ensures forall k :: 0 <= k < slots ==> contexts[k] == None
    {
      coroutines, serial, state, activeThreadNum, freeThreadNum := [], 0, map[], 0, 0;
      temp := seq(threads, _ => Looking);
      contexts := seq(slots, _ => None);
      taken, past := [], NOTHING_YET;
    }

    /** `m_dispatch`: an empty task is not queued, and only an empty list needs a wake-up call. */
    method DispatchTask(work: Option<Work>, thread: int) returns (needCall: bool)
      modifies this
      ensures View() == Apply(old(View()), Dispatch(work, thread))
      ensures needCall <==> old(coroutines) == []
    {
      needCall := coroutines == [];
      if work.Some? {
        coroutines := coroutines + [Task(serial, thread, work.value)];
        serial := serial + 1;
        past := Submit(View(), work.value).past;
      }
    }

    /** The loop of `run` under the lock. A worker that finds nothing enters its idle coroutine. Other
        workers are notified exactly when an entry pinned to one of them was passed over. */
    method ScanTasks(w: nat) returns (needNotify: bool)
      requires Enabled(View(), Scan(w))
      modifies this
      ensures View() == Apply(old(View()), Scan(w))
      ensures needNotify <==>
              exists i :: 0 <= i < Pick(old(coroutines), w, old(state)) && !Fits(old(coroutines)[i], w)
    {
      var i := 0;
      needNotify := false;
      while i < |coroutines|
        invariant 0 <= i <= |coroutines|
        invariant forall j :: 0 <= j < i ==> !Eligible(coroutines[j], w, state)
        invariant needNotify <==> exists j :: 0 <= j < i && !Fits(coroutines[j], w)
      {
        if coroutines[i].thread != ANY && coroutines[i].thread != w {
          needNotify := true;
          i := i + 1;
          continue;
        }
        if coroutines[i].work.Co? && StateOf(state, coroutines[i].work.c) == Running {
          i := i + 1;
          continue;
        }
        FirstEligible(coroutines, w, state, i);
        taken := taken + [coroutines[i]];
        temp := temp[w := Holding(coroutines[i])];
        coroutines := coroutines[..i] + coroutines[i + 1..];
        return;
      }
      FirstEligible(coroutines, w, state, i);
      temp := temp[w := Idling];
      freeThreadNum := freeThreadNum + 1;
    }

    /** What the worker does with a taken entry, up to the context switch. */
    method EnterHeld(w: nat, made: nat)
      requires Enabled(View(), Enter(w, made))
      modifies this
      ensures View() == Apply(old(View()), Enter(w, made))
    {
      ghost var next := EnterTask(View(), w, made);
      EnterIs(View(), w, made);
      hide Apply, Enabled;
      var task := temp[w].task;
      if task.work.Co? && StateOf(state, task.work.c) != Terminate {
        activeThreadNum := activeThreadNum + 1;
        state := state[task.work.c := Running];
        temp := temp[w := Executing(task.work.c, task)];
      } else if task.work.Fn? {
        state := state[made := Running];
        activeThreadNum := activeThreadNum + 1;
        temp := temp[w := Executing(made, task)];
      } else {
        temp := temp[w := Idling];
        freeThreadNum := freeThreadNum + 1;
      }
      past := next.past;
    }

    /** The coroutine gives the worker back in state `left`, and the worker acts on that state. */
    method LeaveRunning(w: nat, outcome: Outcome)
      requires Enabled(View(), Leave(w, outcome))
      modifies this
      ensures View() == Apply(old(View()), Leave(w, outcome))
    {
      LeaveIs(View(), w, outcome);
      hide Apply, Enabled;
      var c, task := temp[w].c, temp[w].task;
      var left := match outcome
        case ToReady => Ready case ToPause => Pause case Finished => Terminate case Failed => Error;
      state := state[c := left];
      activeThreadNum := activeThreadNum - 1;
      temp := temp[w := Looking];
      if left == Ready {
        var _ := DispatchTask(Some(Co(c)), ANY);
      } else if task.work.Co? && left != Terminate && left != Error {
        state := state[c := Pause];
      } else if task.work.Fn? && left != Error {
        state := state[c := Pause];
      }
    }

    method WakeIdle(w: nat)
      requires Enabled(View(), WakeUp(w))
      modifies this
      ensures View() == Apply(old(View()), WakeUp(w))
    {
      freeThreadNum := freeThreadNum - 1;
      temp := temp[w := Looking];
    }

    /** The context part of `RegisterEvent`, whichever thread calls it. */
    method RegisterContext(slot: nat, work: Work)
      requires Enabled(View(), Register(slot, work))
      modifies this
      ensures View() == Apply(old(View()), Register(slot, work))
    {
      RegisterIs(View(), slot, work);
      hide Apply, Enabled;
      past := RegisterWork(View(), slot, work).past;
      contexts := contexts[slot := Some(work)];
    }

    /** The context part of `resize`. */
    method GrowContexts(n: nat)
      modifies this
      ensures View() == Apply(old(View()), Grow(n))
    {
      contexts := contexts + seq(n, _ => None);
    }

    /** The context part of `TriggerEvent`: the work is swapped out of the context into the list. */
    method TriggerContext(slot: nat)
      requires Enabled(View(), Trigger(slot))
      modifies this
      ensures View() == Apply(old(View()), Trigger(slot))
    {
      var work := contexts[slot].value;
      contexts := contexts[slot := None];
      coroutines := coroutines + [Task(serial, ANY, work)];
      serial := serial + 1;
    }
  }

  lemma EnterIs(s: Sys, w: nat, made: nat)
    requires Enabled(s, Enter(w, made))
    ensures Apply(s, Enter(w, made)) == EnterTask(s, w, made)
  {
  }

  lemma LeaveIs(s: Sys, w: nat, outcome: Outcome)
    requires Enabled(s, Leave(w, outcome))
    ensures Apply(s, Leave(w, outcome)) == LeaveTask(s, w, outcome)
  {
  }

  lemma RegisterIs(s: Sys, slot: nat, work: Work)
    requires Enabled(s, Register(slot, work))
    ensures Apply(s, Register(slot, work)) == RegisterWork(s, slot, work)
  {
  }

  /** The first eligible position is the one `Pick` names. */
  lemma FirstEligible(q: seq<Task>, w: int, st: map<nat, CoState>, i: nat)
    requires i <= |q| && (i < |q| ==> Eligible(q[i], w, st))
    requires forall j :: 0 <= j < i ==> !Eligible(q[j], w, st)
    ensures Pick(q, w, st) == i
  {
  }
}
