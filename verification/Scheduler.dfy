/** The worker scheduler as a state machine: N workers share one task queue, coroutines move between
    states, and event slots hold work until their event fires.

    A step is what a worker does while it holds the queue's lock, or between two context switches.
    Taking a task and entering it are two steps, so other workers may act in between. */
module Scheduler {
  import opened Wrappers

  datatype CoState = Init | Ready | Running | Pause | Terminate | Error

  datatype Work = Fn(f: nat) | Co(c: nat)

  /** A queue entry. `serial` numbers the entries in the order they were dispatched; `thread` is -1 for
      any worker. */
  datatype Task = Task(serial: nat, thread: int, work: Work)

  const ANY: int := -1

  datatype Worker =
    | Looking                      // at the top of the loop
    | Holding(task: Task)          // took a task, has not entered it
    | Executing(c: nat, task: Task)
    | Idling

  /** All work so far that was handed in, was entered, was let go, and was overwritten in its slot. */
  datatype Past = Past(submitted: multiset<Option<Work>>, entered: multiset<Option<Work>>,
                       dropped: multiset<Option<Work>>, lost: multiset<Option<Work>>)

  const NOTHING_YET: Past := Past(multiset{}, multiset{}, multiset{}, multiset{})

  /** `slots` are the places in event contexts; `taken` and `past` record the history of the run. */
  datatype Sys = Sys(queue: seq<Task>, serial: nat, workers: seq<Worker>, state: map<nat, CoState>,
                     slots: seq<Option<Work>>, active: int, free: int,
                     taken: seq<Task>, past: Past)

  function StateOf(st: map<nat, CoState>, c: nat): CoState {
    if c in st then st[c] else Init
  }

  /* ---------- the scan ---------- */

  predicate Fits(t: Task, w: int) {
    t.thread == ANY || t.thread == w
  }

  predicate Blocked(t: Task, st: map<nat, CoState>) {
    t.work.Co? && StateOf(st, t.work.c) == Running
  }

  predicate Eligible(t: Task, w: int, st: map<nat, CoState>) {
    Fits(t, w) && !Blocked(t, st)
  }

  /** The entry the scan of worker `w` stops at, or the length of the queue. */
  function Pick(q: seq<Task>, w: int, st: map<nat, CoState>): (k: nat)
    ensures k <= |q| && (k < |q| ==> Eligible(q[k], w, st))
    ensures forall i :: 0 <= i < k ==> !Eligible(q[i], w, st)
  {
    if q == [] then 0
    else if Eligible(q[0], w, st) then 0
    else
      var k := Pick(q[1..], w, st);
      assert forall i :: 1 <= i < k + 1 ==> !Eligible(q[1..][i - 1], w, st) && q[i] == q[1..][i - 1];
      k + 1
  }

  function Without<T>(s: seq<T>, k: nat): seq<T>
    requires k < |s|
  {
    s[..k] + s[k + 1..]
  }

  /* ---------- the steps ---------- */

  datatype Outcome = ToReady | ToPause | Finished | Failed

  datatype Step =
    | Dispatch(work: Option<Work>, thread: int)
    | Scan(w: nat)
    | Enter(w: nat, made: nat)          // `made` names the coroutine made for a function task
    | Leave(w: nat, outcome: Outcome)
    | WakeUp(w: nat)
    | Register(slot: nat, item: Work)   // by any thread, a worker's or another
    | Trigger(slot: nat)
    | Grow(n: nat)                 // room for more contexts

  predicate Enabled(s: Sys, e: Step) {
    match e
    case Dispatch(work, thread) => true
    case Scan(w) => w < |s.workers| && s.workers[w].Looking?
    case Enter(w, made) => w < |s.workers| && s.workers[w].Holding? && made !in s.state
    case Leave(w, outcome) => w < |s.workers| && s.workers[w].Executing?
    case WakeUp(w) => w < |s.workers| && s.workers[w].Idling?
    case Register(slot, work) => slot < |s.slots|
    case Trigger(slot) => slot < |s.slots| && s.slots[slot].Some?
    case Grow(n) => true
  }

  function Enqueue(s: Sys, work: Work, thread: int): Sys {
    s.(queue := s.queue + [Task(s.serial, thread, work)], serial := s.serial + 1)
  }

  function Submit(s: Sys, work: Work): Sys {
    s.(past := s.past.(submitted := s.past.submitted + multiset{Some(work)}))
  }

  /** What a coroutine's state is once the worker has looked at it. A function's coroutine that finished
      is not recognised as finished, because the code tests for `error | terminate`, which is `error`. */
  function Settled(outcome: Outcome, fromFunction: bool): CoState {
    match outcome
    case ToReady => Ready
    case ToPause => Pause
    case Finished => if fromFunction then Pause else Terminate
    case Failed => Error
  }

  function Entered(past: Past, work: Work): Past {
    past.(entered := past.entered + multiset{Some(work)})
  }

  function Dropped(past: Past, work: Work): Past {
    past.(dropped := past.dropped + multiset{Some(work)})
  }

  /** Overwriting a slot loses what was in it. */
  function Overwritten(past: Past, slot: Option<Work>): Past {
    if slot.Some? then past.(lost := past.lost + multiset{slot}) else past
  }

  function DispatchWork(s: Sys, work: Option<Work>, thread: int): Sys {
    if work.None? then s else Enqueue(Submit(s, work.value), work.value, thread)
  }

  function ScanQueue(s: Sys, w: nat): Sys
    requires w < |s.workers|
  {
    var k := Pick(s.queue, w, s.state);
    if k == |s.queue| then s.(workers := s.workers[w := Idling], free := s.free + 1)
    else s.(workers := s.workers[w := Holding(s.queue[k])], queue := Without(s.queue, k),
            taken := s.taken + [s.queue[k]])
  }

  /** A function gets a new coroutine; a terminated coroutine is let go and the worker idles. */
  function EnterTask(s: Sys, w: nat, made: nat): Sys
    requires w < |s.workers| && s.workers[w].Holding?
  {
    var t := s.workers[w].task;
    if t.work.Fn? then
      s.(workers := s.workers[w := Executing(made, t)], state := s.state[made := Running],
         active := s.active + 1, past := Entered(s.past, t.work))
    else if StateOf(s.state, t.work.c) != Terminate then
      s.(workers := s.workers[w := Executing(t.work.c, t)], state := s.state[t.work.c := Running],
         active := s.active + 1, past := Entered(s.past, t.work))
    else
      s.(workers := s.workers[w := Idling], free := s.free + 1, past := Dropped(s.past, t.work))
  }

  function LeaveTask(s: Sys, w: nat, outcome: Outcome): Sys
    requires w < |s.workers| && s.workers[w].Executing?
  {
    var x := s.workers[w];
    var s1 := s.(workers := s.workers[w := Looking], active := s.active - 1,
                 state := s.state[x.c := Settled(outcome, x.task.work.Fn?)]);
    if outcome.ToReady? then Enqueue(Submit(s1, Co(x.c)), Co(x.c), ANY) else s1
  }

  function RegisterWork(s: Sys, slot: nat, work: Work): Sys
    requires slot < |s.slots|
  {
    Submit(s.(slots := s.slots[slot := Some(work)], past := Overwritten(s.past, s.slots[slot])), work)
  }

  function GrowSlots(s: Sys, n: nat): Sys {
    s.(slots := s.slots + seq(n, _ => None))
  }

  function TriggerSlot(s: Sys, slot: nat): Sys
    requires slot < |s.slots| && s.slots[slot].Some?
  {
    Enqueue(s.(slots := s.slots[slot := None]), s.slots[slot].value, ANY)
  }

  function Apply(s: Sys, e: Step): Sys
    requires Enabled(s, e)
  {
    match e
    case Dispatch(work, thread) => DispatchWork(s, work, thread)
    case Scan(w) => ScanQueue(s, w)
    case Enter(w, made) => EnterTask(s, w, made)
    case Leave(w, outcome) => LeaveTask(s, w, outcome)
    case WakeUp(w) => s.(workers := s.workers[w := Looking], free := s.free - 1)
    case Register(slot, work) => RegisterWork(s, slot, work)
    case Trigger(slot) => TriggerSlot(s, slot)
    case Grow(n) => GrowSlots(s, n)
  }

  /* ---------- wake tokens ---------- */

  function QueuedWork(q: seq<Task>): seq<Option<Work>> {
    seq(|q|, i requires 0 <= i < |q| => Some(q[i].work))
  }

  /** The old entries are all there, and behind them come entries with that work, without a pin. */
  ghost predicate Behind(q: seq<Task>, q': seq<Task>, work: seq<Option<Work>>) {
    && q <= q' && |q'| == |q| + |work|
    && forall i :: 0 <= i < |work| ==> q'[|q| + i].thread == -1 && Some(q'[|q| + i].work) == work[i]
  }

  lemma BehindThen(q: seq<Task>, r: seq<Task>, u: seq<Task>, a: seq<Option<Work>>, b: seq<Option<Work>>)
    requires Behind(q, r, a) && Behind(r, u, b)
    ensures Behind(q, u, a + b)
  {
    forall i | 0 <= i < |a + b| ensures u[|q| + i].thread == -1 && Some(u[|q| + i].work) == (a + b)[i] {
      if i < |a| {
        assert a[i] == (a + b)[i] && u[|q| + i] == r[|q| + i];
      } else {
        var j := i - |a|;
        assert b[j] == (a + b)[i] && u[|r| + j] == u[|q| + i];
      }
    }
  }

  function Held(x: Worker): Option<Work> {
    if x.Holding? then Some(x.task.work) else None
  }

  function HeldWork(ws: seq<Worker>): seq<Option<Work>> {
    seq(|ws|, i requires 0 <= i < |ws| => Held(ws[i]))
  }

  /** All work that waits: in the queue, in a worker's hand, in an event slot. */
  function Tokens(s: Sys): multiset<Option<Work>> {
    multiset(QueuedWork(s.queue)) + multiset(HeldWork(s.workers)) + multiset(s.slots)
  }

  /** The discipline of the callers: a coroutine is handed to the scheduler only when it exists and has
      no wake token yet. */
  predicate Disciplined(s: Sys, e: Step)
    requires Enabled(s, e)
  {
    match e
    case Dispatch(Some(Co(c)), thread) => c in s.state && Tokens(s)[Some(Co(c))] == 0
    case Leave(w, ToReady) => Tokens(s)[Some(Co(s.workers[w].c))] == 0
    case Register(slot, Co(c)) => c in s.state && Tokens(s)[Some(Co(c))] == 0
    case _ => true
  }

  lemma QueueAppend(q: seq<Task>, t: Task)
    ensures multiset(QueuedWork(q + [t])) == multiset(QueuedWork(q)) + multiset{Some(t.work)}
  {
    assert QueuedWork(q + [t]) == QueuedWork(q) + [Some(t.work)];
  }

  lemma QueueRemove(q: seq<Task>, k: nat)
    requires k < |q|
    ensures multiset(QueuedWork(Without(q, k))) == multiset(QueuedWork(q)) - multiset{Some(q[k].work)}
  {
    var x := QueuedWork(q);
    assert QueuedWork(Without(q, k)) == x[..k] + x[k + 1..];
    assert x == x[..k] + [x[k]] + x[k + 1..];
  }

  lemma HeldUpdate(ws: seq<Worker>, w: nat, x: Worker)
    requires w < |ws|
    ensures multiset(HeldWork(ws[w := x])) == multiset(HeldWork(ws)) - multiset{Held(ws[w])} + multiset{Held(x)}
  {
    assert HeldWork(ws[w := x]) == HeldWork(ws)[w := Held(x)];
  }
}
