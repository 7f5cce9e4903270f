/** What holds over whole runs of the scheduler. */
module SchedulerRuns {
  import opened Scheduler
  import opened Wrappers

  ghost predicate LegalRun(s: Sys, es: seq<Step>)
    decreases |es|
  {
    es == [] || (Enabled(s, es[0]) && LegalRun(Apply(s, es[0]), es[1..]))
  }

  function Run(s: Sys, es: seq<Step>): Sys
    requires LegalRun(s, es)
    decreases |es|
  {
    if es == [] then s else Run(Apply(s, es[0]), es[1..])
  }

  lemma {:induction false} RunAppend(s: Sys, a: seq<Step>, b: seq<Step>)
    requires LegalRun(s, a) && LegalRun(Run(s, a), b)
    ensures LegalRun(s, a + b) && Run(s, a + b) == Run(Run(s, a), b)
    decreases |a|
  {
    hide Apply, Enabled;
    if a == [] {
      assert a + b == b;
    } else {
      assert (a + b)[1..] == a[1..] + b;
      RunAppend(Apply(s, a[0]), a[1..], b);
    }
  }

  lemma RunOne(s: Sys, e: Step)
    requires Enabled(s, e)
    ensures LegalRun(s, [e]) && Run(s, [e]) == Apply(s, e)
  {
  }

  ghost predicate DisciplinedRun(s: Sys, es: seq<Step>)
    requires LegalRun(s, es)
    decreases |es|
  {
    es == [] || (Disciplined(s, es[0]) && DisciplinedRun(Apply(s, es[0]), es[1..]))
  }

  /** Nothing queued, every worker looking, no slot armed. */
  predicate Initial(s: Sys) {
    && s.queue == [] && s.serial == 0 && s.active == s.free == 0 && s.taken == []
    && (forall w :: 0 <= w < |s.workers| ==> s.workers[w].Looking?)
    && (forall k :: 0 <= k < |s.slots| ==> s.slots[k].None?)
    && s.past == NOTHING_YET
  }

  /* ---------- exactly once ---------- */

  /** The work a step hands in. */
  function Gain(s: Sys, e: Step): Option<Work>
    requires Enabled(s, e)
  {
    match e
    case Dispatch(work, thread) => work
    case Leave(w, ToReady) => Some(Co(s.workers[w].c))
    case Register(slot, work) => Some(work)
    case _ => None
  }

  /** The work a step starts, lets go or overwrites. */
  function Use(s: Sys, e: Step): Option<Work>
    requires Enabled(s, e)
  {
    match e
    case Enter(w, made) => Some(s.workers[w].task.work)
    case Register(slot, work) => s.slots[slot]
    case _ => None
  }

  function One<T(==)>(x: Option<T>, y: T): int {
    if x == Some(y) then 1 else 0
  }

  function Count(s: Sys, x: Work): int {
    Tokens(s)[Some(x)]
  }

  lemma ScanTokens(s: Sys, w: nat, x: Work)
    requires w < |s.workers| && s.workers[w].Looking?
    ensures Count(ScanQueue(s, w), x) == Count(s, x)
  {
    var k := Pick(s.queue, w, s.state);
    if k == |s.queue| {
      HeldUpdate(s.workers, w, Idling);
    } else {
      HeldUpdate(s.workers, w, Holding(s.queue[k]));
      QueueRemove(s.queue, k);
      assert Some(s.queue[k].work) == QueuedWork(s.queue)[k];
    }
  }

  lemma EnterTokens(s: Sys, w: nat, made: nat, x: Work)
    requires w < |s.workers| && s.workers[w].Holding?
    ensures Count(EnterTask(s, w, made), x) == Count(s, x) - One(Some(s.workers[w].task.work), x)
  {
    hide HeldWork, QueuedWork, Entered, Dropped;
    HandEmptied(s.workers, w, EnterTask(s, w, made).workers[w]);
  }

  lemma HandEmptied(ws: seq<Worker>, w: nat, x: Worker)
    requires w < |ws| && ws[w].Holding? && !x.Holding?
    ensures Some(ws[w].task.work) in multiset(HeldWork(ws))
    ensures multiset(HeldWork(ws[w := x])) == multiset(HeldWork(ws)) - multiset{Some(ws[w].task.work)} + multiset{None}
  {
    HeldUpdate(ws, w, x);
    assert HeldWork(ws)[w] == Some(ws[w].task.work);
  }

  lemma LeaveTokens(s: Sys, w: nat, outcome: Outcome, x: Work)
    requires w < |s.workers| && s.workers[w].Executing?
    ensures Count(LeaveTask(s, w, outcome), x)
            == Count(s, x) + if outcome.ToReady? then One(Some(Co(s.workers[w].c)), x) else 0
  {
    HeldUpdate(s.workers, w, Looking);
    QueueAppend(s.queue, Task(s.serial, ANY, Co(s.workers[w].c)));
  }

  lemma TriggerTokens(s: Sys, slot: nat, x: Work)
    requires slot < |s.slots| && s.slots[slot].Some?
    ensures Count(TriggerSlot(s, slot), x) == Count(s, x)
  {
    QueueAppend(s.queue, Task(s.serial, ANY, s.slots[slot].value));
  }

  lemma TokensAfter(s: Sys, e: Step, x: Work)
    requires Enabled(s, e)
    ensures Count(Apply(s, e), x) == Count(s, x) + One(Gain(s, e), x) - One(Use(s, e), x)
  {
    hide Tokens;
    match e
    case Dispatch(work, thread) => DispatchTokens(s, work, thread, x);
    case Scan(w) => ScanTokens(s, w, x);
    case Enter(w, made) => EnterTokens(s, w, made, x);
    case Leave(w, outcome) => LeaveTokens(s, w, outcome, x);
    case WakeUp(w) => WakeTokens(s, w, x);
    case Register(slot, work) => RegisterTokens(s, slot, work, x);
    case Trigger(slot) => TriggerTokens(s, slot, x);
    case Grow(n) => GrowTokens(s, n, x);
  }

  lemma DispatchTokens(s: Sys, work: Option<Work>, thread: int, x: Work)
    ensures Count(DispatchWork(s, work, thread), x) == Count(s, x) + One(work, x)
  {
    if work.Some? {
      QueueAppend(s.queue, Task(s.serial, thread, work.value));
    }
  }

  lemma WakeTokens(s: Sys, w: nat, x: Work)
    requires w < |s.workers| && s.workers[w].Idling?
    ensures Count(s.(workers := s.workers[w := Looking], free := s.free - 1), x) == Count(s, x)
  {
    HeldUpdate(s.workers, w, Looking);
  }

  lemma RegisterTokens(s: Sys, slot: nat, work: Work, x: Work)
    requires slot < |s.slots|
    ensures Count(RegisterWork(s, slot, work), x) == Count(s, x) + One(Some(work), x) - One(s.slots[slot], x)
  {
  }

  lemma GrowTokens(s: Sys, n: nat, x: Work)
    ensures Count(GrowSlots(s, n), x) == Count(s, x)
  {
  }

  /** Work that is over: it was entered, let go, or overwritten in its slot. */
  function Gone(past: Past, x: Work): int {
    past.entered[Some(x)] + past.dropped[Some(x)] + past.lost[Some(x)]
  }

  /** Every piece of work ever handed in waits in a token or is over, as often as it was handed in. */
  ghost predicate Conserved(s: Sys) {
    forall x: Work :: s.past.submitted[Some(x)] == Count(s, x) + Gone(s.past, x)
  }

  /** How a step adds to what was handed in and to what is over. */
  ghost predicate Booked(past: Past, past': Past, gain: Option<Work>, use: Option<Work>, x: Work) {
    && past'.submitted[Some(x)] == past.submitted[Some(x)] + One(gain, x)
    && Gone(past', x) == Gone(past, x) + One(use, x)
  }

  lemma BooksOf(past: Past, work: Work, slot: Option<Work>, x: Work)
    ensures Booked(past, past, None, None, x)
    ensures Booked(past, Entered(past, work), None, Some(work), x)
    ensures Booked(past, Dropped(past, work), None, Some(work), x)
    ensures Booked(past, past.(submitted := past.submitted + multiset{Some(work)}), Some(work), None, x)
    ensures var past' := Overwritten(past, slot);
            Booked(past, past'.(submitted := past'.submitted + multiset{Some(work)}), Some(work), slot, x)
  {
  }

  lemma Books(s: Sys, e: Step, x: Work)
    requires Enabled(s, e)
    ensures Booked(s.past, Apply(s, e).past, Gain(s, e), Use(s, e), x)
  {
    hide Pick, Tokens, Settled, Booked, Entered, Dropped, Overwritten;
    var gain, use := Gain(s, e), Use(s, e);
    BooksOf(s.past, if gain.Some? then gain.value else if use.Some? then use.value else x, use, x);
  }

  lemma ConservedStep(s: Sys, e: Step)
    requires Enabled(s, e) && Conserved(s)
    ensures Conserved(Apply(s, e))
  {
    hide Apply, Count, Gone;
    forall x: Work
      ensures Apply(s, e).past.submitted[Some(x)]
              == Count(Apply(s, e), x) + Gone(Apply(s, e).past, x)
    {
      TokensAfter(s, e, x);
      Books(s, e, x);
    }
  }

  lemma {:induction false} AlwaysConserved(s: Sys, es: seq<Step>)
    requires Conserved(s) && LegalRun(s, es)
    ensures Conserved(Run(s, es))
    decreases |es|
  {
    hide Conserved, Apply;
    if es != [] {
      ConservedStep(s, es[0]);
      AlwaysConserved(Apply(s, es[0]), es[1..]);
    }
  }

  lemma InitiallyConserved(s: Sys)
    requires Initial(s)
    ensures Conserved(s) && forall x: Work :: Count(s, x) == 0
  {
  }

  /* ---------- one worker at a time ---------- */

  /** Work that waits twice in the queue, in two hands, or in two of the three places counts twice. */
  lemma TwoHolders(s: Sys, v: nat, w: nat)
    requires v < |s.workers| && w < |s.workers| && v != w && s.workers[v].Holding? && s.workers[w].Holding?
    requires s.workers[v].task.work == s.workers[w].task.work
    ensures Count(s, s.workers[v].task.work) >= 2
  {
    var h, x := HeldWork(s.workers), Held(s.workers[v]);
    TwoOf(h, if v < w then v else w, if v < w then w else v);
  }

  lemma TwoOf<T>(s: seq<T>, i: nat, j: nat)
    requires i < j < |s| && s[i] == s[j]
    ensures multiset(s)[s[i]] >= 2
  {
    assert s == s[..i] + [s[i]] + s[i + 1..j] + [s[j]] + s[j + 1..];
  }

  lemma HolderCounts(s: Sys, w: nat)
    requires w < |s.workers| && s.workers[w].Holding?
    ensures Count(s, s.workers[w].task.work) >= 1
  {
    assert HeldWork(s.workers)[w] == Some(s.workers[w].task.work);
  }

  ghost predicate OneToken(s: Sys) {
    forall c: nat :: Count(s, Co(c)) <= (if c in s.state then 1 else 0)
  }

  /** A coroutine in a worker's hand is not running; one that is being executed is marked running, and
      only one worker executes it. */
  ghost predicate Exclusive(ws: seq<Worker>, st: map<nat, CoState>) {
    && (forall w :: 0 <= w < |ws| && ws[w].Holding? && ws[w].task.work.Co? ==>
          StateOf(st, ws[w].task.work.c) != Running)
    && (forall w :: 0 <= w < |ws| && ws[w].Executing? ==> StateOf(st, ws[w].c) == Running)
    && (forall v, w :: 0 <= v < w < |ws| && ws[v].Executing? && ws[w].Executing? ==> ws[v].c != ws[w].c)
  }

  lemma RestExclusive(ws: seq<Worker>, st: map<nat, CoState>, w: nat, x: Worker)
    requires Exclusive(ws, st) && w < |ws| && (x.Looking? || x.Idling? || (x.Holding? && !Blocked(x.task, st)))
    ensures Exclusive(ws[w := x], st)
  {
  }

  lemma EnterExclusive(ws: seq<Worker>, st: map<nat, CoState>, w: nat, c: nat, t: Task)
    requires Exclusive(ws, st) && w < |ws| && StateOf(st, c) != Running
    requires forall v :: 0 <= v < |ws| && v != w && ws[v].Holding? ==> ws[v].task.work != Co(c)
    ensures Exclusive(ws[w := Executing(c, t)], st[c := Running])
  {
  }

  lemma LeaveExclusive(ws: seq<Worker>, st: map<nat, CoState>, w: nat, to: CoState)
    requires Exclusive(ws, st) && w < |ws| && ws[w].Executing? && to != Running
    ensures Exclusive(ws[w := Looking], st[ws[w].c := to])
  {
  }

  lemma TokenStep(s: Sys, e: Step, c: nat)
    requires Enabled(s, e) && Disciplined(s, e) && OneToken(s) && Exclusive(s.workers, s.state)
    ensures Count(Apply(s, e), Co(c)) <= (if c in Apply(s, e).state then 1 else 0)
  {
    hide Tokens;
    TokensAfter(s, e, Co(c));
  }

  lemma ExclusiveStep(s: Sys, e: Step)
    requires Enabled(s, e) && OneToken(s) && Exclusive(s.workers, s.state)
    ensures Exclusive(Apply(s, e).workers, Apply(s, e).state)
  {
    match e
    case Dispatch(work, thread) =>
    case Scan(w) =>
      RestExclusive(s.workers, s.state, w, ScanQueue(s, w).workers[w]);
    case Enter(w, made) =>
      EnterStep(s, w, made);
    case Leave(w, outcome) =>
      LeaveExclusive(s.workers, s.state, w, Settled(outcome, s.workers[w].task.work.Fn?));
    case WakeUp(w) =>
      RestExclusive(s.workers, s.state, w, Looking);
    case Register(slot, work) =>
    case Trigger(slot) =>
    case Grow(n) =>
  }

  lemma EnterStep(s: Sys, w: nat, made: nat)
    requires OneToken(s) && Exclusive(s.workers, s.state)
    requires w < |s.workers| && s.workers[w].Holding? && made !in s.state
    ensures Exclusive(EnterTask(s, w, made).workers, EnterTask(s, w, made).state)
  {
    hide Exclusive;
    var t := s.workers[w].task;
    if t.work.Fn? {
      forall v | 0 <= v < |s.workers| && v != w && s.workers[v].Holding?
        ensures s.workers[v].task.work != Co(made)
      {
        HolderCounts(s, v);
      }
      EnterExclusive(s.workers, s.state, w, made, t);
    } else if StateOf(s.state, t.work.c) != Terminate {
      forall v | 0 <= v < |s.workers| && v != w && s.workers[v].Holding?
        ensures s.workers[v].task.work != t.work
      {
        if s.workers[v].task.work == t.work { TwoHolders(s, v, w); }
      }
      HeldIdle(s.workers, s.state, w);
      EnterExclusive(s.workers, s.state, w, t.work.c, t);
    } else {
      RestExclusive(s.workers, s.state, w, Idling);
    }
  }

  lemma HeldIdle(ws: seq<Worker>, st: map<nat, CoState>, w: nat)
    requires Exclusive(ws, st) && w < |ws| && ws[w].Holding? && ws[w].task.work.Co?
    ensures StateOf(st, ws[w].task.work.c) != Running
  {
  }

  /** The main safety result: under the discipline no coroutine is ever executed by two workers, whatever
      the interleaving, even when its event fires before it has left. */
  lemma {:induction false} NeverTwice(s: Sys, es: seq<Step>)
    requires OneToken(s) && Exclusive(s.workers, s.state) && LegalRun(s, es) && DisciplinedRun(s, es)
    ensures OneToken(Run(s, es)) && Exclusive(Run(s, es).workers, Run(s, es).state)
    decreases |es|
  {
    hide Apply, Exclusive, Count;
    if es != [] {
      forall c: nat ensures Count(Apply(s, es[0]), Co(c)) <= (if c in Apply(s, es[0]).state then 1 else 0) {
        TokenStep(s, es[0], c);
      }
      ExclusiveStep(s, es[0]);
      NeverTwice(Apply(s, es[0]), es[1..]);
    }
  }

  /** The discipline is needed: two queued tokens of one coroutine, and two workers looking, and the
      coroutine can end up executed by both. */
  lemma TwoTokensTwoWorkers(s: Sys, c: nat, made: nat)
    requires |s.workers| >= 2 && s.workers[0].Looking? && s.workers[1].Looking?
    requires |s.queue| >= 2 && made !in s.state && c in s.state
    requires s.queue[0].work == s.queue[1].work == Co(c) && s.queue[0].thread == s.queue[1].thread == ANY
    requires s.state[c] != Running && s.state[c] != Terminate
    ensures var es := [Scan(0), Scan(1), Enter(0, made), Enter(1, made)];
            && LegalRun(s, es) && |Run(s, es).workers| == |s.workers|
            && Run(s, es).workers[0] == Executing(c, s.queue[0])
            && Run(s, es).workers[1] == Executing(c, s.queue[1])
  {
    var s1 := Apply(s, Scan(0));
    assert s1.queue[0] == s.queue[1];
    var s2 := Apply(s1, Scan(1));
    var s3 := Apply(s2, Enter(0, made));
    var s4 := Apply(s3, Enter(1, made));
    RunFour(s, Scan(0), Scan(1), Enter(0, made), Enter(1, made));
  }

  lemma RunFour(s: Sys, a: Step, b: Step, c: Step, d: Step)
    requires Enabled(s, a) && Enabled(Apply(s, a), b) && Enabled(Apply(Apply(s, a), b), c)
    requires Enabled(Apply(Apply(Apply(s, a), b), c), d)
    ensures LegalRun(s, [a, b, c, d]) && Run(s, [a, b, c, d]) == Apply(Apply(Apply(Apply(s, a), b), c), d)
  {
    hide Apply, Enabled;
    var es := [a, b, c, d];
    assert es[1..] == [b, c, d] && es[1..][1..] == [c, d] && es[1..][1..][1..] == [d] && es[1..][1..][1..][1..] == [];
    var s1 := Apply(s, a);
    var s2 := Apply(s1, b);
    var s3 := Apply(s2, c);
    assert LegalRun(s3, [d]) && Run(s3, [d]) == Apply(s3, d);
    assert LegalRun(s2, [c, d]) && Run(s2, [c, d]) == Run(s3, [d]);
    assert LegalRun(s1, [b, c, d]) && Run(s1, [b, c, d]) == Run(s2, [c, d]);
  }

  /* ---------- where a callback is ---------- */

  ghost predicate OnlyCoroutinesDropped(s: Sys) {
    forall f: nat :: s.past.dropped[Some(Fn(f))] == 0
  }

  lemma {:induction false} NoCallbackDropped(s: Sys, es: seq<Step>)
    requires OnlyCoroutinesDropped(s) && LegalRun(s, es)
    ensures OnlyCoroutinesDropped(Run(s, es))
    decreases |es|
  {
    if es != [] {
      assert OnlyCoroutinesDropped(Apply(s, es[0])) by {
        hide Pick;
      }
      NoCallbackDropped(Apply(s, es[0]), es[1..]);
    }
  }

  /** In this step worker `w` starts callback `f`: from holding it, it comes to execute a coroutine that did
      not exist before and is running now. */
  predicate Starts(s: Sys, e: Step, f: nat, w: nat)
    requires Enabled(s, e)
  {
    var t := Apply(s, e);
    && w < |s.workers| && w < |t.workers|
    && s.workers[w].Holding? && s.workers[w].task.work == Fn(f)
    && t.workers[w].Executing? && t.workers[w].task == s.workers[w].task
    && t.workers[w].c !in s.state && StateOf(t.state, t.workers[w].c) == Running
  }

  /** How many of the first `n` workers do. */
  function Started(s: Sys, e: Step, f: nat, n: nat): nat
    requires Enabled(s, e)
  {
    if n == 0 then 0 else Started(s, e, f, n - 1) + if Starts(s, e, f, n - 1) then 1 else 0
  }

  /** How often callback `f` is executed in a run. */
  function Executions(s: Sys, es: seq<Step>, f: nat): nat
    requires LegalRun(s, es)
    decreases |es|
  {
    if es == [] then 0 else Started(s, es[0], f, |s.workers|) + Executions(Apply(s, es[0]), es[1..], f)
  }

  /** Only entering starts a callback, and entering a worker that holds it always does. */
  lemma StartsExactly(s: Sys, e: Step, f: nat, w: nat)
    requires Enabled(s, e) && w < |s.workers|
    ensures Starts(s, e, f, w) <==> e.Enter? && e.w == w && s.workers[w].task.work == Fn(f)
  {
    hide Settled, Entered, Dropped, Overwritten;
  }

  lemma {:induction false} StartedOnce(s: Sys, e: Step, f: nat, n: nat)
    requires Enabled(s, e) && n <= |s.workers|
    ensures Started(s, e, f, n) == if e.Enter? && e.w < n && s.workers[e.w].task.work == Fn(f) then 1 else 0
  {
    hide Starts, Enabled;
    if n > 0 {
      StartedOnce(s, e, f, n - 1);
      StartsExactly(s, e, f, n - 1);
    }
  }

  /** In each step the book of entered work grows by exactly the workers that start the callback. */
  lemma EnteredIsStarted(s: Sys, e: Step, f: nat)
    requires Enabled(s, e)
    ensures Apply(s, e).past.entered[Some(Fn(f))] == s.past.entered[Some(Fn(f))] + Started(s, e, f, |s.workers|)
  {
    StartedOnce(s, e, f, |s.workers|);
    hide Started, Pick, Settled;
  }

  lemma {:induction false} EnteredIsExecuted(s: Sys, es: seq<Step>, f: nat)
    requires LegalRun(s, es)
    ensures Run(s, es).past.entered[Some(Fn(f))] == s.past.entered[Some(Fn(f))] + Executions(s, es, f)
    decreases |es|
  {
    hide Apply, Started;
    if es != [] {
      EnteredIsStarted(s, es[0], f);
      EnteredIsExecuted(Apply(s, es[0]), es[1..], f);
    }
  }

  /** A callback that was registered or dispatched is in an event slot, in the queue, in a worker's hand,
      was overwritten in its slot or was executed, and this adds up to the times it was handed in. */
  lemma ExactlyOnce(s: Sys, es: seq<Step>, f: nat)
    requires Initial(s) && LegalRun(s, es)
    ensures InOnePlace(Run(s, es), f, Executions(s, es, f))
  {
    NothingDropped(s);
    hide Count, LegalRun, Run, Conserved, OnlyCoroutinesDropped, Executions;
    InitiallyConserved(s);
    AlwaysConserved(s, es);
    NoCallbackDropped(s, es);
    EnteredIsExecuted(s, es, f);
    PlacesOf(Run(s, es), f);
  }

  ghost predicate InOnePlace(s: Sys, f: nat, executions: int) {
    var x := Some(Fn(f));
    s.past.submitted[x] == multiset(s.slots)[x] + multiset(QueuedWork(s.queue))[x]
                           + multiset(HeldWork(s.workers))[x] + executions + s.past.lost[x]
  }

  lemma NothingDropped(s: Sys)
    requires Initial(s)
    ensures OnlyCoroutinesDropped(s)
  {
  }

  lemma PlacesOf(s: Sys, f: nat)
    requires Conserved(s) && OnlyCoroutinesDropped(s)
    ensures InOnePlace(s, f, s.past.entered[Some(Fn(f))])
  {
  }

  /** Work is lost by exactly the registrations that overwrite an armed slot. */
  lemma LostExactly(s: Sys, e: Step)
    requires Enabled(s, e)
    ensures Apply(s, e).past.lost == s.past.lost <==> (e.Register? ==> s.slots[e.slot].None?)
  {
  }

  /* ---------- pins and order ---------- */

  ghost predicate Pinned(ws: seq<Worker>) {
    forall w :: 0 <= w < |ws| && (ws[w].Holding? || ws[w].Executing?) ==> Fits(ws[w].task, w)
  }

  /** The queue is in dispatch order; of two callbacks with the same pin the one dispatched first is
      taken first. */
  ghost predicate Ordered(q: seq<Task>, serial: nat, taken: seq<Task>) {
    && (forall i, j :: 0 <= i < j < |q| ==> q[i].serial < q[j].serial)
    && (forall i :: 0 <= i < |q| ==> q[i].serial < serial)
    && (forall i :: 0 <= i < |taken| ==> taken[i].serial < serial)
    && (forall i, j :: 0 <= i < |taken| && 0 <= j < |q| && Peers(taken[i], q[j]) ==> taken[i].serial < q[j].serial)
    && (forall i, j :: 0 <= i < j < |taken| && Peers(taken[i], taken[j]) ==> taken[i].serial < taken[j].serial)
  }

  predicate Peers(t: Task, u: Task) {
    t.work.Fn? && u.work.Fn? && t.thread == u.thread
  }

  lemma EnqueueOrdered(q: seq<Task>, serial: nat, taken: seq<Task>, t: Task)
    requires Ordered(q, serial, taken) && t.serial == serial
    ensures Ordered(q + [t], serial + 1, taken)
  {
  }

  lemma TakeOrdered(q: seq<Task>, serial: nat, taken: seq<Task>, k: nat, w: int, st: map<nat, CoState>)
    requires Ordered(q, serial, taken) && k < |q| && k == Pick(q, w, st)
    ensures Ordered(Without(q, k), serial, taken + [q[k]])
  {
    var r := Without(q, k);
    forall j | 0 <= j < |r| ensures r[j] == q[if j < k then j else j + 1] {
    }
    forall j | 0 <= j < k ensures !Peers(q[k], q[j]) {
      assert Eligible(q[k], w, st) && !Eligible(q[j], w, st);
    }
  }

  ghost predicate Orderly(s: Sys) {
    Pinned(s.workers) && Ordered(s.queue, s.serial, s.taken)
  }

  lemma PinnedStep(s: Sys, e: Step)
    requires Enabled(s, e) && Pinned(s.workers)
    ensures Pinned(Apply(s, e).workers)
  {
    match e
    case Scan(w) => PinnedUpdate(s.workers, w, ScanQueue(s, w).workers[w]);
    case Enter(w, made) => PinnedUpdate(s.workers, w, EnterTask(s, w, made).workers[w]);
    case Leave(w, outcome) => PinnedUpdate(s.workers, w, Looking);
    case WakeUp(w) => PinnedUpdate(s.workers, w, Looking);
    case _ =>
  }

  lemma PinnedUpdate(ws: seq<Worker>, w: nat, x: Worker)
    requires Pinned(ws) && w < |ws| && (x.Holding? || x.Executing? ==> Fits(x.task, w))
    ensures Pinned(ws[w := x])
  {
  }

  lemma OrderedStep(s: Sys, e: Step)
    requires Enabled(s, e) && Ordered(s.queue, s.serial, s.taken)
    ensures Ordered(Apply(s, e).queue, Apply(s, e).serial, Apply(s, e).taken)
  {
    hide Ordered, Settled;
    match e
    case Dispatch(work, thread) =>
      if work.Some? { EnqueueOrdered(s.queue, s.serial, s.taken, Task(s.serial, thread, work.value)); }
    case Scan(w) =>
      var k := Pick(s.queue, w, s.state);
      if k < |s.queue| { TakeOrdered(s.queue, s.serial, s.taken, k, w, s.state); }
    case Leave(w, outcome) =>
      EnqueueOrdered(s.queue, s.serial, s.taken, Task(s.serial, ANY, Co(s.workers[w].c)));
    case Trigger(slot) =>
      EnqueueOrdered(s.queue, s.serial, s.taken, Task(s.serial, ANY, s.slots[slot].value));
    case _ =>
  }

  /** Over every run a task is held and executed only by a worker its pin allows, and callbacks with the
      same pin are taken in the order they were dispatched. */
  lemma {:induction false} AlwaysOrderly(s: Sys, es: seq<Step>)
    requires Orderly(s) && LegalRun(s, es)
    ensures Orderly(Run(s, es))
    decreases |es|
  {
    hide Pinned, Ordered, Apply;
    if es != [] {
      PinnedStep(s, es[0]);
      OrderedStep(s, es[0]);
      AlwaysOrderly(Apply(s, es[0]), es[1..]);
    }
  }

  /* ---------- how long a pin lasts ---------- */

  /** The entry a step appends to the queue. */
  function Put(s: Sys, e: Step): Option<Task>
    requires Enabled(s, e)
  {
    match e
    case Dispatch(Some(work), thread) => Some(Task(s.serial, thread, work))
    case Leave(w, ToReady) => Some(Task(s.serial, ANY, Co(s.workers[w].c)))
    case Trigger(slot) => Some(Task(s.serial, ANY, s.slots[slot].value))
    case _ => None
  }

  /** The entry is queued, held or being executed. */
  ghost predicate Has(s: Sys, t: Task) {
    || t in s.queue
    || exists w :: 0 <= w < |s.workers| && (s.workers[w].Holding? || s.workers[w].Executing?) && s.workers[w].task == t
  }

  lemma PutStep(s: Sys, e: Step, t: Task)
    requires Enabled(s, e) && Has(Apply(s, e), t)
    ensures Has(s, t) || Put(s, e) == Some(t)
  {
  }

  /** Over every run, an entry with a pin was put there by a dispatch call with that pin. */
  lemma {:induction false} PinsAreDispatched(s: Sys, es: seq<Step>, t: Task)
    requires LegalRun(s, es) && Has(Run(s, es), t) && !Has(s, t) && t.thread != ANY
    ensures Dispatch(Some(t.work), t.thread) in es
    decreases |es|
  {
    hide Apply, Has;
    if Has(Apply(s, es[0]), t) {
      PutStep(s, es[0], t);
    } else {
      PinsAreDispatched(Apply(s, es[0]), es[1..], t);
    }
  }

  /** Coroutine `c` waits and runs only under entries pinned to `w`. */
  ghost predicate KeptOn(s: Sys, c: nat, w: int) {
    && c in s.state
    && (forall i :: 0 <= i < |s.queue| && s.queue[i].work == Co(c) ==> s.queue[i].thread == w)
    && (forall v :: 0 <= v < |s.workers| && s.workers[v].Holding? && s.workers[v].task.work == Co(c) ==>
          s.workers[v].task.thread == w)
    && (forall v :: 0 <= v < |s.workers| && s.workers[v].Executing? && s.workers[v].c == c ==>
          s.workers[v].task.thread == w)
  }

  /** The steps that queue the coroutine without that pin. */
  predicate Unpins(s: Sys, e: Step, c: nat, w: int)
    requires Enabled(s, e)
  {
    match e
    case Dispatch(Some(Co(d)), thread) => d == c && thread != w
    case Leave(v, ToReady) => s.workers[v].c == c
    case Trigger(slot) => s.slots[slot] == Some(Co(c))
    case _ => false
  }

  lemma QueueKept(s: Sys, t: Task, c: nat, w: int)
    requires KeptOn(s, c, w)
    ensures KeptOn(s.(queue := s.queue + [t], serial := s.serial + 1), c, w) <==> (t.work == Co(c) ==> t.thread == w)
  {
    var q := s.queue + [t];
    assert q[|s.queue|] == t;
  }

  lemma WorkerKept(s: Sys, v: nat, x: Worker, c: nat, w: int)
    requires KeptOn(s, c, w) && v < |s.workers|
    requires x.Holding? && x.task.work == Co(c) ==> x.task.thread == w
    requires x.Executing? && x.c == c ==> x.task.thread == w
    ensures KeptOn(s.(workers := s.workers[v := x]), c, w)
  {
  }

  lemma TakeKept(s: Sys, k: nat, c: nat, w: int)
    requires KeptOn(s, c, w) && k < |s.queue|
    ensures KeptOn(s.(queue := Without(s.queue, k)), c, w)
  {
  }

  /** The exact condition for a step to keep the pin. */
  lemma PinStep(s: Sys, e: Step, c: nat, w: int)
    requires Enabled(s, e) && KeptOn(s, c, w) && w != ANY
    ensures KeptOn(Apply(s, e), c, w) <==> !Unpins(s, e, c, w)
  {
    hide Settled, Entered, Dropped, Overwritten;
    match e
    case Dispatch(work, thread) =>
      if work.Some? { QueueKept(s, Task(s.serial, thread, work.value), c, w); }
    case Scan(v) =>
      var k := Pick(s.queue, v, s.state);
      WorkerKept(s, v, Idling, c, w);
      if k < |s.queue| {
        TakeKept(s, k, c, w);
        WorkerKept(s.(queue := Without(s.queue, k)), v, Holding(s.queue[k]), c, w);
      }
    case Enter(v, made) =>
      WorkerKept(s, v, EnterTask(s, v, made).workers[v], c, w);
    case Leave(v, outcome) =>
      WorkerKept(s, v, Looking, c, w);
      QueueKept(s.(workers := s.workers[v := Looking]), Task(s.serial, ANY, Co(s.workers[v].c)), c, w);
    case WakeUp(v) =>
      WorkerKept(s, v, Looking, c, w);
    case Trigger(slot) =>
      QueueKept(s, Task(s.serial, ANY, s.slots[slot].value), c, w);
    case _ =>
  }

  ghost predicate NeverUnpins(s: Sys, es: seq<Step>, c: nat, w: int)
    requires LegalRun(s, es)
    decreases |es|
  {
    es == [] || (!Unpins(s, es[0], c, w) && NeverUnpins(Apply(s, es[0]), es[1..], c, w))
  }

  /** A coroutine that is dispatched only with pin `w` is executed only by worker `w`, until it leaves to
      ready or its event fires. */
  lemma {:induction false} PinnedUntilRequeued(s: Sys, es: seq<Step>, c: nat, w: int)
    requires KeptOn(s, c, w) && w != ANY && Pinned(s.workers) && LegalRun(s, es) && NeverUnpins(s, es, c, w)
    ensures KeptOn(Run(s, es), c, w)
    ensures var ws := Run(s, es).workers;
            forall v :: 0 <= v < |ws| && ws[v].Executing? && ws[v].c == c ==> v == w
    decreases |es|
  {
    hide Apply, Unpins;
    if es != [] {
      PinStep(s, es[0], c, w);
      PinnedStep(s, es[0]);
      PinnedUntilRequeued(Apply(s, es[0]), es[1..], c, w);
    }
  }

  /** A pin belongs to the queue entry, not to the coroutine: one that leaves to ready is queued again
      without it, and every worker that finds nothing to take before it takes it. */
  lemma PinLostOnReady(s: Sys, w: nat, v: nat)
    requires w < |s.workers| && v < |s.workers| && v != w && s.workers[w].Executing? && s.workers[v].Looking?
    ensures var s1, t := Apply(s, Leave(w, ToReady)), Task(s.serial, ANY, Co(s.workers[w].c));
            && s1.queue == s.queue + [t] && Enabled(s1, Scan(v)) && Eligible(t, v, s1.state)
            && (Pick(s.queue, v, s1.state) == |s.queue| ==> Apply(s1, Scan(v)).workers[v] == Holding(t))
  {
    var s1, t := Apply(s, Leave(w, ToReady)), Task(s.serial, ANY, Co(s.workers[w].c));
    PickLast(s.queue, t, v, s1.state);
  }

  /** So is one whose event fires. */
  lemma PinLostOnTrigger(s: Sys, slot: nat, c: nat, v: nat)
    requires slot < |s.slots| && s.slots[slot] == Some(Co(c)) && v < |s.workers| && s.workers[v].Looking?
    requires StateOf(s.state, c) != Running
    ensures var s1, t := Apply(s, Trigger(slot)), Task(s.serial, ANY, Co(c));
            && s1.queue == s.queue + [t] && Enabled(s1, Scan(v)) && Eligible(t, v, s1.state)
            && (Pick(s.queue, v, s1.state) == |s.queue| ==> Apply(s1, Scan(v)).workers[v] == Holding(t))
  {
    PickLast(s.queue, Task(s.serial, ANY, Co(c)), v, s.state);
  }

  lemma PickLast(q: seq<Task>, t: Task, v: int, st: map<nat, CoState>)
    requires Eligible(t, v, st)
    ensures Pick(q, v, st) == |q| ==> Pick(q + [t], v, st) == |q|
  {
    hide Eligible;
    var k := Pick(q + [t], v, st);
    assert (q + [t])[|q|] == t;
    assert forall i :: 0 <= i < |q| ==> (q + [t])[i] == q[i];
  }

  /* ---------- what each step leaves behind ---------- */

  /** How a worker goes round its loop: a scan that finds nothing makes it idle and any other makes it hold
      the first entry it may take; it executes what it holds, unless that is a terminated coroutine, and
      idles then; leaving and waking up make it look again. No step touches another worker. */
  ghost predicate GoesRound(s: Sys, e: Step, w: nat, x: Worker, x': Worker) {
    match e
    case Scan(v) =>
      if v != w then x' == x
      else if forall i :: 0 <= i < |s.queue| ==> !Eligible(s.queue[i], w, s.state) then x' == Idling
      else exists k :: 0 <= k < |s.queue| && Eligible(s.queue[k], w, s.state) && x' == Holding(s.queue[k])
                       && forall i :: 0 <= i < k ==> !Eligible(s.queue[i], w, s.state)
    case Enter(v, made) =>
      if v != w then x' == x
      else
        && x.Holding?
        && x' == if x.task.work.Fn? then Executing(made, x.task)
                 else if StateOf(s.state, x.task.work.c) == Terminate then Idling
                 else Executing(x.task.work.c, x.task)
    case Leave(v, outcome) => x' == if v == w then Looking else x
    case WakeUp(v) => x' == if v == w then Looking else x
    case _ => x' == x
  }

  lemma WorkersGoRound(s: Sys, e: Step, w: nat)
    requires Enabled(s, e) && w < |s.workers|
    ensures |Apply(s, e).workers| == |s.workers|
    ensures GoesRound(s, e, w, s.workers[w], Apply(s, e).workers[w])
  {
    hide Settled, Entered, Dropped, Overwritten;
  }

  /** What a step does to the queue: dispatching, leaving to ready and firing append one entry, a scan takes
      out the first entry it may take, and nothing else touches the queue. */
  lemma QueueExactly(s: Sys, e: Step)
    requires Enabled(s, e)
    ensures var q, q' := s.queue, Apply(s, e).queue;
            match e {
              case Dispatch(Some(work), thread) => q' == q + [Task(s.serial, thread, work)]
              case Leave(w, ToReady) => q' == q + [Task(s.serial, -1, Co(s.workers[w].c))]
              case Trigger(slot) => q' == q + [Task(s.serial, -1, s.slots[slot].value)]
              case Scan(w) =>
                if forall i :: 0 <= i < |q| ==> !Eligible(q[i], w, s.state) then
                  q' == q && Apply(s, e).taken == s.taken
                else
                  exists k :: 0 <= k < |q| && Eligible(q[k], w, s.state) && q' == q[..k] + q[k + 1..]
                              && Apply(s, e).taken == s.taken + [q[k]]
                              && forall i :: 0 <= i < k ==> !Eligible(q[i], w, s.state)
              case _ => q' == q
            }
    ensures !e.Scan? ==> Apply(s, e).taken == s.taken
  {
    hide Settled, Entered, Dropped, Overwritten;
  }

  /** What a step does to the state of a coroutine. */
  lemma StatesExactly(s: Sys, e: Step, c: nat)
    requires Enabled(s, e)
    ensures var before, after := StateOf(s.state, c), StateOf(Apply(s, e).state, c);
            match e {
              case Enter(w, made) =>
                var work := s.workers[w].task.work;
                after == if (work.Fn? && c == made) || (work == Co(c) && before != Terminate) then Running else before
              case Leave(w, outcome) =>
                after == if s.workers[w].c != c then before
                         else if outcome.ToReady? then Ready
                         else if outcome.Failed? then Error
                         else if outcome.Finished? && s.workers[w].task.work.Co? then Terminate
                         else Pause
              case _ => after == before
            }
  {
    hide Entered, Dropped, Overwritten;
  }

  /* ---------- coroutines that are over ---------- */

  /** A coroutine that leaves is over as the scheduler sees it if and only if it finished and was queued as
      a coroutine: one that failed, or that was made for a function, is not. */
  lemma OverExactly(s: Sys, w: nat, outcome: Outcome)
    requires Enabled(s, Leave(w, outcome))
    ensures StateOf(Apply(s, Leave(w, outcome)).state, s.workers[w].c) == Terminate
            <==> outcome.Finished? && s.workers[w].task.work.Co?
  {
  }

  /** It is over and no worker executes it. */
  ghost predicate AtRest(s: Sys, c: nat) {
    && c in s.state && s.state[c] == Terminate
    && forall w :: 0 <= w < |s.workers| && s.workers[w].Executing? ==> s.workers[w].c != c
  }

  lemma AtRestStep(s: Sys, e: Step, c: nat)
    requires Enabled(s, e) && AtRest(s, c)
    ensures AtRest(Apply(s, e), c)
  {
    hide Settled, Entered, Dropped, Overwritten;
  }

  /** Over every run, a coroutine in state terminate is never executed again, however many tokens of it
      are left. */
  lemma {:induction false} NeverAgain(s: Sys, es: seq<Step>, c: nat)
    requires AtRest(s, c) && LegalRun(s, es)
    ensures AtRest(Run(s, es), c)
    decreases |es|
  {
    hide AtRest, Apply;
    if es != [] {
      AtRestStep(s, es[0], c);
      NeverAgain(Apply(s, es[0]), es[1..], c);
    }
  }

  /** A worker that holds a coroutine enters it if and only if its state is not terminate. */
  lemma EnteredExactly(s: Sys, w: nat, made: nat, c: nat)
    requires Enabled(s, Enter(w, made)) && s.workers[w].task.work == Co(c)
    ensures Apply(s, Enter(w, made)).workers[w] == Executing(c, s.workers[w].task) <==> StateOf(s.state, c) != Terminate
  {
  }

  /** A coroutine that is over and has a token left in a slot: once its event has fired, a worker that
      finds nothing before it executes it again, if and only if it failed or was made for a function. */
  lemma OverReentered(s: Sys, w: nat, outcome: Outcome, slot: nat, v: nat, made: nat)
    requires Enabled(s, Leave(w, outcome)) && (outcome.Finished? || outcome.Failed?)
    requires slot < |s.slots| && s.slots[slot] == Some(Co(s.workers[w].c))
    requires v < |s.workers| && (v == w || s.workers[v].Looking?) && made !in s.state && made != s.workers[w].c
    requires Pick(s.queue, v, Apply(s, Leave(w, outcome)).state) == |s.queue|
    ensures var es := [Leave(w, outcome), Trigger(slot), Scan(v), Enter(v, made)];
            var t := Task(s.serial, ANY, Co(s.workers[w].c));
            && LegalRun(s, es) && |Run(s, es).workers| == |s.workers|
            && (Run(s, es).workers[v] == Executing(s.workers[w].c, t)
                <==> outcome.Failed? || s.workers[w].task.work.Fn?)
  {
    hide Entered, Dropped;
    var c := s.workers[w].c;
    var t := Task(s.serial, ANY, Co(c));
    var s1 := Apply(s, Leave(w, outcome));
    var s2 := Apply(s1, Trigger(slot));
    PickLast(s.queue, t, v, s1.state);
    var s3 := Apply(s2, Scan(v));
    assert s3.workers[v] == Holding(t);
    OverExactly(s, w, outcome);
    EnteredExactly(s3, v, made, c);
    RunFour(s, Leave(w, outcome), Trigger(slot), Scan(v), Enter(v, made));
  }

  /* ---------- counters ---------- */

  /** How many workers execute, and how many idle. */
  function Busy(ws: seq<Worker>): nat {
    if ws == [] then 0 else Busy(ws[1..]) + if ws[0].Executing? then 1 else 0
  }

  function Resting(ws: seq<Worker>): nat {
    if ws == [] then 0 else Resting(ws[1..]) + if ws[0].Idling? then 1 else 0
  }

  predicate Counted(s: Sys) {
    s.active == Busy(s.workers) && s.free == Resting(s.workers)
  }

  lemma {:induction false} CountUpdate(ws: seq<Worker>, w: nat, x: Worker)
    requires w < |ws|
    ensures Busy(ws[w := x]) == Busy(ws) - (if ws[w].Executing? then 1 else 0) + if x.Executing? then 1 else 0
    ensures Resting(ws[w := x]) == Resting(ws) - (if ws[w].Idling? then 1 else 0) + if x.Idling? then 1 else 0
  {
    if w == 0 {
      assert ws[w := x][1..] == ws[1..];
    } else {
      assert ws[w := x][1..] == ws[1..][w - 1 := x];
      CountUpdate(ws[1..], w - 1, x);
    }
  }

  lemma CountedStep(s: Sys, e: Step)
    requires Enabled(s, e) && Counted(s)
    ensures Counted(Apply(s, e))
  {
    hide Busy, Resting, Settled;
    match e
    case Scan(w) => CountUpdate(s.workers, w, ScanQueue(s, w).workers[w]);
    case Enter(w, made) => CountUpdate(s.workers, w, EnterTask(s, w, made).workers[w]);
    case Leave(w, outcome) => CountUpdate(s.workers, w, Looking);
    case WakeUp(w) => CountUpdate(s.workers, w, Looking);
    case _ =>
  }

  lemma {:induction false} AlwaysCounted(s: Sys, es: seq<Step>)
    requires Counted(s) && LegalRun(s, es)
    ensures Counted(Run(s, es))
    decreases |es|
  {
    hide Counted, Apply;
    if es != [] {
      CountedStep(s, es[0]);
      AlwaysCounted(Apply(s, es[0]), es[1..]);
    }
  }

  /* ---------- bounded bypass ---------- */

  /** How many scans of the run took a task, by workers that could have taken one pinned to `thread`. */
  function Scans(s: Sys, es: seq<Step>, thread: int): nat
    requires LegalRun(s, es)
    decreases |es|
  {
    if es == [] then 0
    else (if Serves(s, es[0], thread) then 1 else 0) + Scans(Apply(s, es[0]), es[1..], thread)
  }

  predicate Serves(s: Sys, e: Step, thread: int) {
    e.Scan? && (thread == ANY || thread == e.w) && Pick(s.queue, e.w, s.state) < |s.queue|
  }

  predicate Queued(q: seq<Task>, k: int, t: Task) {
    0 <= k < |q| && q[k] == t
  }

  /** One step: a callback at position `k` is taken, or it is at position `k` still, or, whenever a scan
      that could have taken it took another task, closer to the front. */
  lemma BypassStep(s: Sys, e: Step, k: nat, t: Task) returns (k': nat)
    requires Enabled(s, e) && Queued(s.queue, k, t) && t.work.Fn?
    ensures var s' := Apply(s, e);
            t in s'.taken
            || (Queued(s'.queue, k', t) && k' <= k - (if Serves(s, e, t.thread) then 1 else 0))
  {
    hide Settled;
    k' := k;
    if e.Scan? {
      var j := Pick(s.queue, e.w, s.state);
      if j < k {
        k' := k - 1;
        assert Without(s.queue, j)[k - 1] == t;
      } else if j == k {
        assert Apply(s, e).taken[|s.taken|] == t;
      }
    }
  }

  lemma TakenStays(s: Sys, e: Step, t: Task)
    requires Enabled(s, e) && t in s.taken
    ensures t in Apply(s, e).taken
  {
  }

  /** A callback at position `k` of the queue is taken by the time `k + 1` scans that could have taken it
      have taken something, whatever else is dispatched meanwhile. */
  lemma {:induction false} BoundedBypass(s: Sys, es: seq<Step>, k: nat, t: Task)
    requires LegalRun(s, es) && (t in s.taken || (Queued(s.queue, k, t) && t.work.Fn?))
    ensures Scans(s, es, t.thread) > k || t in s.taken ==> t in Run(s, es).taken
    decreases |es|
  {
    hide Apply, Serves, Enabled;
    if es != [] {
      if t in s.taken {
        TakenStays(s, es[0], t);
        BoundedBypass(Apply(s, es[0]), es[1..], k, t);
      } else {
        var k' := BypassStep(s, es[0], k, t);
        BoundedBypass(Apply(s, es[0]), es[1..], k', t);
      }
    }
  }

  /* ---------- from the start ---------- */

  lemma StartsGood(s: Sys)
    requires Initial(s)
    ensures Conserved(s) && Orderly(s) && Counted(s) && OneToken(s) && Exclusive(s.workers, s.state)
  {
    hide Tokens, Count;
    InitiallyConserved(s);
    AllLooking(s.workers);
  }

  /** Everything above for a scheduler that has just been started. */
  lemma FromTheStart(s: Sys, es: seq<Step>)
    requires Initial(s) && LegalRun(s, es)
    ensures Conserved(Run(s, es)) && Orderly(Run(s, es)) && Counted(Run(s, es))
    ensures DisciplinedRun(s, es) ==> OneToken(Run(s, es)) && Exclusive(Run(s, es).workers, Run(s, es).state)
  {
    hide Initial, Conserved, Orderly, Counted, OneToken, Exclusive, Run, LegalRun, DisciplinedRun;
    StartsGood(s);
    AlwaysConserved(s, es);
    AlwaysOrderly(s, es);
    AlwaysCounted(s, es);
    if DisciplinedRun(s, es) {
      NeverTwice(s, es);
    }
  }

  lemma {:induction false} AllLooking(ws: seq<Worker>)
    requires forall w :: 0 <= w < |ws| ==> ws[w].Looking?
    ensures Busy(ws) == Resting(ws) == 0
  {
    if ws != [] {
      AllLooking(ws[1..]);
    }
  }
}
