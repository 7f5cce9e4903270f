/** Whole runs of adding, deleting and polling timers. */
module TimerRuns {
  import opened Timer

  datatype Firing = Firing(id: nat, func: nat, at: int)

  /** `clock` is the time of the last poll, `log` the firings so far, `gone` the timers that were taken
      out, `known` every identity ever used. */
  datatype Manager = Manager(c: seq<Timer>, previous: int, clock: int, log: seq<Firing>,
                             gone: set<nat>, known: set<nat>)

  datatype Op =
    | Add(t: Timer)
    | CallDelete(t: Timer)   // DeleteTimer as it is written
    | Drop(id: nat)          // DeleteTimer as the header means it
    | Restart(t: Timer, current: int, delay: int)   // refresh and reset of a pending timer, with that delete
    | PollAt(now: int)

  predicate Legal(m: Manager, op: Op) {
    (op.Add? ==> op.t.id !in m.known) && (op.Restart? ==> op.t in m.c)
  }

  function Firings(fired: seq<Timer>, now: int): seq<Firing> {
    seq(|fired|, i requires 0 <= i < |fired| => Firing(fired[i].id, fired[i].func, now))
  }

  function Apply(m: Manager, op: Op): Manager {
    match op
    case Add(t) => m.(c := Insert(m.c, t), known := m.known + {t.id})
    case CallDelete(t) => m.(c := Delete(m.c, t).0)
    case Restart(t, current, delay) => m.(c := Insert(Removed(m.c, t.id), Renewed(t, current, delay)))
    case Drop(id) => m.(c := Removed(m.c, id), gone := if Contains(m.c, id) then m.gone + {id} else m.gone)
    case PollAt(now) =>
      var (p, previous) := GetExpired(m.previous, m.c, now);
      m.(c := p.rest, previous := previous, clock := now, log := m.log + Firings(p.fired, now))
  }

  predicate LegalRun(m: Manager, ops: seq<Op>)
    decreases |ops|
  {
    ops == [] || (Legal(m, ops[0]) && LegalRun(Apply(m, ops[0]), ops[1..]))
  }

  function Run(m: Manager, ops: seq<Op>): Manager
    decreases |ops|
  {
    if ops == [] then m else Run(Apply(m, ops[0]), ops[1..])
  }

  /** When timer `id` fired, in order. */
  function Times(log: seq<Firing>, id: nat): seq<int> {
    if log == [] then []
    else Times(log[..|log| - 1], id) + if log[|log| - 1].id == id then [log[|log| - 1].at] else []
  }

  /* ---------- one timer in the container ---------- */

  /** The container holds timer `t.id` exactly once, as `t`. */
  predicate Sole(c: seq<Timer>, t: Timer) {
    Occurrences(c, t.id) == 1 && t in c
  }

  lemma {:induction false} OccursSplit(a: seq<Timer>, b: seq<Timer>, id: nat)
    ensures Occurrences(a + b, id) == Occurrences(a, id) + Occurrences(b, id)
  {
    if a == [] {
      assert a + b == b;
    } else {
      assert (a + b)[1..] == a[1..] + b;
      OccursSplit(a[1..], b, id);
    }
  }

  lemma {:induction false} OccursIn(c: seq<Timer>, t: Timer)
    requires t in c
    ensures Occurrences(c, t.id) >= 1
  {
    if c[0] != t {
      OccursIn(c[1..], t);
    }
  }

  /** Splitting off a front that holds the sole timer, or a front that does not. */
  lemma SoleSplit(c: seq<Timer>, k: nat, t: Timer)
    requires Sole(c, t) && k <= |c|
    ensures t in c[..k] ==> Sole(c[..k], t) && Absent(c[k..], t.id)
    ensures t !in c[..k] ==> Absent(c[..k], t.id) && Sole(c[k..], t)
  {
    assert c == c[..k] + c[k..];
    OccursSplit(c[..k], c[k..], t.id);
    if t in c[..k] {
      OccursIn(c[..k], t);
    } else {
      OccursIn(c[k..], t);
    }
  }

  lemma InsertOccurs(c: seq<Timer>, t: Timer, id: nat)
    requires Sorted(c)
    ensures Occurrences(Insert(c, t), id) == Occurrences(c, id) + if t.id == id then 1 else 0
    ensures forall u :: u in Insert(c, t) <==> u == t || u in c
  {
    InsertKeeps(c, t);
    var k := Place(false, c, t.start);
    OccursOnce(c, k, t);
    InsertMembers(c, k, t);
  }

  lemma {:induction false} RearmOccurs(c: seq<Timer>, expired: seq<Timer>, now: int, id: nat)
    requires Sorted(c)
    ensures Occurrences(Rearm(c, expired, now), id) == Occurrences(c, id) + Occurrences(Again(expired, now), id)
    ensures forall u :: u in c || u in Again(expired, now) ==> u in Rearm(c, expired, now)
    decreases |expired|
  {
    if expired != [] {
      var c1 := if expired[0].cyclic then Insert(c, Rearmed(expired[0], now)) else c;
      if expired[0].cyclic {
        InsertKeeps(c, Rearmed(expired[0], now));
        InsertOccurs(c, Rearmed(expired[0], now), id);
      }
      RearmOccurs(c1, expired[1..], now, id);
      OccursSplit(AgainHead(expired[0], now), Again(expired[1..], now), id);
    }
  }

  function AgainHead(t: Timer, now: int): seq<Timer> {
    if t.cyclic then [Rearmed(t, now)] else []
  }

  lemma {:induction false} AgainAbsent(fired: seq<Timer>, now: int, id: nat)
    requires Absent(fired, id)
    ensures Absent(Again(fired, now), id)
  {
    if fired != [] {
      AgainAbsent(fired[1..], now, id);
      OccursSplit(AgainHead(fired[0], now), Again(fired[1..], now), id);
    }
  }

  lemma {:induction false} AgainSole(fired: seq<Timer>, t: Timer, now: int)
    requires Sole(fired, t)
    ensures if t.cyclic then Sole(Again(fired, now), Rearmed(t, now)) else Absent(Again(fired, now), t.id)
  {
    OccursSplit(AgainHead(fired[0], now), Again(fired[1..], now), t.id);
    if fired[0] == t {
      AgainAbsent(fired[1..], now, t.id);
    } else {
      OccursIn(fired[1..], t);
      AgainSole(fired[1..], t, now);
    }
  }

  /** A poll fires the sole timer exactly when it is due, and then keeps it, one delay on, exactly when
      it is cyclic. */
  lemma PollSole(c: seq<Timer>, t: Timer, now: int)
    requires Sorted(c) && Sole(c, t)
    ensures Cut(false, c, now, false) <= |c|
    ensures var p := Expire(c, now, false);
            if t.start <= now then
              Sole(p.fired, t) && if t.cyclic then Sole(p.rest, Rearmed(t, now)) else Absent(p.rest, t.id)
            else Absent(p.fired, t.id) && Sole(p.rest, t)
  {
    CutIsDue(false, c, now);
    var k := Cut(false, c, now, false);
    SoleSplit(c, k, t);
    RearmOccurs(c[k..], c[..k], now, t.id);
    if t in c[..k] {
      AgainSole(c[..k], t, now);
    } else {
      AgainAbsent(c[..k], now, t.id);
    }
  }

  lemma PollAbsent(c: seq<Timer>, now: int, id: nat)
    requires Sorted(c) && Absent(c, id)
    ensures Cut(false, c, now, false) <= |c|
    ensures Absent(Expire(c, now, false).fired, id) && Absent(Expire(c, now, false).rest, id)
  {
    CutIsDue(false, c, now);
    var k := Cut(false, c, now, false);
    assert c == c[..k] + c[k..];
    OccursSplit(c[..k], c[k..], id);
    RearmOccurs(c[k..], c[..k], now, id);
    AgainAbsent(c[..k], now, id);
  }

  lemma {:induction false} TimesFirings(log: seq<Firing>, fired: seq<Timer>, now: int, id: nat)
    ensures Absent(fired, id) ==> Times(log + Firings(fired, now), id) == Times(log, id)
    ensures Occurrences(fired, id) == 1 ==> Times(log + Firings(fired, now), id) == Times(log, id) + [now]
  {
    if fired == [] {
      assert log + Firings(fired, now) == log;
    } else {
      var n := |fired| - 1;
      TimesFirings(log, fired[..n], now, id);
      assert fired == fired[..n] + [fired[n]];
      OccursSplit(fired[..n], [fired[n]], id);
      assert (log + Firings(fired, now))[..|log| + n] == log + Firings(fired[..n], now);
    }
  }

  /* ---------- steps ---------- */

  lemma PollStep(m: Manager, now: int)
    requires Sorted(m.c)
    ensures Cut(false, m.c, now, false) <= |m.c|
    ensures var p, m' := Expire(m.c, now, false), Apply(m, PollAt(now));
            && m'.c == p.rest && m'.log == m.log + Firings(p.fired, now) && m'.clock == now
            && m'.gone == m.gone && m'.known == m.known && Sorted(m'.c)
  {
    VerdictNeverMatters(m.previous, m.c, now);
    ExpireExactly(m.c, now, false);
  }

  lemma SortedStep(m: Manager, op: Op)
    requires Sorted(m.c)
    ensures Sorted(Apply(m, op).c)
  {
    match op
    case Add(t) => InsertKeeps(m.c, t);
    case CallDelete(t) => DeleteExactly(m.c, t);
    case Drop(id) => RemovedSorted(m.c, id);
    case Restart(t, current, delay) => RestartOccurs(m.c, t, current, delay, t.id);
    case PollAt(now) => PollStep(m, now);
  }

  lemma {:induction false} RemovedOccurs(c: seq<Timer>, gone: nat, id: nat)
    ensures Occurrences(Removed(c, gone), id) == if id == gone then 0 else Occurrences(c, id)
    ensures forall t :: t in c && t.id != gone ==> t in Removed(c, gone)
  {
    if c != [] {
      RemovedOccurs(c[1..], gone, id);
      assert c == [c[0]] + c[1..];
    }
  }

  /** As meant, a restart leaves the timer there once, with its new deadline, and every other untouched. */
  lemma RestartOccurs(c: seq<Timer>, t: Timer, current: int, delay: int, id: nat)
    requires Sorted(c)
    ensures var c' := Insert(Removed(c, t.id), Renewed(t, current, delay));
            && Sorted(c')
            && Occurrences(c', id) == (if id == t.id then 1 else Occurrences(c, id))
            && (forall u :: u in c' <==> u == Renewed(t, current, delay) || (u in c && u.id != t.id))
  {
    RemovedSorted(c, t.id);
    RemovedOccurs(c, t.id, id);
    InsertKeeps(Removed(c, t.id), Renewed(t, current, delay));
    InsertOccurs(Removed(c, t.id), Renewed(t, current, delay), id);
    hide Sorted, Insert, Removed, Occurrences;
  }

  /** A timer that is there once is the only entry with its identity. */
  lemma {:induction false} SoleIs(c: seq<Timer>, t: Timer, u: Timer)
    requires Sole(c, t) && u in c && u.id == t.id
    ensures u == t
  {
    if c[0].id == t.id {
      if c[0] != u { OccursIn(c[1..], u); }
      if c[0] != t { OccursIn(c[1..], t); }
    } else {
      SoleIs(c[1..], t, u);
    }
  }

  /** No trace of an identity that was never used. */
  predicate Unknown(m: Manager, id: nat) {
    id !in m.known && id !in m.gone && Absent(m.c, id) && Times(m.log, id) == []
  }

  lemma UnknownStep(m: Manager, op: Op, id: nat)
    requires Sorted(m.c) && Unknown(m, id) && Legal(m, op) && (op.Add? ==> op.t.id != id)
    ensures Unknown(Apply(m, op), id)
  {
    match op
    case Add(t) => InsertOccurs(m.c, t, id);
    case CallDelete(t) => DeleteExactly(m.c, t);
    case Drop(id') =>
      RemovedOccurs(m.c, id', id);
      ContainsOccurs(m.c, id);
    case Restart(u, current, delay) =>
      OccursIn(m.c, u);
      RestartOccurs(m.c, u, current, delay, id);
    case PollAt(now) =>
      PollStep(m, now);
      PollAbsent(m.c, now, id);
      TimesFirings(m.log, Expire(m.c, now, false).fired, now, id);
  }

  lemma ContainsOccurs(c: seq<Timer>, id: nat)
    ensures Contains(c, id) <==> !Absent(c, id)
  {
    TouchedOccurs(c, Timer(id, 0, 0, 0, 0, false), id);
  }

  /* ---------- no repetitions ---------- */

  /** Every known timer is there at most once, and no other. */
  ghost predicate AtMostOnce(m: Manager) {
    forall id: nat :: Occurrences(m.c, id) <= if id in m.known then 1 else 0
  }

  lemma {:induction false} Find(c: seq<Timer>, id: nat) returns (t: Timer)
    requires Occurrences(c, id) > 0
    ensures t in c && t.id == id
  {
    if c[0].id == id {
      t := c[0];
    } else {
      t := Find(c[1..], id);
    }
  }

  lemma AtMostOnceStep(m: Manager, op: Op)
    requires Sorted(m.c) && AtMostOnce(m) && Legal(m, op)
    ensures AtMostOnce(Apply(m, op))
  {
    hide Sorted, Occurrences, Expire;
    forall id: nat ensures Occurrences(Apply(m, op).c, id) <= if id in Apply(m, op).known then 1 else 0 {
      match op
      case Add(t) => InsertOccurs(m.c, t, id);
      case CallDelete(t) => DeleteExactly(m.c, t);
      case Drop(id') => RemovedOccurs(m.c, id', id);
      case Restart(u, current, delay) =>
        OccursIn(m.c, u);
        RestartOccurs(m.c, u, current, delay, id);
      case PollAt(now) =>
        PollStep(m, now);
        if Absent(m.c, id) {
          PollAbsent(m.c, now, id);
        } else {
          var t := Find(m.c, id);
          PollSole(m.c, t, now);
          PolledOnce(Expire(m.c, now, false), t, now);
        }
    }
  }

  lemma PolledOnce(p: Poll, t: Timer, now: int)
    requires Sole(p.rest, t) || Sole(p.rest, Rearmed(t, now)) || Absent(p.rest, t.id)
    ensures Occurrences(p.rest, t.id) <= 1
  {
  }

  lemma UniqueIds(c: seq<Timer>)
    requires forall id: nat :: Occurrences(c, id) <= 1
    ensures Unique(c)
  {
    forall i, j | 0 <= i < j < |c| ensures c[i].id != c[j].id {
      OccursTwice(c, i, j);
    }
  }

  lemma OccursTwice(c: seq<Timer>, i: nat, j: nat)
    requires i < j < |c|
    ensures c[i].id == c[j].id ==> Occurrences(c, c[i].id) >= 2
  {
    if c[i].id == c[j].id {
      assert c == c[..j] + c[j..];
      OccursSplit(c[..j], c[j..], c[i].id);
      OccursIn(c[..j], c[i]);
      OccursIn(c[j..], c[j]);
    }
  }

  /** In these runs no timer is in the container twice, so a poll is `GetExpired`, see `SharedIsPlain`. */
  lemma {:induction false} AlwaysUnique(m: Manager, ops: seq<Op>)
    requires Sorted(m.c) && AtMostOnce(m) && LegalRun(m, ops)
    ensures Unique(Run(m, ops).c)
    decreases |ops|
  {
    hide Sorted, Apply, Unique, Occurrences;
    if ops == [] {
      UniqueIds(m.c);
    } else {
      SortedStep(m, ops[0]);
      AtMostOnceStep(m, ops[0]);
      AlwaysUnique(Apply(m, ops[0]), ops[1..]);
    }
  }

  /* ---------- one-shot timers ---------- */

  /** A one-shot timer is pending, or was taken out, or has fired once and not before its deadline. */
  predicate OnceOnly(m: Manager, t: Timer) {
    var times := Times(m.log, t.id);
    t.id in m.known &&
    ((Sole(m.c, t) && t.id !in m.gone && times == [])
     || (Absent(m.c, t.id) && t.id in m.gone && times == [])
     || (Absent(m.c, t.id) && t.id !in m.gone && |times| == 1 && t.start <= times[0]))
  }

  /** What a restart makes of the timer. */
  function Restarts(t: Timer, op: Op): Timer {
    if op.Restart? && op.t.id == t.id then Renewed(t, op.current, op.delay) else t
  }

  function Latest(t: Timer, ops: seq<Op>): Timer
    decreases |ops|
  {
    if ops == [] then t else Latest(Restarts(t, ops[0]), ops[1..])
  }

  lemma OnceOnlyStep(m: Manager, op: Op, t: Timer)
    requires Sorted(m.c) && OnceOnly(m, t) && !t.cyclic && Legal(m, op)
    ensures OnceOnly(Apply(m, op), Restarts(t, op))
  {
    match op
    case Add(u) =>
      InsertOccurs(m.c, u, t.id);
    case CallDelete(u) =>
      DeleteExactly(m.c, u);
    case Drop(id) =>
      RemovedOccurs(m.c, id, t.id);
      ContainsOccurs(m.c, t.id);
    case Restart(u, current, delay) =>
      OnceOnlyRestart(m, u, current, delay, t);
    case PollAt(now) =>
      PollStep(m, now);
      TimesFirings(m.log, Expire(m.c, now, false).fired, now, t.id);
      if Absent(m.c, t.id) {
        PollAbsent(m.c, now, t.id);
      } else {
        PollSole(m.c, t, now);
      }
  }

  lemma OnceOnlyRestart(m: Manager, u: Timer, current: int, delay: int, t: Timer)
    requires Sorted(m.c) && OnceOnly(m, t) && u in m.c
    ensures OnceOnly(Apply(m, Restart(u, current, delay)), Restarts(t, Restart(u, current, delay)))
  {
    OccursIn(m.c, u);
    RestartOccurs(m.c, u, current, delay, t.id);
    if u.id == t.id {
      SoleIs(m.c, t, u);
    }
    hide Sorted, Insert, Removed, Times, Occurrences;
  }

  lemma {:induction false} StaysOnceOnly(m: Manager, ops: seq<Op>, t: Timer)
    requires Sorted(m.c) && OnceOnly(m, t) && !t.cyclic && LegalRun(m, ops)
    ensures OnceOnly(Run(m, ops), Latest(t, ops))
    decreases |ops|
  {
    hide OnceOnly, Sorted, Apply, Legal;
    if ops != [] {
      SortedStep(m, ops[0]);
      OnceOnlyStep(m, ops[0], t);
      StaysOnceOnly(Apply(m, ops[0]), ops[1..], Restarts(t, ops[0]));
    }
  }

  /** Over every run, each one-shot timer added is pending, taken out, or fired exactly once and never
      before its deadline, which is that of its last restart; timers with equal deadlines included. */
  lemma {:induction false} OneShots(m: Manager, ops: seq<Op>, i: nat, t: Timer)
    requires Sorted(m.c) && Unknown(m, t.id) && LegalRun(m, ops)
    requires i < |ops| && ops[i] == Add(t) && !t.cyclic
    requires forall j :: 0 <= j < i && ops[j].Add? ==> ops[j].t.id != t.id
    ensures OnceOnly(Run(m, ops), Latest(t, ops[i + 1..]))
    decreases |ops|
  {
    hide OnceOnly, Sorted, Apply, Unknown;
    var m1 := Apply(m, ops[0]);
    SortedStep(m, ops[0]);
    if i == 0 {
      AddedPending(m, t);
      StaysOnceOnly(m1, ops[1..], t);
    } else {
      UnknownStep(m, ops[0], t.id);
      OneShots(m1, ops[1..], i - 1, t);
      assert ops[1..][i..] == ops[i + 1..];
    }
  }

  lemma AddedPending(m: Manager, t: Timer)
    requires Sorted(m.c) && Unknown(m, t.id)
    ensures Sole(Apply(m, Add(t)).c, t) && OnceOnly(Apply(m, Add(t)), t)
  {
    InsertOccurs(m.c, t, t.id);
  }

  /* ---------- cyclic timers: not too early ---------- */

  /** `n` steps of `d` after `t0`. */
  function After(t0: int, n: int, d: int): int {
    t0 + n * d
  }

  lemma Next(t0: int, n: int, d: int)
    ensures After(t0, n + 1, d) == After(t0, n, d) + d
  {
  }

  /** What the timer becomes in one step. */
  function Moved(t: Timer, op: Op): Timer {
    if op.PollAt? && t.start <= op.now then Rearmed(t, op.now) else t
  }

  /** The timer after a whole run. */
  function MovedOn(t: Timer, ops: seq<Op>): Timer
    decreases |ops|
  {
    if ops == [] then t else MovedOn(Moved(t, ops[0]), ops[1..])
  }

  /** Nobody takes the timer out or restarts it, and the deadline one delay after a poll does not wrap. */
  predicate Undisturbed(op: Op, d: int, id: nat) {
    && (op.PollAt? ==> 0 <= op.now + d < MODULUS)
    && (op.Drop? ==> op.id != id) && (op.Restart? ==> op.t.id != id)
  }

  /** After firing `n` times the timer waits for a deadline at least n + 1 delays after `t0`, and firing k
      came no earlier than k delays after `t0` and no later than `end`. */
  ghost predicate NotEarly(m: Manager, t: Timer, t0: int, end: int) {
    var times := Times(m.log, t.id);
    && t.id in m.known && t.cyclic && Sole(m.c, t) && After(t0, |times| + 1, t.delay) <= t.start
    && (forall k :: 0 <= k < |times| ==> After(t0, k + 1, t.delay) <= times[k] <= end)
  }

  /** What a step does to one cyclic timer. */
  lemma CyclicStep(m: Manager, op: Op, t: Timer)
    requires Sorted(m.c) && t.id in m.known && t.cyclic && Sole(m.c, t)
    requires Legal(m, op) && Undisturbed(op, t.delay, t.id)
    ensures t.id in Apply(m, op).known && Sole(Apply(m, op).c, Moved(t, op))
    ensures Times(Apply(m, op).log, t.id)
            == if op.PollAt? && t.start <= op.now then Times(m.log, t.id) + [op.now] else Times(m.log, t.id)
  {
    hide Times, Occurrences, Expire, Sorted;
    match op
    case Add(u) =>
      InsertOccurs(m.c, u, t.id);
    case CallDelete(u) =>
      DeleteExactly(m.c, u);
    case Drop(id) =>
      RemovedOccurs(m.c, id, t.id);
    case Restart(u, current, delay) =>
      RestartOccurs(m.c, u, current, delay, t.id);
    case PollAt(now) =>
      PollStep(m, now);
      PollSole(m.c, t, now);
      TimesFirings(m.log, Expire(m.c, now, false).fired, now, t.id);
      SoleCount(Expire(m.c, now, false).fired, t);
  }

  lemma NotEarlyStep(m: Manager, op: Op, t: Timer, t0: int, end: int)
    requires Sorted(m.c) && NotEarly(m, t, t0, end) && Legal(m, op) && Undisturbed(op, t.delay, t.id)
    requires op.PollAt? ==> op.now <= end
    ensures NotEarly(Apply(m, op), Moved(t, op), t0, end)
  {
    hide Times, Sole, Sorted, Apply, Legal;
    CyclicStep(m, op, t);
    Next(t0, |Times(m.log, t.id)| + 1, t.delay);
    hide After;
  }

  /** Whatever the times of the polls, clocks that go back included, a cyclic timer fires for the k-th
      time no earlier than k delays after it was added. */
  lemma {:induction false} NeverEarly(m: Manager, ops: seq<Op>, t: Timer, t0: int, end: int)
    requires Sorted(m.c) && NotEarly(m, t, t0, end) && LegalRun(m, ops)
    requires forall i :: 0 <= i < |ops| ==> Undisturbed(ops[i], t.delay, t.id) && (ops[i].PollAt? ==> ops[i].now <= end)
    ensures NotEarly(Run(m, ops), MovedOn(t, ops), t0, end)
    ensures MovedOn(t, ops).id == t.id && MovedOn(t, ops).delay == t.delay
    decreases |ops|
  {
    hide NotEarly, Sorted, Apply, Undisturbed;
    if ops != [] {
      SortedStep(m, ops[0]);
      NotEarlyStep(m, ops[0], t, t0, end);
      NeverEarly(Apply(m, ops[0]), ops[1..], Moved(t, ops[0]), t0, end);
    }
  }

  /** The timer was added at `t0` to a manager that did not know it. */
  predicate AddedAt(m: Manager, t: Timer, t0: int) {
    Sorted(m.c) && Unknown(m, t.id) && t.cyclic && 0 < t.delay && t.start == t0 + t.delay
  }

  /** The rate for any polls up to `end`: firing k comes at t0 + k * d or later, so there are at most
      (end - t0) / d firings, rounded down. */
  lemma RateAtMost(m: Manager, ops: seq<Op>, t: Timer, t0: int, end: int)
    requires AddedAt(m, t, t0) && LegalRun(Apply(m, Add(t)), ops) && t0 <= end
    requires forall i :: 0 <= i < |ops| ==> Undisturbed(ops[i], t.delay, t.id) && (ops[i].PollAt? ==> ops[i].now <= end)
    ensures var times := Times(Run(Apply(m, Add(t)), ops).log, t.id);
            && (forall k :: 0 <= k < |times| ==> t0 + (k + 1) * t.delay <= times[k])
            && |times| <= (end - t0) / t.delay
  {
    hide Unknown, LegalRun, Run, Apply, Times, Sole, Sorted, Undisturbed;
    StartsNotEarly(m, t, t0, end);
    SortedStep(m, Add(t));
    NeverEarly(Apply(m, Add(t)), ops, t, t0, end);
    var times := Times(Run(Apply(m, Add(t)), ops).log, t.id);
    assert forall k :: 0 <= k < |times| ==> After(t0, k + 1, t.delay) <= times[k];
    assert |times| > 0 ==> After(t0, |times|, t.delay) <= times[|times| - 1] <= end;
    AtLeast(end - t0, t.delay, |times|);
  }

  lemma StartsNotEarly(m: Manager, t: Timer, t0: int, end: int)
    requires AddedAt(m, t, t0)
    ensures NotEarly(Apply(m, Add(t)), t, t0, end)
  {
    AddedPending(m, t);
    Next(t0, 0, t.delay);
  }

  /* ---------- cyclic timers: not too late ---------- */

  /** Polls follow each other on a clock that does not go back, at most `g` apart. */
  predicate Steady(clock: int, ops: seq<Op>, g: int)
    decreases |ops|
  {
    ops == [] ||
    (if ops[0].PollAt? then clock <= ops[0].now <= clock + g && Steady(ops[0].now, ops[1..], g)
     else Steady(clock, ops[1..], g))
  }

  /** After firing `n` times the timer waits for a deadline that is not past and at most n + 1 delays and
      `n` gaps after `t0`; firing k came no later than k delays and gaps after `t0`. */
  ghost predicate NotLate(m: Manager, t: Timer, t0: int, g: int) {
    var times := Times(m.log, t.id);
    && t.id in m.known && t.cyclic && Sole(m.c, t) && m.clock < t.start <= After(t0, |times|, t.delay + g) + t.delay
    && (forall k :: 0 <= k < |times| ==> times[k] <= After(t0, k + 1, t.delay + g))
  }

  lemma ClockStep(m: Manager, op: Op)
    ensures Apply(m, op).clock == if op.PollAt? then op.now else m.clock
  {
  }

  lemma NotLateStep(m: Manager, op: Op, t: Timer, t0: int, g: int)
    requires Sorted(m.c) && NotLate(m, t, t0, g) && 0 < t.delay && Legal(m, op) && Undisturbed(op, t.delay, t.id)
    requires op.PollAt? ==> m.clock <= op.now <= m.clock + g
    ensures NotLate(Apply(m, op), Moved(t, op), t0, g)
  {
    hide Times, Sole, Sorted, Apply, Legal;
    CyclicStep(m, op, t);
    ClockStep(m, op);
    Next(t0, |Times(m.log, t.id)|, t.delay + g);
    hide After;
  }

  lemma {:induction false} NeverLate(m: Manager, ops: seq<Op>, t: Timer, t0: int, g: int)
    requires Sorted(m.c) && NotLate(m, t, t0, g) && 0 < t.delay && LegalRun(m, ops) && Steady(m.clock, ops, g)
    requires forall i :: 0 <= i < |ops| ==> Undisturbed(ops[i], t.delay, t.id)
    ensures NotLate(Run(m, ops), MovedOn(t, ops), t0, g)
    ensures MovedOn(t, ops).id == t.id && MovedOn(t, ops).delay == t.delay
    decreases |ops|
  {
    hide NotLate, Sorted, Apply, Undisturbed;
    if ops != [] {
      SortedStep(m, ops[0]);
      ClockStep(m, ops[0]);
      NotLateStep(m, ops[0], t, t0, g);
      NeverLate(Apply(m, ops[0]), ops[1..], Moved(t, ops[0]), t0, g);
    }
  }

  /** The rate for steady polls up to `end`: firing k comes at t0 + k * (d + g) or earlier, so there are at
      least (end - t0) / (d + g) firings, rounded down. */
  lemma RateAtLeast(m: Manager, ops: seq<Op>, t: Timer, t0: int, g: int, end: int)
    requires AddedAt(m, t, t0) && m.clock <= t0 <= end && 0 <= g
    requires LegalRun(Apply(m, Add(t)), ops) && Steady(m.clock, ops, g)
    requires forall i :: 0 <= i < |ops| ==> Undisturbed(ops[i], t.delay, t.id)
    requires end <= Run(Apply(m, Add(t)), ops).clock + g
    ensures var times := Times(Run(Apply(m, Add(t)), ops).log, t.id);
            && (forall k :: 0 <= k < |times| ==> times[k] <= t0 + (k + 1) * (t.delay + g))
            && (end - t0) / (t.delay + g) <= |times|
  {
    hide Unknown, LegalRun, Run, Apply, Times, Sole, Sorted, Undisturbed, Steady;
    StartsNotLate(m, t, t0, g);
    SortedStep(m, Add(t));
    ClockStep(m, Add(t));
    NeverLate(Apply(m, Add(t)), ops, t, t0, g);
    var times := Times(Run(Apply(m, Add(t)), ops).log, t.id);
    assert forall k :: 0 <= k < |times| ==> times[k] <= After(t0, k + 1, t.delay + g);
    Next(t0, |times|, t.delay + g);
    AtMost(end - t0, t.delay + g, |times|);
  }

  lemma StartsNotLate(m: Manager, t: Timer, t0: int, g: int)
    requires AddedAt(m, t, t0) && m.clock <= t0
    ensures NotLate(Apply(m, Add(t)), t, t0, g)
  {
    AddedPending(m, t);
  }

  /** Both bounds for a cyclic timer with delay d > 0 that is added at t0 and polled at most g apart, up to
      any time `end` that the polls reach, whatever happens to other timers. */
  lemma CyclicRate(m: Manager, ops: seq<Op>, t: Timer, t0: int, g: int, end: int)
    requires AddedAt(m, t, t0) && m.clock <= t0 <= end && 0 <= g
    requires LegalRun(Apply(m, Add(t)), ops) && Steady(m.clock, ops, g)
    requires forall i :: 0 <= i < |ops| ==> Undisturbed(ops[i], t.delay, t.id) && (ops[i].PollAt? ==> ops[i].now <= end)
    requires end <= Run(Apply(m, Add(t)), ops).clock + g
    ensures AtRate(Times(Run(Apply(m, Add(t)), ops).log, t.id), t0, t.delay, g, end)
  {
    hide Unknown, LegalRun, Run, Apply, Times, Sorted, Undisturbed, Steady;
    RateAtMost(m, ops, t, t0, end);
    RateAtLeast(m, ops, t, t0, g, end);
  }

  /** Firing k (counted from 1) comes between t0 + k * d and t0 + k * (d + g), and by time `end`
      there were between (end - t0) / (d + g) and (end - t0) / d firings, rounded down. */
  ghost predicate AtRate(times: seq<int>, t0: int, d: int, g: int, end: int)
    requires 0 < d && 0 <= g
  {
    && (forall k :: 0 <= k < |times| ==> t0 + (k + 1) * d <= times[k] <= t0 + (k + 1) * (d + g))
    && (end - t0) / (d + g) <= |times| <= (end - t0) / d
  }

  lemma SoleCount(c: seq<Timer>, t: Timer)
    ensures Sole(c, t) ==> Occurrences(c, t.id) == 1
  {
  }

  lemma AtLeast(x: int, d: int, n: int)
    requires 0 < d && n * d <= x
    ensures n <= x / d
  {
    var q := x / d;
    assert x < (q + 1) * d;
    assert n < q + 1 by {
      if n >= q + 1 {
        MulLe(d, q + 1, n);
      }
    }
  }

  lemma AtMost(x: int, d: int, n: int)
    requires 0 < d && x < (n + 1) * d
    ensures x / d <= n
  {
    var q := x / d;
    assert q * d <= x;
    assert q < n + 1 by {
      if q >= n + 1 {
        MulLe(d, n + 1, q);
      }
    }
  }

  lemma MulLe(d: int, a: int, b: int)
    requires 0 < d && a <= b
    ensures a * d <= b * d
  {
  }
}
