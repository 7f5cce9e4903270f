/** Timers in a container ordered by deadline, and what one poll of them does. Clock values and
    deadlines are unsigned 64-bit milliseconds. */
module Timer {
  const MODULUS: int := 0x1_0000_0000_0000_0000
  const NO_TIMER: int := MODULUS - 1
  const ONE_HOUR: int := 1000 * 60 * 60
  const NULL_FUNCTION: nat := 0

  function Plus(a: int, b: int): int {
    (a + b) % MODULUS
  }

  function Minus(a: int, b: int): int {
    (a - b) % MODULUS
  }

  datatype Timer = Timer(id: nat, func: nat, current: int, delay: int, start: int, cyclic: bool)

  /* ---------- the ordered container ---------- */

  /** The comparator of the container: the code's is `<=`; `strict` is the `<` a set expects. */
  predicate Before(strict: bool, a: int, b: int) {
    if strict then a < b else a <= b
  }

  predicate Sorted(c: seq<Timer>) {
    forall i, j :: 0 <= i < j < |c| ==> c[i].start <= c[j].start
  }

  /** `lower_bound`: the first timer that does not come before the key. */
  function LowerBound(strict: bool, c: seq<Timer>, key: int): (k: nat)
    ensures k <= |c| && (k < |c| ==> !Before(strict, c[k].start, key))
    ensures forall i :: 0 <= i < k ==> Before(strict, c[i].start, key)
  {
    if c == [] || !Before(strict, c[0].start, key) then 0
    else
      var k := LowerBound(strict, c[1..], key);
      assert forall i :: 1 <= i < k + 1 ==> c[i] == c[1..][i - 1];
      k + 1
  }

  /** `find`: the lower bound, unless the key comes before it. `|c|` is the end. */
  function Find(strict: bool, c: seq<Timer>, key: int): nat {
    var k := LowerBound(strict, c, key);
    if k == |c| || Before(strict, key, c[k].start) then |c| else k
  }

  /** The place for a new key: before the first timer it comes before. */
  function Place(strict: bool, c: seq<Timer>, key: int): (k: nat)
    ensures k <= |c| && (k < |c| ==> Before(strict, key, c[k].start))
    ensures forall i :: 0 <= i < k ==> !Before(strict, key, c[i].start)
  {
    if c == [] || Before(strict, key, c[0].start) then 0
    else
      var k := Place(strict, c[1..], key);
      assert forall i :: 1 <= i < k + 1 ==> c[i] == c[1..][i - 1];
      k + 1
  }

  function InsertAt(c: seq<Timer>, k: nat, t: Timer): seq<Timer>
    requires k <= |c|
  {
    c[..k] + [t] + c[k..]
  }

  /** `insert`: refused only when the timer in front of the place does not come before the new one. */
  function InsertWith(strict: bool, c: seq<Timer>, t: Timer): seq<Timer> {
    var k := Place(strict, c, t.start);
    if k == 0 || Before(strict, c[k - 1].start, t.start) then InsertAt(c, k, t) else c
  }

  function Insert(c: seq<Timer>, t: Timer): seq<Timer> {
    InsertWith(false, c, t)
  }

  lemma InsertAtSorted(c: seq<Timer>, k: nat, t: Timer)
    requires Sorted(c) && k <= |c|
    requires (k < |c| ==> t.start <= c[k].start) && forall i :: 0 <= i < k ==> c[i].start <= t.start
    ensures Sorted(InsertAt(c, k, t))
  {
  }

  lemma InsertAtAdds(c: seq<Timer>, k: nat, t: Timer)
    requires k <= |c|
    ensures multiset(InsertAt(c, k, t)) == multiset(c) + multiset{t}
  {
    assert c == c[..k] + c[k..];
  }

  /** With the code's `<=`, insert never refuses, whatever the order of the container. */
  lemma InsertAlways(c: seq<Timer>, t: Timer)
    ensures Insert(c, t) == InsertAt(c, Place(false, c, t.start), t)
  {
  }

  /** With the code's `<=`, insert keeps every timer, ties included, and the order. */
  lemma InsertKeeps(c: seq<Timer>, t: Timer)
    requires Sorted(c)
    ensures Insert(c, t) == InsertAt(c, Place(false, c, t.start), t)
    ensures Sorted(Insert(c, t))
    ensures multiset(Insert(c, t)) == multiset(c) + multiset{t}
  {
    InsertAtSorted(c, Place(false, c, t.start), t);
    InsertAtAdds(c, Place(false, c, t.start), t);
  }

  /** With `<` instead, a second timer with the same deadline would be lost. */
  lemma StrictInsertLosesTies(c: seq<Timer>, t: Timer, i: nat)
    requires Sorted(c) && i < |c| && c[i].start == t.start
    ensures InsertWith(true, c, t) == c
  {
  }

  /** With the code's `<=`, find never finds anything, so deleting a timer never deletes it. */
  lemma FindNever(c: seq<Timer>, key: int)
    ensures Find(false, c, key) == |c|
  {
  }

  /** With `<` it finds a timer with that deadline whenever there is one. */
  lemma StrictFinds(c: seq<Timer>, key: int)
    requires Sorted(c)
    ensures var k := Find(true, c, key);
            if k < |c| then c[k].start == key else forall i :: 0 <= i < |c| ==> c[i].start != key
  {
  }

  /* ---------- delete ---------- */

  /** `DeleteTimer`, as it is written. */
  function Delete(c: seq<Timer>, t: Timer): (seq<Timer>, bool) {
    var k := Find(false, c, t.start);
    if k == |c| then (c, false) else (c[..k] + c[k + 1..], true)
  }

  /** What the header says it does: the timer itself is taken out. */
  function Removed(c: seq<Timer>, id: nat): seq<Timer> {
    if c == [] then []
    else if c[0].id == id then Removed(c[1..], id)
    else [c[0]] + Removed(c[1..], id)
  }

  predicate Contains(c: seq<Timer>, id: nat) {
    exists i :: 0 <= i < |c| && c[i].id == id
  }

  /** The code's delete does what the header says exactly when there is nothing to delete. */
  lemma {:induction false} DeleteExactly(c: seq<Timer>, t: Timer)
    ensures Delete(c, t) == (c, false)
    ensures Removed(c, t.id) == c <==> !Contains(c, t.id)
  {
    FindNever(c, t.start);
    RemovedLength(c, t.id);
  }

  lemma {:induction false} RemovedLength(c: seq<Timer>, id: nat)
    ensures if Contains(c, id) then |Removed(c, id)| < |c| else Removed(c, id) == c
    ensures |Removed(c, id)| <= |c|
  {
    if c != [] {
      RemovedLength(c[1..], id);
      if Contains(c, id) && c[0].id != id {
        var i :| 0 <= i < |c| && c[i].id == id;
        assert c[1..][i - 1].id == id;
      }
      if Contains(c[1..], id) {
        var i :| 0 <= i < |c[1..]| && c[1..][i].id == id;
        assert c[i + 1].id == id;
      }
    }
  }

  /* ---------- one poll ---------- */

  /** `DetectClockAdjust`: the clock went back, and by more than an hour (the subtraction wraps). */
  predicate Adjusted(previous: int, time: int) {
    time < previous && time < Minus(previous, ONE_HOUR)
  }

  /** Between two readings of a 64-bit clock: it went back by more than an hour, or at all within the first
      hour, where the subtraction wraps. */
  lemma AdjustedExactly(previous: int, time: int)
    requires 0 <= previous < 0x1_0000_0000_0000_0000 && 0 <= time < 0x1_0000_0000_0000_0000
    ensures Adjusted(previous, time)
            <==> time < previous && (previous < 3600000 || time < previous - 3600000)
  {
  }

  function Skip(c: seq<Timer>, k: nat, now: int): nat
    requires k <= |c|
    decreases |c| - k
  {
    if k < |c| && c[k].start == now then Skip(c, k + 1, now) else k
  }

  /** How many timers a poll takes off the front; `adj` takes them all. */
  function Cut(strict: bool, c: seq<Timer>, now: int, adj: bool): nat {
    Skip(c, if adj then |c| else LowerBound(strict, c, now), now)
  }

  function Rearmed(t: Timer, now: int): Timer {
    t.(current := now, start := Plus(now, t.delay))
  }

  /** Puts the cyclic ones of the expired timers back, in order. */
  function Rearm(c: seq<Timer>, expired: seq<Timer>, now: int): seq<Timer>
    decreases |expired|
  {
    if expired == [] then c
    else Rearm(if expired[0].cyclic then Insert(c, Rearmed(expired[0], now)) else c, expired[1..], now)
  }

  datatype Poll = Poll(fired: seq<Timer>, rest: seq<Timer>)

  /** The poll, given the verdict of the clock check at the cut. */
  function Expire(c: seq<Timer>, now: int, adj: bool): Poll
    requires Cut(false, c, now, adj) <= |c|
  {
    var k := Cut(false, c, now, adj);
    Poll(c[..k], Rearm(c[k..], c[..k], now))
  }

  lemma SkipBounds(c: seq<Timer>, k: nat, now: int)
    requires k <= |c|
    ensures k <= Skip(c, k, now) <= |c|
    ensures forall i :: k <= i < Skip(c, k, now) ==> c[i].start == now
    ensures Skip(c, k, now) < |c| ==> c[Skip(c, k, now)].start != now
    decreases |c| - k
  {
    if k < |c| && c[k].start == now {
      SkipBounds(c, k + 1, now);
    }
  }

  /** The cut takes exactly the timers that are due, with either order of the container. */
  lemma CutIsDue(strict: bool, c: seq<Timer>, now: int)
    requires Sorted(c)
    ensures var k := Cut(strict, c, now, false);
            && k <= |c|
            && (forall i :: 0 <= i < k ==> c[i].start <= now)
            && (forall i :: k <= i < |c| ==> now < c[i].start)
            && k == Cut(!strict, c, now, false)
  {
    SkipBounds(c, LowerBound(true, c, now), now);
    SkipBounds(c, LowerBound(false, c, now), now);
    var k, m := Cut(true, c, now, false), Cut(false, c, now, false);
    assert k < |c| ==> now < c[k].start;
    assert m < |c| ==> now < c[m].start;
  }

  /** `GetExpiredList`: `previous` is the clock of the poll before; the result also says what becomes of it. */
  function GetExpired(previous: int, c: seq<Timer>, now: int): (Poll, int) {
    if c == [] then (Poll([], c), previous)
    else if !Adjusted(previous, now) && now < c[0].start then (Poll([], c), now)
    else
      SkipBounds(c, if Adjusted(now, now) then |c| else LowerBound(false, c, now), now);
      (Expire(c, now, Adjusted(now, now)), now)
  }

  /** The clock check never changes what a poll does: its second call compares the clock with itself. */
  lemma VerdictNeverMatters(previous: int, c: seq<Timer>, now: int)
    requires Sorted(c)
    ensures Cut(false, c, now, false) <= |c|
    ensures GetExpired(previous, c, now).0 == Expire(c, now, false)
  {
  }

  /** A poll does what its clock check is for, taking off every timer when the clock was set back, if and
      only if it was not set back or every timer is due anyway. */
  lemma VerdictExactly(previous: int, c: seq<Timer>, now: int)
    requires Sorted(c)
    ensures Cut(false, c, now, Adjusted(previous, now)) <= |c|
    ensures GetExpired(previous, c, now).0 == Expire(c, now, Adjusted(previous, now))
            <==> (Adjusted(previous, now) && c != [] ==> c[|c| - 1].start <= now)
  {
    VerdictNeverMatters(previous, c, now);
    CutIsDue(false, c, now);
    var k := Cut(false, c, now, false);
    assert Expire(c, now, false).fired == c[..k];
    if Adjusted(previous, now) {
      assert Expire(c, now, true).fired == c[..|c|];
    }
  }

  /* ---------- the poll against a plain specification ---------- */

  function Due(c: seq<Timer>, now: int): seq<Timer> {
    if c == [] then [] else (if c[0].start <= now then [c[0]] else []) + Due(c[1..], now)
  }

  function NotDue(c: seq<Timer>, now: int): seq<Timer> {
    if c == [] then [] else (if c[0].start <= now then [] else [c[0]]) + NotDue(c[1..], now)
  }

  function Again(fired: seq<Timer>, now: int): seq<Timer> {
    if fired == [] then []
    else (if fired[0].cyclic then [Rearmed(fired[0], now)] else []) + Again(fired[1..], now)
  }

  lemma {:induction false} SplitDue(c: seq<Timer>, k: nat, now: int)
    requires k <= |c| && (forall i :: 0 <= i < k ==> c[i].start <= now) && forall i :: k <= i < |c| ==> now < c[i].start
    ensures Due(c, now) == c[..k] && NotDue(c, now) == c[k..]
  {
    if c != [] {
      if k == 0 {
        SplitDue(c[1..], 0, now);
        assert c == [c[0]] + c[1..];
      } else {
        SplitDue(c[1..], k - 1, now);
        assert c[..k] == [c[0]] + c[1..][..k - 1] && c[k..] == c[1..][k - 1..];
      }
    }
  }

  lemma {:induction false} RearmKeeps(c: seq<Timer>, expired: seq<Timer>, now: int)
    requires Sorted(c)
    ensures Sorted(Rearm(c, expired, now))
    ensures multiset(Rearm(c, expired, now)) == multiset(c) + multiset(Again(expired, now))
    decreases |expired|
  {
    if expired != [] {
      var c1 := if expired[0].cyclic then Insert(c, Rearmed(expired[0], now)) else c;
      if expired[0].cyclic {
        InsertKeeps(c, Rearmed(expired[0], now));
      }
      RearmKeeps(c1, expired[1..], now);
    }
  }

  /** A poll of a sorted container fires exactly the timers that are due (all of them when the clock was
      found to be set back), in deadline order; what is left is exactly the timers that are not due and
      the cyclic ones that fired, one delay from now, in deadline order. */
  lemma ExpireExactly(c: seq<Timer>, now: int, adj: bool)
    requires Sorted(c)
    ensures Cut(false, c, now, adj) <= |c|
    ensures var p := Expire(c, now, adj);
            && p.fired == (if adj then c else Due(c, now))
            && Sorted(p.fired) && Sorted(p.rest)
            && multiset(p.rest) == multiset(if adj then [] else NotDue(c, now)) + multiset(Again(p.fired, now))
  {
    var k := Cut(false, c, now, adj);
    if adj {
      assert c[..|c|] == c;
    } else {
      CutIsDue(false, c, now);
      SplitDue(c, k, now);
    }
    RearmKeeps(c[k..], c[..k], now);
  }

  lemma {:induction false} DueMembers(c: seq<Timer>, now: int, t: Timer)
    ensures t in Due(c, now) <==> t in c && t.start <= now
    ensures t in NotDue(c, now) <==> t in c && now < t.start
  {
    if c != [] {
      DueMembers(c[1..], now, t);
      assert c == [c[0]] + c[1..];
    }
  }

  lemma {:induction false} AgainMembers(fired: seq<Timer>, now: int, u: Timer)
    ensures u in Again(fired, now) <==> exists t :: t in fired && Follows(t, now, u)
  {
    if fired != [] {
      AgainMembers(fired[1..], now, u);
      assert forall t :: t in fired <==> t == fired[0] || t in fired[1..];
      assert u in Again(fired, now) <==> Follows(fired[0], now, u) || u in Again(fired[1..], now);
    }
  }

  /** `u` is the cyclic timer `t` with its next deadline, which counts from the poll and not from the deadline
      that was due. */
  predicate Follows(t: Timer, now: int, u: Timer) {
    t.cyclic && u == Timer(t.id, t.func, now, t.delay, (now + t.delay) % 0x1_0000_0000_0000_0000, true)
  }

  /** Which timers a poll fires, which it leaves, and when the cyclic ones are due again. */
  lemma PollExactly(previous: int, c: seq<Timer>, now: int, u: Timer)
    requires Sorted(c)
    ensures var p := GetExpired(previous, c, now).0;
            && (u in p.fired <==> u in c && u.start <= now)
            && (u in p.rest <==> (u in c && now < u.start)
                                 || exists t :: t in c && t.start <= now && Follows(t, now, u))
  {
    VerdictNeverMatters(previous, c, now);
    hide GetExpired, Expire, Follows, Due, NotDue, Again, Sorted, Cut;
    ExpireExactly(c, now, false);
    var p := Expire(c, now, false);
    DueMembers(c, now, u);
    AgainMembers(p.fired, now, u);
    InBoth(p.rest, NotDue(c, now), Again(p.fired, now), u);
    forall t ensures t in p.fired <==> t in c && t.start <= now {
      DueMembers(c, now, t);
    }
  }

  lemma InBoth(c: seq<Timer>, a: seq<Timer>, b: seq<Timer>, u: Timer)
    requires multiset(c) == multiset(a) + multiset(b)
    ensures u in c <==> u in a || u in b
  {
    assert u in c <==> u in multiset(c);
  }

  /* ---------- the next deadline ---------- */

  /** `GetNextTime`: all ones when there is no timer. */
  function NextTime(c: seq<Timer>, now: int): int {
    if c == [] then NO_TIMER
    else if now > c[0].start then 0
    else c[0].start - now
  }

  function Remaining(t: Timer, now: int): int {
    if now > t.start then 0 else t.start - now
  }

  /** It is the least remaining delay, and all ones only without a timer as long as no deadline is the
      whole clock range away. */
  lemma NextTimeIsLeast(c: seq<Timer>, now: int)
    requires Sorted(c) && forall i :: 0 <= i < |c| ==> c[i].start - now < NO_TIMER
    ensures NextTime(c, now) == 0xFFFF_FFFF_FFFF_FFFF <==> c == []
    ensures forall i :: 0 <= i < |c| ==> NextTime(c, now) <= Remaining(c[i], now)
    ensures c != [] ==> exists i :: 0 <= i < |c| && NextTime(c, now) == Remaining(c[i], now)
  {
  }

  /* ---------- refresh and reset ---------- */

  function Occurrences(c: seq<Timer>, id: nat): nat {
    if c == [] then 0 else (if c[0].id == id then 1 else 0) + Occurrences(c[1..], id)
  }

  /** A timer is one object: changing its deadline changes it wherever the container holds it. */
  function Touched(c: seq<Timer>, t: Timer): seq<Timer> {
    seq(|c|, i requires 0 <= i < |c| => if c[i].id == t.id then t else c[i])
  }

  /** `refresh`, and `reset` with another delay: delete, then new deadline, then insert. Where insert
      lands in a container that is out of order depends on the shape of the tree; `k` is that place. */
  function Restarted(c: seq<Timer>, t: Timer, current: int, delay: int, k: nat): seq<Timer>
    requires k <= |c|
  {
    var t' := Renewed(t, current, delay);
    InsertAt(Touched(Delete(c, t).0, t'), k, t')
  }

  lemma {:induction false} OccursOnce(c: seq<Timer>, k: nat, t: Timer)
    requires k <= |c|
    ensures Occurrences(InsertAt(c, k, t), t.id) == Occurrences(c, t.id) + 1
    ensures forall id :: id != t.id ==> Occurrences(InsertAt(c, k, t), id) == Occurrences(c, id)
  {
    if k == 0 {
      assert InsertAt(c, 0, t) == [t] + c;
    } else {
      assert InsertAt(c, k, t) == [c[0]] + InsertAt(c[1..], k - 1, t);
      OccursOnce(c[1..], k - 1, t);
    }
  }

  lemma {:induction false} TouchedOccurs(c: seq<Timer>, t: Timer, id: nat)
    ensures Occurrences(Touched(c, t), id) == Occurrences(c, id)
    ensures Occurrences(c, id) == 0 <==> !Contains(c, id)
  {
    if c != [] {
      TouchedOccurs(c[1..], t, id);
      assert Touched(c, t) == [if c[0].id == t.id then t else c[0]] + Touched(c[1..], t);
      if Contains(c, id) && c[0].id != id {
        var i :| 0 <= i < |c| && c[i].id == id;
        assert c[1..][i - 1].id == id;
      }
      if Contains(c[1..], id) {
        var i :| 0 <= i < |c[1..]| && c[1..][i].id == id;
        assert c[i + 1].id == id;
      }
    }
  }

  /** After refresh or reset the timer is in the container once more than before, because the delete in
      front deletes nothing; it is there exactly once if and only if it was not there. */
  lemma RestartedExactly(c: seq<Timer>, t: Timer, current: int, delay: int, k: nat)
    requires k <= |c|
    ensures Occurrences(Restarted(c, t, current, delay, k), t.id) == Occurrences(c, t.id) + 1
    ensures Occurrences(Restarted(c, t, current, delay, k), t.id) == 1 <==> !Contains(c, t.id)
  {
    var t' := Renewed(t, current, delay);
    DeleteExactly(c, t);
    TouchedOccurs(c, t', t.id);
    OccursOnce(Touched(c, t'), k, t');
  }

  /** Each entry of the restarted timer has its deadline one delay after `current`; no other timer changes. */
  lemma RestartedDeadlines(c: seq<Timer>, t: Timer, current: int, delay: int, k: nat, u: Timer)
    requires k <= |c|
    ensures u in Restarted(c, t, current, delay, k)
            <==> if u.id != t.id then u in c
                 else u == Timer(t.id, t.func, current, delay, (current + delay) % 0x1_0000_0000_0000_0000, t.cyclic)
  {
    var t' := Renewed(t, current, delay);
    DeleteExactly(c, t);
    TouchedMembers(c, t', u);
    InsertMembers(Touched(c, t'), k, t');
    hide Touched, InsertAt;
  }

  predicate FitsBetween(c: seq<Timer>, i: nat, start: int)
    requires i < |c|
  {
    (i > 0 ==> c[i - 1].start <= start) && (i + 1 < |c| ==> start <= c[i + 1].start)
  }

  /** The container of a restarted timer stays in order exactly when the new deadline still lies between
      the deadlines of the timers next to it: otherwise no place for the second entry puts it in order. */
  lemma RestartedSorted(c: seq<Timer>, t: Timer, current: int, delay: int, i: nat, k: nat)
    requires Sorted(c) && i < |c| && k <= |c|
    requires forall j :: 0 <= j < |c| ==> (c[j].id == t.id <==> j == i)
    ensures var t' := Renewed(t, current, delay);
            && (!FitsBetween(c, i, t'.start) ==> !Sorted(Restarted(c, t, current, delay, k)))
            && (FitsBetween(c, i, t'.start) && k == Place(false, Touched(c, t'), t'.start)
                ==> Sorted(Restarted(c, t, current, delay, k)))
  {
    var t' := Renewed(t, current, delay);
    DeleteExactly(c, t);
    var touched := Touched(c, t');
    assert touched == c[i := t'];
    if Sorted(InsertAt(touched, k, t')) {
      WithoutInserted(touched, k, t');
      SortedAt(touched, i);
    }
    if FitsBetween(c, i, t'.start) {
      SortedUpdate(c, i, t');
      InsertKeeps(touched, t');
    }
  }

  lemma SortedAt(c: seq<Timer>, i: nat)
    requires Sorted(c) && i < |c|
    ensures FitsBetween(c, i, c[i].start)
  {
  }

  lemma WithoutInserted(c: seq<Timer>, k: nat, t: Timer)
    requires k <= |c| && Sorted(InsertAt(c, k, t))
    ensures Sorted(c)
  {
    var d := InsertAt(c, k, t);
    forall i, j | 0 <= i < j < |c| ensures c[i].start <= c[j].start {
      assert d[if i < k then i else i + 1] == c[i] && d[if j < k then j else j + 1] == c[j];
    }
  }

  lemma SortedUpdate(c: seq<Timer>, i: nat, t: Timer)
    requires Sorted(c) && i < |c| && FitsBetween(c, i, t.start)
    ensures Sorted(c[i := t])
  {
  }

  /* ---------- a poll of a container that holds a timer more than once ---------- */

  /** Entries with the same identity are the same object. */
  predicate SameObjects(c: seq<Timer>) {
    forall i, j :: 0 <= i < |c| && 0 <= j < |c| && c[i].id == c[j].id ==> c[i] == c[j]
  }

  /** What one turn of the loop over the expired timers makes of a timer. */
  function Spent(t: Timer, now: int): Timer {
    if t.cyclic then Rearmed(t, now) else t.(func := NULL_FUNCTION)
  }

  datatype Shared = Shared(tasks: seq<nat>, rest: seq<Timer>)

  /** The loop, when the same timer may come again among the expired ones and those left. */
  function Requeue(c: seq<Timer>, expired: seq<Timer>, now: int): Shared
    decreases |expired|
  {
    if expired == [] then Shared([], c)
    else
      var t, t' := expired[0], Spent(expired[0], now);
      var c' := Touched(c, t');
      var r := Requeue(if t.cyclic then Insert(c', t') else c', Touched(expired[1..], t'), now);
      Shared([t.func] + r.tasks, r.rest)
  }

  /** `GetExpiredList`, whatever the container holds. */
  function GetExpiredShared(previous: int, c: seq<Timer>, now: int): (Shared, int) {
    if c == [] then (Shared([], c), previous)
    else if !Adjusted(previous, now) && now < c[0].start then (Shared([], c), now)
    else
      var k := Cut(false, c, now, Adjusted(now, now));
      SkipBounds(c, if Adjusted(now, now) then |c| else LowerBound(false, c, now), now);
      (Requeue(c[k..], c[..k], now), now)
  }

  predicate Unique(c: seq<Timer>) {
    forall i, j :: 0 <= i < j < |c| ==> c[i].id != c[j].id
  }

  function Functions(fired: seq<Timer>): seq<nat> {
    seq(|fired|, i requires 0 <= i < |fired| => fired[i].func)
  }

  lemma UntouchedWithout(c: seq<Timer>, t: Timer)
    requires forall i :: 0 <= i < |c| ==> c[i].id != t.id
    ensures Touched(c, t) == c
  {
  }

  lemma InsertIds(c: seq<Timer>, t: Timer)
    ensures forall u :: u in Insert(c, t) <==> u == t || u in c
  {
  }

  /** No identity is on both sides. */
  predicate NoneShared(c: seq<Timer>, d: seq<Timer>) {
    forall t, u :: t in c && u in d ==> t.id != u.id
  }

  lemma {:induction false} RequeueUnique(c: seq<Timer>, expired: seq<Timer>, now: int)
    requires Unique(expired) && NoneShared(c, expired)
    ensures Requeue(c, expired, now) == Shared(Functions(expired), Rearm(c, expired, now))
    decreases |expired|
  {
    if expired != [] {
      var t, t', rest := expired[0], Spent(expired[0], now), expired[1..];
      assert t in expired;
      UntouchedWithout(c, t');
      UntouchedWithout(rest, t');
      var c1 := if t.cyclic then Insert(c, t') else c;
      if t.cyclic { InsertIds(c, t'); }
      assert NoneShared(c1, rest) by { ForTheRest(c, c1, expired, t'); }
      RequeueUnique(c1, rest, now);
      assert Functions(expired) == [t.func] + Functions(rest);
    }
  }

  lemma ForTheRest(c: seq<Timer>, c1: seq<Timer>, expired: seq<Timer>, t': Timer)
    requires expired != [] && Unique(expired) && NoneShared(c, expired) && t'.id == expired[0].id
    requires forall u :: u in c1 ==> u == t' || u in c
    ensures NoneShared(c1, expired[1..])
  {
  }

  /** For a container without repetitions this is the poll of the sections above. */
  lemma SharedIsPlain(previous: int, c: seq<Timer>, now: int)
    requires Unique(c)
    ensures var (p, previous') := GetExpired(previous, c, now);
            GetExpiredShared(previous, c, now) == (Shared(Functions(p.fired), p.rest), previous')
  {
    if c != [] {
      var k := Cut(false, c, now, Adjusted(now, now));
      SkipBounds(c, if Adjusted(now, now) then |c| else LowerBound(false, c, now), now);
      SplitUnique(c, k);
      RequeueUnique(c[k..], c[..k], now);
    }
    assert Functions([]) == [];
  }

  lemma SplitUnique(c: seq<Timer>, k: nat)
    requires Unique(c) && k <= |c|
    ensures Unique(c[..k]) && NoneShared(c[k..], c[..k])
  {
  }

  predicate Absent(c: seq<Timer>, id: nat) {
    Occurrences(c, id) == 0
  }

  /** The expired entries that go back. */
  function Cyclic(c: seq<Timer>): seq<Timer> {
    if c == [] then [] else (if c[0].cyclic then [c[0]] else []) + Cyclic(c[1..])
  }

  predicate First(c: seq<Timer>, i: nat)
    requires i < |c|
  {
    forall j :: 0 <= j < i ==> c[j].id != c[i].id
  }

  lemma TouchedSame(c: seq<Timer>, t: Timer)
    requires SameObjects(c)
    ensures SameObjects(Touched(c, t))
  {
  }

  /** The function that expired entry `i` returns: its own, or a null for every further entry of a one-shot
      timer. */
  function TaskAt(expired: seq<Timer>, i: nat): nat
    requires i < |expired|
  {
    if expired[i].cyclic || First(expired, i) then expired[i].func else NULL_FUNCTION
  }

  /** The functions a poll returns. */
  lemma {:induction false} RequeueTasks(c: seq<Timer>, expired: seq<Timer>, now: int)
    requires SameObjects(expired)
    ensures |Requeue(c, expired, now).tasks| == |expired|
    ensures forall i :: 0 <= i < |expired| ==> Requeue(c, expired, now).tasks[i] == TaskAt(expired, i)
    decreases |expired|
  {
    if expired != [] {
      var t, t' := expired[0], Spent(expired[0], now);
      var rest := Touched(expired[1..], t');
      TouchedSame(expired[1..], t');
      assert TaskAt(expired, 0) == t.func && t'.id == t.id && t'.cyclic == t.cyclic;
      hide TaskAt, Insert, First;
      var c1 := if t.cyclic then Insert(Touched(c, t'), t') else Touched(c, t');
      RequeueTasks(c1, rest, now);
      forall i | 1 <= i < |expired| ensures TaskAt(expired, i) == TaskAt(rest, i - 1) {
        RestTask(expired, t', i);
      }
      hide Touched;
      assert Requeue(c, expired, now).tasks == [t.func] + Requeue(c1, rest, now).tasks;
    }
  }

  lemma RestTask(expired: seq<Timer>, t': Timer, i: nat)
    requires SameObjects(expired) && 1 <= i < |expired|
    requires t'.id == expired[0].id && t'.cyclic == expired[0].cyclic
    requires t'.func == if t'.cyclic then expired[0].func else NULL_FUNCTION
    ensures TaskAt(Touched(expired[1..], t'), i - 1) == TaskAt(expired, i)
  {
    var rest := Touched(expired[1..], t');
    assert forall j :: 0 <= j < |rest| ==> rest[j].id == expired[j + 1].id;
    assert rest[i - 1].id == expired[i].id;
    if expired[i].id == expired[0].id {
      assert expired[i] == expired[0] && !First(expired, i);
    } else {
      FirstTail(expired, rest, i);
    }
  }

  lemma FirstTail(c: seq<Timer>, rest: seq<Timer>, i: nat)
    requires 1 <= i < |c| && |rest| == |c| - 1 && forall j :: 0 <= j < |rest| ==> rest[j].id == c[j + 1].id
    requires c[i].id != c[0].id
    ensures First(rest, i - 1) == First(c, i)
  {
    assert rest[i - 1].id == c[i].id;
    if First(rest, i - 1) {
      forall j | 0 <= j < i ensures c[j].id != c[i].id {
        if j > 0 { assert rest[j - 1].id != rest[i - 1].id; }
      }
    }
  }

  lemma {:induction false} CyclicTouched(c: seq<Timer>, t: Timer, id: nat)
    requires forall i :: 0 <= i < |c| && c[i].id == t.id ==> c[i].cyclic == t.cyclic
    ensures Occurrences(Cyclic(Touched(c, t)), id) == Occurrences(Cyclic(c), id)
  {
    if c != [] {
      CyclicTouched(c[1..], t, id);
      assert Touched(c, t)[1..] == Touched(c[1..], t);
      assert Touched(c, t)[0] == if c[0].id == t.id then t else c[0];
      CyclicHead(c, id);
      CyclicHead(Touched(c, t), id);
    }
  }

  lemma CyclicHead(c: seq<Timer>, id: nat)
    requires c != []
    ensures Occurrences(Cyclic(c), id)
            == (if c[0].cyclic && c[0].id == id then 1 else 0) + Occurrences(Cyclic(c[1..]), id)
  {
    if c[0].cyclic {
      assert ([c[0]] + Cyclic(c[1..]))[1..] == Cyclic(c[1..]);
    } else {
      assert [] + Cyclic(c[1..]) == Cyclic(c[1..]);
    }
  }

  /** What a poll puts back: a timer is there afterwards as often as among the entries left and the cyclic
      ones that expired. */
  lemma {:induction false} RequeueRest(c: seq<Timer>, expired: seq<Timer>, now: int, id: nat)
    requires SameObjects(expired)
    ensures Occurrences(Requeue(c, expired, now).rest, id) == Occurrences(c, id) + Occurrences(Cyclic(expired), id)
    decreases |expired|
  {
    if expired != [] {
      var t, t' := expired[0], Spent(expired[0], now);
      var c' := Touched(c, t');
      TouchedOccurs(c, t', id);
      InsertAlways(c', t');
      OccursOnce(c', Place(false, c', t'.start), t');
      TouchedSame(expired[1..], t');
      CyclicTouched(expired[1..], t', id);
      CyclicHead(expired, id);
      RequeueRest(if t.cyclic then Insert(c', t') else c', Touched(expired[1..], t'), now, id);
      hide Occurrences, Insert, Touched, Cyclic, Place;
    }
  }

  lemma {:induction false} TouchedMembers(c: seq<Timer>, t: Timer, u: Timer)
    ensures u.id == t.id && u in Touched(c, t) ==> u == t
    ensures u.id != t.id ==> (u in Touched(c, t) <==> u in c)
  {
    if u.id != t.id && u in c {
      var i :| 0 <= i < |c| && c[i] == u;
      assert Touched(c, t)[i] == u;
    }
  }

  /** Every entry of the timer is `x`. */
  predicate Only(c: seq<Timer>, x: Timer) {
    forall u :: u in c && u.id == x.id ==> u == x
  }

  /** One turn of the loop touches the entries of one timer and no others. */
  lemma TurnMembers(c: seq<Timer>, t': Timer, again: bool, u: Timer)
    ensures var c1 := if again then Insert(Touched(c, t'), t') else Touched(c, t');
            && (u.id == t'.id && u in c1 ==> u == t')
            && (u.id != t'.id ==> (u in c1 <==> u in c))
  {
    TouchedMembers(c, t', u);
    InsertIds(Touched(c, t'), t');
  }

  /** Further entries of a timer that was dealt with change it no more. */
  lemma {:induction false} OnceSpent(c: seq<Timer>, expired: seq<Timer>, now: int, x: Timer)
    requires Spent(x, now) == x && Only(c, x) && Only(expired, x)
    ensures Only(Requeue(c, expired, now).rest, x)
    decreases |expired|
  {
    if expired != [] {
      var t, t' := expired[0], Spent(expired[0], now);
      assert t in expired && (t.id == x.id ==> t' == x);
      var c1 := if t.cyclic then Insert(Touched(c, t'), t') else Touched(c, t');
      var rest := Touched(expired[1..], t');
      forall u ensures u in c1 && u.id == x.id ==> u == x { TurnMembers(c, t', t.cyclic, u); }
      forall u ensures u in rest && u.id == x.id ==> u == x { TouchedMembers(expired[1..], t', u); }
      hide Insert, Touched, Spent;
      OnceSpent(c1, rest, now, x);
    }
  }

  /** What a poll makes of an expired timer wherever the container still holds it: the next deadline of a
      cyclic one counts from the poll, and a one-shot one has lost its function. */
  lemma {:induction false} RequeueDeadlines(c: seq<Timer>, expired: seq<Timer>, now: int, t: Timer, u: Timer)
    requires SameObjects(expired) && t in expired
    requires u in Requeue(c, expired, now).rest && u.id == t.id
    ensures u == if t.cyclic then Timer(t.id, t.func, now, t.delay, (now + t.delay) % 0x1_0000_0000_0000_0000, true)
                 else Timer(t.id, 0, t.current, t.delay, t.start, false)
    decreases |expired|
  {
    var h, h' := expired[0], Spent(expired[0], now);
    assert h in expired && (h.id == t.id ==> h == t);
    var c1 := if h.cyclic then Insert(Touched(c, h'), h') else Touched(c, h');
    var rest := Touched(expired[1..], h');
    TouchedSame(expired[1..], h');
    if h == t {
      forall v ensures v in c1 && v.id == h'.id ==> v == h' { TurnMembers(c, h', h.cyclic, v); }
      forall v ensures v in rest && v.id == h'.id ==> v == h' { TouchedMembers(expired[1..], h', v); }
      OnceSpent(c1, rest, now, h');
    } else {
      assert t in expired[1..];
      TouchedMembers(expired[1..], h', t);
      hide Insert, Touched, Spent;
      RequeueDeadlines(c1, rest, now, t, u);
    }
  }

  /** A poll leaves every timer that is not due as it is. */
  lemma {:induction false} RequeueOthers(c: seq<Timer>, expired: seq<Timer>, now: int, u: Timer)
    requires forall t :: t in expired ==> t.id != u.id
    ensures u in Requeue(c, expired, now).rest <==> u in c
    decreases |expired|
  {
    if expired != [] {
      var t, t' := expired[0], Spent(expired[0], now);
      assert t in expired;
      TurnMembers(c, t', t.cyclic, u);
      var rest := Touched(expired[1..], t');
      forall v | v in rest ensures v.id != u.id {
        TouchedMembers(expired[1..], t', v);
      }
      hide Insert, Touched, Spent;
      RequeueOthers(if t.cyclic then Insert(Touched(c, t'), t') else Touched(c, t'), rest, now, u);
    }
  }

  lemma {:induction false} RemovedMembers(c: seq<Timer>, id: nat)
    ensures forall t :: t in Removed(c, id) <==> t in c && t.id != id
  {
    if c != [] {
      RemovedMembers(c[1..], id);
      assert c == [c[0]] + c[1..];
    }
  }

  lemma Prepended(t: Timer, c: seq<Timer>)
    requires Sorted(c) && forall u :: u in c ==> t.start <= u.start
    ensures Sorted([t] + c)
  {
  }

  lemma {:induction false} RemovedSorted(c: seq<Timer>, id: nat)
    requires Sorted(c)
    ensures Sorted(Removed(c, id)) && !Contains(Removed(c, id), id)
    ensures forall t :: t in Removed(c, id) <==> t in c && t.id != id
  {
    RemovedMembers(c, id);
    if c != [] {
      RemovedSorted(c[1..], id);
      forall u | u in Removed(c[1..], id) ensures c[0].start <= u.start {
        var i :| 0 <= i < |c| - 1 && c[1..][i] == u;
        assert c[i + 1] == u;
      }
      hide Contains, Sorted;
      assert Sorted(c[1..]) ==> Sorted(Removed(c[1..], id));
      Prepended(c[0], Removed(c[1..], id));
    }
  }

  /** The timer with its new deadline. */
  function Renewed(t: Timer, current: int, delay: int): Timer {
    t.(current := current, delay := delay, start := Plus(current, delay))
  }

  /** With a delete that does what the header says, refresh and reset keep the container sorted with the
      timer in it exactly once and every other timer untouched. */
  lemma RestartedAsMeant(c: seq<Timer>, t: Timer, current: int, delay: int)
    requires Sorted(c)
    ensures var t' := Renewed(t, current, delay);
            var c' := Insert(Removed(c, t.id), t');
            && Sorted(c') && Occurrences(c', t.id) == 1 && t' in c'
            && (forall u: Timer :: u.id != t.id ==> (u in c' <==> u in c))
  {
    var t' := Renewed(t, current, delay);
    var r := Removed(c, t.id);
    RemovedSorted(c, t.id);
    InsertKeeps(r, t');
    hide Sorted, Insert, Removed, Place;
    var k := Place(false, r, t'.start);
    OccursOnce(r, k, t');
    TouchedOccurs(r, t', t.id);
    InsertMembers(r, k, t');
  }

  lemma InsertMembers(c: seq<Timer>, k: nat, t: Timer)
    requires k <= |c|
    ensures forall u :: u in InsertAt(c, k, t) <==> u == t || u in c
  {
  }
}
