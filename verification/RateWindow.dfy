/**
 The fixed-window request count over whole runs of calls (app_redis.rs), against windows
 computed from the call times alone.
 */
module RateWindow {
  import opened Wrappers
  import opened RedisStore

  /** Call times in milliseconds, in the order the server runs the calls. */
  type Times = ts: seq<nat> | forall i, j :: 0 <= i < j < |ts| ==> ts[i] <= ts[j]

  // ---------- the run ----------

  function At(s: Store, time: nat): Store {
    s.(now := time)
  }

  /** The store after the first n calls. */
  function After(start: Store, key: string, windowMs: nat, times: Times, n: nat): Store
    requires n <= |times|
  {
    if n == 0 then start
    else CountOne(At(After(start, key, windowMs, times, n - 1), times[n - 1]), key, windowMs).store
  }

  function ReplyTo(start: Store, key: string, windowMs: nat, times: Times, i: nat): Result<Reply>
    requires i < |times|
  {
    CountOne(At(After(start, key, windowMs, times, i), times[i]), key, windowMs).reply
  }

  /** The key is absent, or has expired, when the first call comes. */
  predicate EmptyAtFirst(start: Store, key: string, times: Times) {
    times == [] || !Live(At(start, times[0]), key)
  }

  // ---------- windows, from the times alone ----------

  /** The call that opened the window of call i: a window lasts windowMs from its first call. */
  function Opener(windowMs: nat, times: Times, i: nat): (o: nat)
    requires i < |times|
    ensures o <= i
  {
    if i == 0 then 0
    else
      var o := Opener(windowMs, times, i - 1);
      if times[i] <= times[o] + windowMs then o else i
  }

  lemma {:induction false} OpenerFacts(windowMs: nat, times: Times, i: nat)
    requires i < |times|
    ensures var o := Opener(windowMs, times, i);
            times[i] <= times[o] + windowMs && Opener(windowMs, times, o) == o
  {
    if i > 0 {
      OpenerFacts(windowMs, times, i - 1);
    }
  }

  /** A later window opens only after the earlier one is over. */
  lemma {:induction false} OpenersApart(windowMs: nat, times: Times, i: nat, j: nat)
    requires i <= j < |times|
    ensures var o, p := Opener(windowMs, times, i), Opener(windowMs, times, j);
            o == p || (i < p && times[o] + windowMs < times[p])
  {
    if i < j {
      OpenersApart(windowMs, times, i, j - 1);
    }
  }

  // ---------- the count is the position in the window ----------

  ghost predicate Running(s: Store, key: string, count: int, deadline: nat) {
    key in s.entries && s.entries[key] == Entry(Count(count), Some(deadline))
  }

  /** A call on a key that is not live opens a window. */
  lemma CountOpens(s: Store, key: string, windowMs: nat)
    requires !Live(s, key)
    ensures var r := CountOne(s, key, windowMs);
            Running(r.store, key, 1, s.now + windowMs) && r.reply == Ok(Reply(1, windowMs, 0))
  {
  }

  /** A call on a running window counts on. */
  lemma CountContinues(s: Store, key: string, windowMs: nat, count: nat, deadline: nat)
    requires Running(s, key, count, deadline) && s.now <= deadline && 0 < count < I64_MAX
    ensures var r := CountOne(s, key, windowMs);
            Running(r.store, key, count + 1, deadline) && r.reply == Ok(Reply(count + 1, deadline - s.now, 0))
  {
  }

  /** After each call the key holds the position of the call in its window and the end of the window. */
  lemma {:induction false} WindowState(start: Store, key: string, windowMs: nat, times: Times, i: nat)
    requires EmptyAtFirst(start, key, times)
    requires i < |times| <= I64_MAX
    ensures var o := Opener(windowMs, times, i);
            Running(After(start, key, windowMs, times, i + 1), key, i - o + 1, times[o] + windowMs)
    ensures var o := Opener(windowMs, times, i);
            ReplyTo(start, key, windowMs, times, i) == Ok(Reply(i - o + 1, times[o] + windowMs - times[i], 0))
  {
    var s := At(After(start, key, windowMs, times, i), times[i]);
    if i == 0 {
      CountOpens(s, key, windowMs);
    } else {
      WindowState(start, key, windowMs, times, i - 1);
      var o := Opener(windowMs, times, i - 1);
      if times[i] <= times[o] + windowMs {
        CountContinues(s, key, windowMs, i - o, times[o] + windowMs);
      } else {
        CountOpens(s, key, windowMs);
      }
    }
  }

  /**
   From an empty key, every call is answered with its position in its window, the time left
   to a deadline that never moves, and no repair.
   */
  lemma CountsPositions(start: Store, key: string, windowMs: nat, times: Times, i: nat)
    requires EmptyAtFirst(start, key, times)
    requires i < |times| <= I64_MAX
    ensures var o := Opener(windowMs, times, i);
            && ReplyTo(start, key, windowMs, times, i) == Ok(Reply(i - o + 1, times[o] + windowMs - times[i], 0))
            && 0 <= times[o] + windowMs - times[i] <= windowMs
  {
    WindowState(start, key, windowMs, times, i);
    OpenerFacts(windowMs, times, i);
  }

  /** A call on a live count without a deadline counts on, opens a window and reports the repair. */
  lemma CountRepairs(s: Store, key: string, windowMs: nat, count: nat)
    requires key in s.entries && s.entries[key].deadline.None?
    requires StoredNumber(s.entries[key].value) == Some(count) && count < I64_MAX
    ensures var r := CountOne(s, key, windowMs);
            && Running(r.store, key, count + 1, s.now + windowMs)
            && r.reply == Ok(Reply(count + 1, windowMs, if count > 0 then 1 else 0))
  {
  }

  /**
   From a count that lost its deadline, the first call repairs it: counting goes on where it
   stood, in a window of full length from that call, and the repair is reported once. Later
   calls keep that deadline, and later windows count from one.
   */
  lemma {:induction false} LostDeadlineIsRepaired(start: Store, key: string, windowMs: nat, times: Times, count: nat,
                                                  i: nat)
    requires key in start.entries && start.entries[key].deadline.None?
    requires StoredNumber(start.entries[key].value) == Some(count) && count + |times| <= I64_MAX
    requires i < |times|
    ensures var o := Opener(windowMs, times, i);
            var position := i - o + 1 + if o == 0 then count else 0;
            && Running(After(start, key, windowMs, times, i + 1), key, position, times[o] + windowMs)
            && ReplyTo(start, key, windowMs, times, i)
               == Ok(Reply(position, times[o] + windowMs - times[i], if i == 0 && count > 0 then 1 else 0))
  {
    var s := At(After(start, key, windowMs, times, i), times[i]);
    if i == 0 {
      CountRepairs(s, key, windowMs, count);
    } else {
      LostDeadlineIsRepaired(start, key, windowMs, times, count, i - 1);
      var o := Opener(windowMs, times, i - 1);
      if times[i] <= times[o] + windowMs {
        CountContinues(s, key, windowMs, i - o + if o == 0 then count else 0, times[o] + windowMs);
      } else {
        CountOpens(s, key, windowMs);
      }
    }
  }

  // ---------- admission ----------

  /** The limiter admits a call whose count does not exceed the limit. */
  predicate Admitted(start: Store, key: string, windowMs: nat, times: Times, limit: nat, i: nat)
    requires i < |times|
  {
    var r := ReplyTo(start, key, windowMs, times, i);
    r.Ok? && r.value.count <= limit
  }

  function AdmittedIn(start: Store, key: string, windowMs: nat, times: Times, limit: nat, from: nat,
                      until: nat): set<nat> {
    set i: nat | i < |times| && from <= times[i] <= until && Admitted(start, key, windowMs, times, limit, i)
  }

  function AdmittedInWindow(start: Store, key: string, windowMs: nat, times: Times, limit: nat, o: nat): set<nat> {
    set i: nat | i < |times| && Opener(windowMs, times, i) == o && Admitted(start, key, windowMs, times, limit, i)
  }

  function Range(lo: nat, hi: nat): (r: set<nat>)
    requires lo <= hi
    ensures forall i :: i in r <==> lo <= i < hi
    ensures |r| == hi - lo
    decreases hi
  {
    if lo == hi then {} else Range(lo, hi - 1) + {hi - 1}
  }

  lemma {:induction false} SubsetSize<T>(a: set<T>, b: set<T>)
    requires a <= b
    ensures |a| <= |b|
  {
    assert b == a + (b - a);
    assert |b| == |a| + |b - a|;
  }

  lemma UnionSize<T>(a: set<T>, b: set<T>)
    ensures |a + b| <= |a| + |b|
  {
    assert a + b == a + (b - a);
    assert |a + (b - a)| == |a| + |b - a|;
    SubsetSize(b - a, b);
  }

  /** At most as many calls as the limit are admitted in one window. */
  lemma WindowLimit(start: Store, key: string, windowMs: nat, times: Times, limit: nat, o: nat)
    requires EmptyAtFirst(start, key, times)
    requires |times| <= I64_MAX
    ensures |AdmittedInWindow(start, key, windowMs, times, limit, o)| <= limit
  {
    var admitted := AdmittedInWindow(start, key, windowMs, times, limit, o);
    forall i | i in admitted ensures i in Range(o, o + limit) {
      CountsPositions(start, key, windowMs, times, i);
    }
    SubsetSize(admitted, Range(o, o + limit));
  }

  /** A stretch of one window length meets at most two windows, and the first opened before it. */
  lemma AtMostTwoWindows(windowMs: nat, times: Times, from: nat, first: nat, i: nat, j: nat)
    requires first <= i <= j < |times|
    requires from <= times[first] && times[j] <= from + windowMs
    requires Opener(windowMs, times, i) != Opener(windowMs, times, first)
    ensures Opener(windowMs, times, first) < first
    ensures Opener(windowMs, times, j) == Opener(windowMs, times, i)
  {
    OpenersApart(windowMs, times, first, i);
    OpenersApart(windowMs, times, i, j);
  }

  /**
   In any stretch of time as long as a window, at most twice the limit minus one calls are
   admitted.
   */
  lemma IntervalLimit(start: Store, key: string, windowMs: nat, times: Times, limit: nat, from: nat)
    requires EmptyAtFirst(start, key, times)
    requires |times| <= I64_MAX && limit > 0
    ensures |AdmittedIn(start, key, windowMs, times, limit, from, from + windowMs)| <= 2 * limit - 1
  {
    var admitted := AdmittedIn(start, key, windowMs, times, limit, from, from + windowMs);
    if admitted != {} {
      var first := Least(admitted);
      var o := Opener(windowMs, times, first);
      var early := set i | i in admitted && Opener(windowMs, times, i) == o;
      var late := admitted - early;
      WindowLimit(start, key, windowMs, times, limit, o);
      SubsetSize(early, AdmittedInWindow(start, key, windowMs, times, limit, o));
      if late != {} {
        LateCalls(start, key, windowMs, times, limit, from, first, late);
        EarlyCalls(start, key, windowMs, times, limit, first, early);
      }
      assert admitted == early + late;
      UnionSize(early, late);
    }
  }

  lemma LateCalls(start: Store, key: string, windowMs: nat, times: Times, limit: nat, from: nat, first: nat,
                  late: set<nat>)
    requires EmptyAtFirst(start, key, times)
    requires |times| <= I64_MAX && first < |times| && from <= times[first]
    requires late != {} && late <= AdmittedIn(start, key, windowMs, times, limit, from, from + windowMs)
    requires forall i :: i in late ==> first <= i && Opener(windowMs, times, i) != Opener(windowMs, times, first)
    ensures |late| <= limit
    ensures Opener(windowMs, times, first) < first
  {
    var i := Least(late);
    var p := Opener(windowMs, times, i);
    forall j | j in late ensures Opener(windowMs, times, j) == p && Opener(windowMs, times, first) < first {
      AtMostTwoWindows(windowMs, times, from, first, i, j);
    }
    WindowLimit(start, key, windowMs, times, limit, p);
    SubsetSize(late, AdmittedInWindow(start, key, windowMs, times, limit, p));
  }

  lemma EarlyCalls(start: Store, key: string, windowMs: nat, times: Times, limit: nat, first: nat, early: set<nat>)
    requires EmptyAtFirst(start, key, times)
    requires |times| <= I64_MAX && limit > 0 && first < |times| && Opener(windowMs, times, first) < first
    requires early <= AdmittedInWindow(start, key, windowMs, times, limit, Opener(windowMs, times, first))
    requires forall i :: i in early ==> first <= i
    ensures |early| <= limit - 1
  {
    var o := Opener(windowMs, times, first);
    forall i | i in early ensures i in Range(o + 1, o + limit) {
      CountsPositions(start, key, windowMs, times, i);
    }
    SubsetSize(early, Range(o + 1, o + limit));
  }

  function Least(s: set<nat>): (m: nat)
    requires s != {}
    ensures m in s && forall x :: x in s ==> m <= x
  {
    LeastExists(s);
    var m: nat :| m in s && forall x :: x in s ==> m <= x;
    m
  }

  lemma {:induction false} LeastExists(s: set<nat>)
    requires s != {}
    ensures exists m: nat :: m in s && forall x :: x in s ==> m <= x
    decreases |s|
  {
    var x: nat :| x in s;
    if s == {x} {
      assert x in s && forall y :: y in s ==> x <= y;
    } else {
      var rest := s - {x};
      LeastExists(rest);
      var m: nat :| m in rest && forall y :: y in rest ==> m <= y;
      var least := if x < m then x else m;
      assert s == rest + {x};
      assert least in s && forall y :: y in s ==> least <= y;
    }
  }

  // ---------- the bound is attained ----------

  /** One call at the start of a window, the rest of its quota at its end, and the next quota right after. */
  function Burst(windowMs: nat, limit: nat): (times: Times)
    requires limit > 0
    ensures |times| == 2 * limit
  {
    seq(2 * limit, i => if i == 0 then 0 else if i < limit then windowMs else windowMs + 1)
  }

  lemma {:induction false} BurstOpeners(windowMs: nat, limit: nat, i: nat)
    requires limit > 0 && i < 2 * limit
    ensures Opener(windowMs, Burst(windowMs, limit), i) == if i < limit then 0 else limit
  {
    if i > 0 {
      BurstOpeners(windowMs, limit, i - 1);
    }
  }

  /** For every limit and window, some run admits twice the limit minus one calls within one window length. */
  lemma IntervalLimitAttained(start: Store, key: string, windowMs: nat, limit: nat)
    requires windowMs > 0 && 0 < 2 * limit <= I64_MAX && !Live(At(start, 0), key)
    ensures var times := Burst(windowMs, limit);
            |AdmittedIn(start, key, windowMs, times, limit, windowMs, windowMs + windowMs)| == 2 * limit - 1
  {
    var times := Burst(windowMs, limit);
    var admitted := AdmittedIn(start, key, windowMs, times, limit, windowMs, windowMs + windowMs);
    forall i: nat ensures i in admitted <==> 1 <= i < 2 * limit {
      if i < 2 * limit {
        CountsPositions(start, key, windowMs, times, i);
        BurstOpeners(windowMs, limit, i);
      }
    }
    assert admitted == Range(1, 2 * limit);
  }
}
