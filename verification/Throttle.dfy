/** The throttle on failed logins: a table of bounded size, from key to failures and
    lockout.

    A call changes the table in one atomic step. The steps say what a call may do to
    the other keys (sweep out the expired, drop one to make room), and what the table
    promises is proved over every run of such steps. */
module Throttle {
  import opened Basics

  const WINDOW := 900
  const LOCKOUT := 900
  const SWEEP_EVERY := 500

  /** `until` is set once the key has been locked out. */
  datatype Counter = Counter(count: nat, first: int, until: Option<int>)

  type Table = map<string, Counter>

  predicate Locked(c: Counter, now: int) { c.until.Some? && now < c.until.value }

  predicate Expired(c: Counter, now: int) { now - c.first > WINDOW }

  /** An entry that a sweep may take. */
  predicate Stale(c: Counter, now: int) { Expired(c, now) && !Locked(c, now) }

  predicate LockedOut(t: Table, key: string, now: int) { key in t && Locked(t[key], now) }

  /** The counter of a key after one more failure. */
  function Failed(t: Table, key: string, now: int, max: int): Counter {
    if key !in t || Stale(t[key], now) then Counter(1, now, None)
    else
      var count := t[key].count + 1;
      Counter(count, t[key].first, if count >= max then Some(now + LOCKOUT) else t[key].until)
  }

  datatype Call =
    | Allow(key: string, now: int)
    | Fail(key: string, now: int)
    | Succeed(key: string, now: int)

  /** Another key's entry goes only when it is not locked out, and then because it is
      stale or because a full table takes in a new key. */
  predicate MayGo(a: Table, call: Call, k: string, cap: nat)
    requires k in a
  {
    !Locked(a[k], call.now) && (Expired(a[k], call.now) || (call.key !in a && |a| >= cap))
  }

  ghost predicate FailStep(cap: nat, max: int, a: Table, b: Table, call: Call) {
    if call.key in b then
      && b[call.key] == Failed(a, call.key, call.now, max)
      && (forall k :: k in b && k != call.key ==> k in a && b[k] == a[k])
      && (forall k :: k in a && k !in b ==> MayGo(a, call, k, cap))
      && (forall k, m :: k in a && k !in b && m in a && m !in b && !Expired(a[k], call.now) && !Expired(a[m], call.now) ==> k == m)
      && (call.key !in a && |a| >= cap ==> |b| <= |a|)
    else
      call.key !in a && |a| >= cap && b == a
  }

  ghost predicate Step(cap: nat, max: int, a: Table, b: Table, call: Call) {
    match call
    case Allow(key, now) => b == if key in a && Stale(a[key], now) then a - {key} else a
    case Succeed(key, now) => b == a - {key}
    case Fail(key, now) => FailStep(cap, max, a, b, call)
  }

  lemma Smaller(a: Table, b: Table)
    requires b.Keys <= a.Keys
    ensures |b| <= |a|
    ensures b.Keys != a.Keys ==> |b| < |a|
  {
    Subset(b.Keys, a.Keys);
  }

  lemma {:induction false} Subset(x: set<string>, y: set<string>)
    requires x <= y
    ensures |x| <= |y| && (x != y ==> |x| < |y|)
  {
    assert y == x + (y - x);
    assert |y| == |x| + |y - x|;
  }

  ghost function Victim(cap: nat, a: Table, b: Table, now: int): (victim: Option<string>)
    requires |a| < cap ==> b == a
    requires |a| >= cap ==> exists k :: k in a && !Locked(a[k], now) && b == a - {k}
    ensures if |a| < cap then victim.None?
      else victim.Some? && victim.value in a && !Locked(a[victim.value], now) && b == a - {victim.value}
  {
    if |a| < cap then None
    else
      var k :| k in a && !Locked(a[k], now) && b == a - {k};
      Some(k)
  }

  /** Writing the key's counter over the table as it was, or with one entry dropped. */
  lemma WriteIsStep(cap: nat, max: int, a: Table, victim: Option<string>, call: Call)
    requires call.Fail?
    requires victim.Some? ==> call.key !in a && |a| >= cap && victim.value in a && !Locked(a[victim.value], call.now)
    requires call.key !in a && |a| >= cap ==> victim.Some?
    ensures
      var room := if victim.Some? then a - {victim.value} else a;
      FailStep(cap, max, a, room[call.key := Failed(a, call.key, call.now, max)], call)
  {
    if victim.Some? {
      var room := a - {victim.value};
      var b := room[call.key := Failed(a, call.key, call.now, max)];
      assert b.Keys == room.Keys + {call.key};
      Smaller(a, room);
    }
  }

  /** Sweeping the stale entries afterwards is part of the same step. */
  lemma SweepIsStep(cap: nat, max: int, a: Table, b: Table, c: Table, call: Call)
    requires call.Fail? && FailStep(cap, max, a, b, call) && call.key in b
    requires c == map k | k in b && !Stale(b[k], call.now) :: b[k]
    ensures FailStep(cap, max, a, c, call)
  {
    assert !Stale(b[call.key], call.now);
    Smaller(b, c);
    forall k | k in a && k !in c ensures MayGo(a, call, k, cap) && (k in b ==> Expired(a[k], call.now)) {
      if k in b { assert b[k] == a[k]; }
    }
  }

  class LoginThrottle {
    const max: int
    const cap: nat
    var fails: Table
    var writes: nat

    constructor (max: int, cap: nat)
      ensures this.max == max && this.cap == cap && fails == map[]
    {
      this.max, this.cap, fails, writes := max, cap, map[], 0;
    }

    method Allow(key: string, now: int) returns (ok: bool)
      modifies this
      ensures ok == !LockedOut(old(fails), key, now)
      ensures Step(cap, max, old(fails), fails, Call.Allow(key, now))
    {
      if key !in fails { return true; }
      var f := fails[key];
      if Locked(f, now) { return false; }
      if now - f.first > WINDOW {
        fails := fails - {key};
      }
      return true;
    }

    method Fail(key: string, now: int)
      modifies this
      ensures Step(cap, max, old(fails), fails, Call.Fail(key, now))
      ensures key in old(fails) || |old(fails)| < cap ==> key in fails
    {
      ghost var a := fails;
      ghost var victim: Option<string> := None;
      if key !in fails || Stale(fails[key], now) {
        if key !in fails {
          var room := MakeRoom(now);
          if !room { return; }
          victim := Victim(cap, a, fails, now);
        }
        fails := fails[key := Counter(1, now, None)];
      } else {
        var f := fails[key];
        var count := f.count + 1;
        fails := fails[key := Counter(count, f.first, if count >= max then Some(now + LOCKOUT) else f.until)];
      }
      WriteIsStep(cap, max, a, victim, Call.Fail(key, now));
      ghost var b := fails;
      writes := writes + 1;
      if writes % SWEEP_EVERY == 0 {
        fails := map k | k in fails && !Stale(fails[k], now) :: fails[k];
        SweepIsStep(cap, max, a, b, fails, Call.Fail(key, now));
      }
    }

    /** In a full table one victim goes, never one locked out and a stale one if any is
        there. The loop visits the entries in no particular order; the empty name stands
        for no victim. */
    method MakeRoom(now: int) returns (room: bool)
      modifies this`fails
      ensures |old(fails)| < cap ==> room && fails == old(fails)
      ensures |old(fails)| >= cap && room ==>
        exists victim ::
          && victim in old(fails) && !Locked(old(fails)[victim], now) && fails == old(fails) - {victim}
          && ((exists k :: k in old(fails) && Stale(old(fails)[k], now)) ==> Stale(old(fails)[victim], now))
      ensures !room ==>
        && fails == old(fails) && |fails| >= cap
        && ((forall k :: k in fails ==> Locked(fails[k], now)) || ("" in fails && !Locked(fails[""], now)))
    {
      if |fails| < cap { return true; }
      var victim := "";
      var left := fails.Keys;
      while left != {}
        invariant left <= fails.Keys
        invariant forall k :: k in fails && k !in left ==> !Stale(fails[k], now)
        invariant if forall k :: k in fails && k !in left ==> Locked(fails[k], now) then victim == ""
          else victim in fails && !Locked(fails[victim], now)
      {
        var k :| k in left;
        left := left - {k};
        if Locked(fails[k], now) { continue; }
        victim := k;
        if now - fails[k].first > WINDOW { break; }
      }
      if victim == "" { return false; }
      fails := fails - {victim};
      return true;
    }

    method Succeed(key: string, now: int)
      modifies this
      ensures Step(cap, max, old(fails), fails, Call.Succeed(key, now))
    {
      fails := fails - {key};
    }
  }

  // ---- runs ----

  /** A run of calls from an empty table, with the clock never going back. */
  ghost predicate Run(cap: nat, max: int, tables: seq<Table>, calls: seq<Call>) {
    && |tables| == |calls| + 1 && tables[0] == map[]
    && (forall i :: 0 <= i < |calls| ==> Step(cap, max, tables[i], tables[i + 1], calls[i]))
    && (forall i, j :: 0 <= i <= j < |calls| ==> calls[i].now <= calls[j].now)
  }

  lemma SizeStep(cap: nat, max: int, a: Table, b: Table, call: Call)
    requires Step(cap, max, a, b, call) && |a| <= cap
    ensures |b| <= cap
  {
    if call.Fail? {
      if call.key in b {
        if call.key in a {
          Smaller(a, b);
        } else if |a| < cap {
          Smaller(a, b - {call.key});
          assert b.Keys == (b - {call.key}).Keys + {call.key};
        }
      }
    } else {
      Smaller(a, b);
    }
  }

  /** The table never tracks more keys than its cap. */
  lemma {:induction false} NeverOverCap(cap: nat, max: int, tables: seq<Table>, calls: seq<Call>, i: nat)
    requires Run(cap, max, tables, calls) && i < |tables|
    ensures |tables[i]| <= cap
  {
    if i > 0 {
      NeverOverCap(cap, max, tables, calls, i - 1);
      SizeStep(cap, max, tables[i - 1], tables[i], calls[i - 1]);
    }
  }

  /** A lockout was set at the threshold, at most one lockout's length ahead, and no
      window starts in the future. */
  predicate Fair(c: Counter, max: int, clock: int) {
    c.count >= 1 && c.first <= clock && (c.until.Some? ==> c.count >= max && c.until.value <= clock + LOCKOUT)
    && (c.count >= 2 && c.count >= max ==> c.until.Some? && c.until.value >= c.first + LOCKOUT)
  }

  ghost predicate AllFair(t: Table, max: int, clock: int) { forall k :: k in t ==> Fair(t[k], max, clock) }

  lemma FairStep(cap: nat, max: int, a: Table, b: Table, call: Call, clock: int)
    requires Step(cap, max, a, b, call) && AllFair(a, max, clock) && clock <= call.now
    ensures AllFair(b, max, call.now)
  {
    forall k | k in b ensures Fair(b[k], max, call.now) {
      if k in a { assert Fair(a[k], max, clock); }
    }
  }

  lemma {:induction false} AlwaysFair(cap: nat, max: int, tables: seq<Table>, calls: seq<Call>, i: nat)
    requires Run(cap, max, tables, calls) && i < |calls|
    ensures AllFair(tables[i], max, calls[i].now) && AllFair(tables[i + 1], max, calls[i].now)
  {
    if i > 0 {
      AlwaysFair(cap, max, tables, calls, i - 1);
      assert AllFair(tables[i], max, calls[i].now) by {
        forall k | k in tables[i] ensures Fair(tables[i][k], max, calls[i].now) {
          assert Fair(tables[i][k], max, calls[i - 1].now);
        }
      }
    }
    FairStep(cap, max, tables[i], tables[i + 1], calls[i], calls[i].now);
  }

  /** The key's lockout reaches u. */
  predicate HeldUntil(t: Table, key: string, u: int) { key in t && t[key].until.Some? && t[key].until.value >= u }

  /** Once set, a lockout lasts: until it is over only a success of that key ends it,
      whatever happens to other keys, however full the table is, and also when the
      key's own failures and checks interleave. */
  lemma {:induction false} LockoutHolds(cap: nat, max: int, tables: seq<Table>, calls: seq<Call>, key: string, u: int, i: nat, j: nat)
    requires Run(cap, max, tables, calls) && i <= j <= |calls|
    requires HeldUntil(tables[i], key, u)
    requires forall n :: i <= n < j ==> calls[n] != Succeed(key, calls[n].now) && calls[n].now < u
    ensures HeldUntil(tables[j], key, u)
    decreases j - i
  {
    if i < j {
      LockoutHolds(cap, max, tables, calls, key, u, i, j - 1);
      AlwaysFair(cap, max, tables, calls, j - 1);
      assert Fair(tables[j - 1][key], max, calls[j - 1].now);
      assert Step(cap, max, tables[j - 1], tables[j], calls[j - 1]);
    }
  }

  // ---- how many attempts a window admits ----

  /** The number of the failure that starts a lockout; it is never the first. */
  function Threshold(max: int): nat { if max < 2 then 2 else max }

  /** Attempts are atomic, an attempt being a failure that the check before it let in,
      and the key is tracked and neither evicted nor cleared. */
  ghost predicate Attempts(cap: nat, max: int, tables: seq<Table>, calls: seq<Call>, key: string) {
    && Run(cap, max, tables, calls)
    && forall i :: 0 <= i < |calls| ==>
         && (calls[i].Fail? && calls[i].key == key ==> !LockedOut(tables[i], key, calls[i].now) && key in tables[i + 1])
         && !(calls[i].Succeed? && calls[i].key == key)
         && (key in tables[i] && key !in tables[i + 1] ==> Expired(tables[i][key], calls[i].now))
  }

  /** Attempts among the first n calls that fall in the window from s. */
  function Admitted(calls: seq<Call>, key: string, s: int, n: nat): (r: nat)
    requires n <= |calls|
    ensures r <= n
  {
    if n == 0 then 0
    else
      var last := calls[n - 1];
      Admitted(calls, key, s, n - 1) + if last.Fail? && last.key == key && s <= last.now < s + WINDOW then 1 else 0
  }

  /** What is known of a key after some attempts, `n` of them in the window from s. */
  predicate Within(t: Table, key: string, max: int, s: int, n: nat) {
    var top := Threshold(max);
    if key !in t then n <= top - 2
    else
      var c := t[key];
      if c.until.None? then
        && c.count < top
        && (if c.first < s then n <= c.count - 1 else n <= top - 2 + c.count)
      else
        && c.until.value >= c.first + LOCKOUT
        && (c.until.value < s + WINDOW ==> n == 0 && c.first < s)
        && n <= 2 * top - 2
  }

  /** The key's own failure. */
  lemma WithinFail(cap: nat, max: int, a: Table, b: Table, call: Call, key: string, s: int, n: nat)
    requires FailStep(cap, max, a, b, call) && AllFair(a, max, call.now)
    requires call.Fail? && call.key == key && !LockedOut(a, key, call.now) && key in b
    requires call.now < s + WINDOW && (call.now < s ==> n == 0)
    requires Within(a, key, max, s, n)
    ensures Within(b, key, max, s, n + if s <= call.now then 1 else 0)
  {
    if key in a {
      assert Fair(a[key], max, call.now);
      assert a[key].count + 1 >= max ==> b[key] == Counter(1, call.now, None) || b[key].until == Some(call.now + LOCKOUT);
    }
  }

  lemma WithinStep(cap: nat, max: int, a: Table, b: Table, call: Call, key: string, s: int, n: nat)
    requires Step(cap, max, a, b, call) && AllFair(a, max, call.now)
    requires call.Fail? && call.key == key ==> !LockedOut(a, key, call.now) && key in b
    requires !(call.Succeed? && call.key == key)
    requires key in a && key !in b ==> Expired(a[key], call.now)
    requires call.now < s + WINDOW && (call.now < s ==> n == 0)
    requires Within(a, key, max, s, n)
    ensures Within(b, key, max, s, n + if call.Fail? && call.key == key && s <= call.now then 1 else 0)
  {
    if call.Fail? && call.key == key {
      WithinFail(cap, max, a, b, call, key, s, n);
    } else if key in a && key !in b {
      assert !Locked(a[key], call.now);
    }
  }

  lemma {:induction false} NoneBefore(calls: seq<Call>, key: string, s: int, n: nat)
    requires n <= |calls| && forall i :: 0 <= i < n ==> calls[i].now < s
    ensures Admitted(calls, key, s, n) == 0
  {
    if n > 0 { NoneBefore(calls, key, s, n - 1); }
  }

  lemma WithinEmpty(key: string, max: int, s: int)
    ensures Within(map[], key, max, s, 0)
  {
  }

  lemma {:induction false} WithinAlways(cap: nat, max: int, tables: seq<Table>, calls: seq<Call>, key: string, s: int, n: nat)
    requires Attempts(cap, max, tables, calls, key) && n <= |calls|
    requires n > 0 ==> calls[n - 1].now < s + WINDOW
    ensures Within(tables[n], key, max, s, Admitted(calls, key, s, n))
  {
    hide Step, AllFair, Within;
    if n == 0 {
      WithinEmpty(key, max, s);
    } else {
      WithinAlways(cap, max, tables, calls, key, s, n - 1);
      AlwaysFair(cap, max, tables, calls, n - 1);
      if calls[n - 1].now < s { NoneBefore(calls, key, s, n - 1); }
      WithinStep(cap, max, tables[n - 1], tables[n], calls[n - 1], key, s, Admitted(calls, key, s, n - 1));
    }
  }

  lemma {:induction false} NoneAfter(calls: seq<Call>, key: string, s: int, n: nat, m: nat)
    requires n <= m <= |calls| && forall i :: n <= i < m ==> calls[i].now >= s + WINDOW
    ensures Admitted(calls, key, s, m) == Admitted(calls, key, s, n)
    decreases m - n
  {
    if n < m { NoneAfter(calls, key, s, n, m - 1); }
  }

  /** The calls before the end of the window. */
  function Cut(calls: seq<Call>, end: int): (n: nat)
    ensures n <= |calls| && (n > 0 ==> calls[n - 1].now < end)
    ensures (forall i, j :: 0 <= i <= j < |calls| ==> calls[i].now <= calls[j].now) ==>
      forall i :: n <= i < |calls| ==> calls[i].now >= end
  {
    if |calls| == 0 then 0
    else if calls[|calls| - 1].now < end then |calls|
    else Cut(calls[..|calls| - 1], end)
  }

  /** In any half-open span of the window's length at most 2 * Threshold - 2 attempts
      on a key are admitted, whatever else goes on. */
  lemma AtMostTwiceLessTwo(cap: nat, max: int, tables: seq<Table>, calls: seq<Call>, key: string, s: int)
    requires Attempts(cap, max, tables, calls, key)
    ensures Admitted(calls, key, s, |calls|) <= 2 * Threshold(max) - 2
  {
    var n := Cut(calls, s + WINDOW);
    WithinAlways(cap, max, tables, calls, key, s, n);
    NoneAfter(calls, key, s, n, |calls|);
    if key in tables[n] && tables[n][key].until.None? && tables[n][key].first >= s {
      assert tables[n][key].count <= Threshold(max) - 1;
    }
  }

  // ---- the bound is reached ----

  /** One attempt, enough at the end of its window to be one short of the threshold,
      and the whole threshold once that window is over. */
  function Burst(key: string, max: int): (calls: seq<Call>)
    ensures |calls| == 2 * Threshold(max) - 1
    ensures forall i :: 0 <= i < |calls| ==>
      calls[i] == Call.Fail(key, if i == 0 then 0 else if i <= Threshold(max) - 2 then WINDOW else WINDOW + 1)
  {
    seq(2 * Threshold(max) - 1, i requires 0 <= i =>
      Call.Fail(key, if i == 0 then 0 else if i <= Threshold(max) - 2 then WINDOW else WINDOW + 1))
  }

  function BurstTable(key: string, max: int, i: nat): Table {
    var top := Threshold(max);
    if i == 0 then map[]
    else if i < top then map[key := Counter(i, 0, None)]
    else
      var j := i - (top - 1);
      map[key := Counter(j, WINDOW + 1, if j >= top then Some(WINDOW + 1 + LOCKOUT) else None)]
  }

  lemma BurstStep(cap: nat, key: string, max: int, i: nat)
    requires cap > 0 && i < 2 * Threshold(max) - 1
    ensures Step(cap, max, BurstTable(key, max, i), BurstTable(key, max, i + 1), Burst(key, max)[i])
    ensures !LockedOut(BurstTable(key, max, i), key, Burst(key, max)[i].now)
  {
  }

  lemma {:induction false} BurstCount(key: string, max: int, n: nat)
    requires 0 < n <= 2 * Threshold(max) - 1
    ensures Admitted(Burst(key, max), key, 2, n) == n - 1
  {
    if n == 1 {
      assert Admitted(Burst(key, max), key, 2, 0) == 0;
    } else {
      BurstCount(key, max, n - 1);
    }
  }

  function BurstTables(key: string, max: int): (tables: seq<Table>)
    ensures |tables| == 2 * Threshold(max)
    ensures forall i :: 0 <= i < |tables| ==> tables[i] == BurstTable(key, max, i)
  {
    seq(2 * Threshold(max), i requires 0 <= i => BurstTable(key, max, i))
  }

  lemma BurstIsAttempts(cap: nat, key: string, max: int)
    requires cap > 0
    ensures Attempts(cap, max, BurstTables(key, max), Burst(key, max), key)
  {
    hide Step;
    var calls, tables := Burst(key, max), BurstTables(key, max);
    forall i | 0 <= i < |calls|
      ensures Step(cap, max, tables[i], tables[i + 1], calls[i])
      ensures !LockedOut(tables[i], key, calls[i].now)
    {
      BurstStep(cap, key, max, i);
    }
  }

  /** So no span ever admits twice the threshold given, precisely when that is at least
      two: with one, the first failure does not lock, and two attempts get in. */
  lemma FewerThanTwiceTheMaximum(cap: nat, key: string, max: int)
    requires cap > 0
    ensures (forall tables, calls, s :: Attempts(cap, max, tables, calls, key) ==> Admitted(calls, key, s, |calls|) < 2 * max)
      <==> max >= 2
  {
    if max >= 2 {
      forall tables, calls, s | Attempts(cap, max, tables, calls, key)
        ensures Admitted(calls, key, s, |calls|) < 2 * max
      {
        AtMostTwiceLessTwo(cap, max, tables, calls, key, s);
      }
    } else {
      BurstIsAttempts(cap, key, max);
      BurstCount(key, max, 2 * Threshold(max) - 1);
    }
  }

  /** The bound is the best there is. */
  lemma BoundIsReached(cap: nat, key: string, max: int)
    requires cap > 0
    ensures exists tables, calls, s ::
      && Attempts(cap, max, tables, calls, key)
      && Admitted(calls, key, s, |calls|) == 2 * Threshold(max) - 2
  {
    BurstIsAttempts(cap, key, max);
    BurstCount(key, max, 2 * Threshold(max) - 1);
    assert Admitted(Burst(key, max), key, 2, |Burst(key, max)|) == 2 * Threshold(max) - 2;
  }

  // ---- why a key is locked out ----

  /** The failures of a key among the first n calls, since its last success. */
  ghost function Failures(calls: seq<Call>, key: string, n: nat): (r: nat)
    requires n <= |calls|
  {
    if n == 0 || (calls[n - 1].Succeed? && calls[n - 1].key == key) then 0
    else Failures(calls, key, n - 1) + if calls[n - 1].Fail? && calls[n - 1].key == key then 1 else 0
  }

  /** The failure at j set a lockout until u, a quarter of an hour later, as at least the
      second of the key and not before the one that is too many. */
  ghost predicate SetAt(calls: seq<Call>, key: string, max: int, u: int, j: nat)
    requires j < |calls|
  {
    calls[j] == Call.Fail(key, u - 15 * 60) && Failures(calls, key, j + 1) >= Threshold(max)
  }

  ghost predicate Explained(calls: seq<Call>, key: string, max: int, n: nat, t: Table)
    requires n <= |calls|
  {
    key in t ==>
      && 1 <= t[key].count <= Failures(calls, key, n)
      && (t[key].until.Some? ==> exists j :: 0 <= j < n && SetAt(calls, key, max, t[key].until.value, j))
  }

  lemma ExplainedStep(cap: nat, max: int, a: Table, b: Table, calls: seq<Call>, key: string, n: nat)
    requires n < |calls| && Step(cap, max, a, b, calls[n]) && Explained(calls, key, max, n, a)
    ensures Explained(calls, key, max, n + 1, b)
  {
    if key in b && b[key].until.Some? && !(key in a && b[key] == a[key]) {
      assert SetAt(calls, key, max, b[key].until.value, n) || a[key].until == b[key].until;
    }
  }

  lemma {:induction false} AlwaysExplained(cap: nat, max: int, tables: seq<Table>, calls: seq<Call>, key: string, n: nat)
    requires Run(cap, max, tables, calls) && n <= |calls|
    ensures Explained(calls, key, max, n, tables[n])
  {
    if n > 0 {
      AlwaysExplained(cap, max, tables, calls, key, n - 1);
      ExplainedStep(cap, max, tables[n - 1], tables[n], calls, key, n - 1);
    }
  }

  /** A key is refused only within a quarter of an hour of one of its own failures, with
      at least the maximum and at least two of them since its last success. */
  lemma LockedForAReason(cap: nat, max: int, tables: seq<Table>, calls: seq<Call>, key: string, n: nat, now: int)
    requires Run(cap, max, tables, calls) && n <= |calls| && LockedOut(tables[n], key, now)
    ensures exists j :: 0 <= j < n && SetAt(calls, key, max, tables[n][key].until.value, j) && now < calls[j].now + 15 * 60
  {
    hide Step, Failures, Threshold;
    AlwaysExplained(cap, max, tables, calls, key, n);
  }

  /** The failure that is too many, of a key tracked whose window is not over, locks it
      out for a quarter of an hour to the second. */
  lemma LocksWhenTooMany(cap: nat, max: int, a: Table, b: Table, key: string, now: int, t: int)
    requires Step(cap, max, a, b, Call.Fail(key, now)) && key in a && now - a[key].first <= 15 * 60
    requires a[key].count + 1 >= max
    ensures LockedOut(b, key, t) <==> t < now + 15 * 60
  {
  }

  /** A failure counts one more, and the first of a key or of a new window starts at
      one. */
  lemma FailureCounts(cap: nat, max: int, a: Table, b: Table, key: string, now: int)
    requires Step(cap, max, a, b, Call.Fail(key, now)) && key in b
    ensures b[key].count == if key in a && (now - a[key].first <= 15 * 60 || LockedOut(a, key, now)) then a[key].count + 1 else 1
    ensures b[key].first == if key in a && (now - a[key].first <= 15 * 60 || LockedOut(a, key, now)) then a[key].first else now
  {
  }
}
