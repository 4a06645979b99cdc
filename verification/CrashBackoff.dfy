/**
 Crash backoff: how long the master waits before it forks the next child of a pool whose children
 fail fast.  Times are microseconds of the monotonic clock, delays milliseconds.
 */
module CrashBackoff {
  import opened Shared

  const CAP_MS := 60000
  const WINDOW_US := 10_000_000

  // ---- the delay ----

  function Pow2(n: nat): nat { if n == 0 then 1 else 2 * Pow2(n - 1) }

  /** The window the delay after the n-th fast failure in a row is drawn from. */
  function Window(n: nat, gaveUp: bool): nat {
    if gaveUp then CAP_MS
    else if n < 2 then 0
    else Min(1000 * Pow2(Min(n - 2, 6)), CAP_MS)
  }

  /** The windows double up to the cap. */
  lemma WindowDoubles(n: nat)
    requires n >= 2
    ensures Window(2, false) == 1000 && Window(n + 1, false) == Min(2 * Window(n, false), CAP_MS)
    ensures Window(n, false) <= CAP_MS
  {
    PowSix();
    if n - 2 < 6 {
      assert Pow2(n - 1) == 2 * Pow2(n - 2);
      PowUp(n - 2, 5);
    }
  }

  /** The first failure waits for nothing, the next ones for a window of 1, 2, 4, 8, 16 and 32 seconds, every
      later one, and every one of a pool that gave up, for a minute. */
  lemma WindowIs(n: nat, gaveUp: bool)
    ensures Window(n, gaveUp) ==
      if gaveUp then 60000
      else if n < 2 then 0
      else if n < 8 then [1000, 2000, 4000, 8000, 16000, 32000][n - 2]
      else 60000
  {
    PowSix();
    assert Pow2(0) == 1 && Pow2(1) == 2 && Pow2(2) == 4 && Pow2(3) == 8 && Pow2(4) == 16;
  }

  /** A pool that gave up retries at most twice a minute. */
  lemma GaveUpWaits(limit: int, n: nat)
    requires limit > 0 && n >= limit
    ensures HalfUs(limit, n) == 30_000_000
  {
  }

  lemma PowSix()
    ensures Pow2(5) == 32 && Pow2(6) == 64
  {
    assert Pow2(3) == 8;
  }

  lemma {:induction false} PowUp(m: nat, n: nat)
    requires m <= n
    ensures Pow2(m) <= Pow2(n)
    decreases n - m
  {
    if m < n { PowUp(m, n - 1); }
  }

  /** `jitter` is at most the lower half rounded up, so the delay is in the upper half of the window. */
  function DelayMs(n: nat, gaveUp: bool, jitter: nat): (d: nat)
    requires jitter <= Window(n, gaveUp) - Window(n, gaveUp) / 2
    ensures Window(n, gaveUp) / 2 <= d <= Window(n, gaveUp)
  {
    Window(n, gaveUp) / 2 + jitter
  }

  // ---- a streak takes its time ----

  predicate GivesUp(limit: int, n: int) { limit > 0 && n >= limit }

  /** The least wait behind the n-th fast failure. */
  function HalfUs(limit: int, n: nat): nat { 1000 * (Window(n, GivesUp(limit, n)) / 2) }

  /** Each failure of a streak is at least that wait behind the one before. */
  predicate Spaced(times: seq<int>, limit: int) {
    forall i | 0 < i < |times| :: times[i] >= times[i - 1] + HalfUs(limit, i)
  }

  function TotalUs(limit: int, k: nat): nat { if k == 0 then 0 else TotalUs(limit, k - 1) + HalfUs(limit, k) }

  /** k failures in a row take at least the sum of the half windows between them. */
  lemma {:induction false} StreakTakes(times: seq<int>, limit: int, k: nat)
    requires Spaced(times, limit) && k < |times|
    ensures times[k] - times[0] >= TotalUs(limit, k)
    decreases k
  {
    if k > 0 { StreakTakes(times, limit, k - 1); }
  }

  // ---- one pool ----

  datatype Event =
    | Exit(child: nat, requests: nat, jitter: nat)   // a child that is to be replaced exited
    | Gate                                           // the gate timer
    | Survive(alive: bool)                           // the survive timer; does the watched child still run?

  class Pool {
    const target: nat             // children the pool should have
    const limit: int              // pm.max_consecutive_failures
    var births: seq<int>          // when the running children were forked
    var failures: nat
    var gaveUp: bool
    var delayMs: nat
    var nextSpawn: int            // 0 when no wait is set
    var gateArmed: bool
    var gateDue: int
    var gateFires: int            // when the event loop runs the gate timer
    var surviveArmed: bool
    ghost var clock: int          // the last time seen
    ghost var times: seq<int>     // the failures of the streak
    ghost var refused: bool       // the last question whether a child may be forked was answered no
    ghost var forkFailed: bool    // the last fork failed

    constructor (target: nat, limit: int)
      ensures Valid() && this.target == target && this.limit == limit && failures == 0 && births == []
    {
      this.target, this.limit := target, limit;
      births, failures, gaveUp, delayMs, nextSpawn := [], 0, false, 0, 0;
      gateArmed, gateDue, gateFires, surviveArmed := false, 0, 0, false;
      clock, times, refused, forkFailed := 1, [], false, false;
    }

    /** The pool gave up exactly when the streak has reached a positive limit; the gate never fires before
        the time it was armed for, nor a millisecond behind it; in a pool of one child the failures of a
        streak are spaced by the half windows. */
    ghost predicate Valid()
      reads this
    {
      && |births| <= target && clock > 0 && (forall i | 0 <= i < |births| :: births[i] <= clock)
      && (gaveUp <==> GivesUp(limit, failures))
      && (failures == 0 ==> nextSpawn == 0)
      && (gateArmed ==> gateDue <= gateFires < gateDue + 1000)
      && |times| == failures
      && (target == 1 ==> Spaced(times, limit) && Waited())
    }

    /** The wait behind the last failure is over, or still set. */
    ghost predicate Waited()
      reads this
      requires |times| == failures
    {
      failures > 0 ==>
        var end := times[failures - 1] + HalfUs(limit, failures);
        if |births| > 0 then births[0] >= end && nextSpawn == 0
        else if nextSpawn != 0 then nextSpawn >= end
        else clock >= end
    }

    /** No refused fork is lost: while the pool is short of a child, the gate is armed and due no later than
        the time the wait ends, unless it was the fork itself that failed. */
    ghost predicate Settled()
      reads this
    {
      && (|births| < target ==> refused || forkFailed)
      && (refused ==> gateArmed && nextSpawn > clock && gateDue <= nextSpawn && gateFires < nextSpawn + 1000)
    }

    method Clear()
      requires Valid()
      modifies this`failures, this`gaveUp, this`delayMs, this`nextSpawn, this`times, this`refused
      ensures Valid() && failures == 0 && times == [] && !gaveUp && nextSpawn == 0 && !refused
    {
      failures, gaveUp, delayMs, nextSpawn := 0, false, 0, 0;
      times, refused := [], false;
    }

    /** May a child be forked now?  A no arms the gate, or moves it earlier. */
    method MaySpawn(now: int) returns (may: bool)
      requires Valid() && now >= clock
      modifies this`nextSpawn, this`gateArmed, this`gateDue, this`gateFires, this`clock, this`refused
      ensures Valid() && clock == now && refused == !may
      ensures may <==> old(nextSpawn) == 0 || now >= old(nextSpawn)
      ensures may ==> nextSpawn == 0
      ensures !may ==> nextSpawn == old(nextSpawn) && gateArmed && gateDue <= nextSpawn && gateFires < nextSpawn + 1000
    {
      clock := now;
      refused := false;
      if nextSpawn == 0 {
        return true;
      }
      if now >= nextSpawn {
        nextSpawn := 0;
        return true;
      }
      var left := nextSpawn - now;
      var ms := left / 1_000_000 * 1000 + (left % 1_000_000 + 999) / 1000;
      if !gateArmed || nextSpawn < gateDue {
        gateFires := now + 1000 * ms;
        gateDue := nextSpawn;
        gateArmed := true;
      }
      refused := true;
      may := false;
    }

    /** A child was forked. */
    method ChildSpawned(now: int)
      requires Valid() && now == clock && |births| < target && nextSpawn == 0
      modifies this`births, this`delayMs, this`refused, this`forkFailed, this`surviveArmed
      ensures Valid() && births == old(births) + [now] && !refused && !forkFailed
      ensures surviveArmed == (old(surviveArmed) || failures > 0)
    {
      births := births + [now];
      delayMs := 0;
      refused, forkFailed := false, false;
      if failures > 0 {
        surviveArmed := true;
      }
    }

    predicate JitterOk(jitter: nat)
      reads this
    {
      var w := Window(failures + 1, GivesUp(limit, failures + 1));
      jitter <= w - w / 2
    }

    /** The wait is in the upper half of its window, from now on. */
    ghost predicate WaitSet(now: int)
      reads this
    {
      now + HalfUs(limit, failures) <= nextSpawn <= now + 1000 * Window(failures, GivesUp(limit, failures))
    }

    /** A fast failure makes the streak longer and sets the wait. */
    method FastFailure(now: int, jitter: nat)
      requires Valid() && now == clock && JitterOk(jitter)
      requires target == 1 && failures > 0 ==> now >= times[failures - 1] + HalfUs(limit, failures)
      requires target == 1 ==> births == []
      modifies this
      ensures Valid() && clock == now && births == old(births)
      ensures failures == old(failures) + 1 && times == old(times) + [now]
      ensures WaitSet(now)
    {
      failures, times := failures + 1, times + [now];
      if limit > 0 && failures >= limit && !gaveUp {
        gaveUp := true;
      }
      delayMs := DelayMs(failures, gaveUp, jitter);
      nextSpawn := now + 1000 * delayMs;
    }

    /** A child that is to be replaced exited: it ends the streak or makes it longer. */
    method ChildExited(now: int, i: nat, requests: nat, jitter: nat)
      requires Valid() && now >= clock && i < |births| && JitterOk(jitter)
      modifies this
      ensures Valid() && clock == now && births == old(births)[..i] + old(births)[i + 1..]
      ensures if requests > 0 || now - old(births)[i] >= WINDOW_US then failures == 0 && times == [] && nextSpawn == 0
        else failures == old(failures) + 1 && times == old(times) + [now] && WaitSet(now)
    {
      var life := now - births[i];
      ghost var end := if target == 1 && failures > 0 then times[failures - 1] + HalfUs(limit, failures) else now;
      assert now >= end;
      clock := now;
      births := births[..i] + births[i + 1..];
      if requests > 0 || life / 1_000_000 >= 10 {
        Clear();
      } else {
        FastFailure(now, jitter);
      }
    }

    /** Forks children until the pool has all of them, the backoff says no, or a fork fails. */
    method Make(now: int, forks: nat -> bool)
      requires Valid() && now >= clock
      modifies this
      ensures Valid() && clock == now && Settled() && failures == old(failures) && times == old(times)
      ensures old(nextSpawn) == 0 || now >= old(nextSpawn) ==> |births| == target || forkFailed
      ensures !(old(nextSpawn) == 0 || now >= old(nextSpawn)) ==> births == old(births) && nextSpawn == old(nextSpawn)
    {
      clock, refused := now, false;
      while |births| < target
        invariant Valid() && clock == now && failures == old(failures) && times == old(times) && !refused
        invariant nextSpawn == 0 || nextSpawn == old(nextSpawn)
        invariant !(old(nextSpawn) == 0 || now >= old(nextSpawn)) ==>
          births == old(births) && nextSpawn == old(nextSpawn)
        decreases target - |births|
      {
        var may := MaySpawn(now);
        if !may {
          break;
        }
        if !forks(|births|) {
          forkFailed := true;
          return;
        }
        ChildSpawned(now);
      }
    }

    // ---- what the master's event loop runs ----

    method OnExit(now: int, i: nat, requests: nat, jitter: nat, forks: nat -> bool)
      requires Valid() && now >= clock && i < |births| && JitterOk(jitter)
      modifies this
      ensures Valid() && clock == now && Settled()
    {
      ChildExited(now, i, requests, jitter);
      Make(now, forks);
    }

    /** The gate timer: it is not queued any more when it runs.  When it ran for the current wait, the wait
        is over and the pool is made whole. */
    method OnGate(now: int, forks: nat -> bool)
      requires Valid() && gateArmed && now >= clock && now >= gateFires
      modifies this
      ensures Valid() && clock == now && Settled()
      ensures old(nextSpawn) <= old(gateDue) ==> |births| == target || forkFailed
    {
      gateArmed := false;
      Make(now, forks);
    }

    /** A whole window after a child was forked; `alive` says whether that child still runs. */
    method OnSurvive(now: int, alive: bool, forks: nat -> bool)
      requires Valid() && Settled() && now >= clock
      modifies this
      ensures Valid() && Settled() && clock <= now && (alive ==> failures == 0)
    {
      surviveArmed := false;
      if failures == 0 || !alive {
        return;
      }
      Clear();
      Make(now, forks);
    }

    /** One event at a time; one that cannot happen now is not delivered. */
    method Handle(now: int, e: Event, forks: nat -> bool)
      requires Valid() && Settled() && now >= clock
      modifies this
      ensures Valid() && Settled() && clock <= now
    {
      match e
      case Exit(i, requests, jitter) =>
        if i < |births| && JitterOk(jitter) { OnExit(now, i, requests, jitter, forks); }
      case Gate =>
        if gateArmed && now >= gateFires { OnGate(now, forks); }
      case Survive(alive) =>
        OnSurvive(now, alive, forks);
    }

    /** Any run: the start, then events at times that do not go back. */
    method Run(start: int, events: seq<(int, Event)>, forks: nat -> bool)
      requires Valid() && start >= clock
      requires forall i | 0 <= i < |events| :: events[i].0 >= start
      requires forall i, j | 0 <= i < j < |events| :: events[i].0 <= events[j].0
      modifies this
      ensures Valid() && Settled()
    {
      Make(start, forks);
      for i := 0 to |events|
        invariant Valid() && Settled() && (i == 0 ==> clock <= start) && (i > 0 ==> clock <= events[i - 1].0)
      {
        Handle(events[i].0, events[i].1, forks);
      }
    }
  }
}
