/** The token bucket that paces row copies. Time is counted in nanoseconds, and the product of
    elapsed time and rate is exact. */
module Limiter {

  const SECOND := 1_000_000_000
  const MILLISECOND := 1_000_000

  datatype State = State(tokens: int, lastRefill: int)

  /** refill at a clock reading: the bucket fills with the time since the last refill that added
      a token, up to its size. */
  function Refilled(max: nat, s: State, now: int): State {
    var elapsed := now - s.lastRefill;
    if elapsed <= 0 then s
    else
      var add := elapsed * max / SECOND;
      if add > 0 then State(if s.tokens + add > max then max else s.tokens + add, now) else s
  }

  function Least(a: int, b: int): int {
    if a > b then b else a
  }

  /** The locked section of Wait: refill, then take what there is. */
  function Grab(max: nat, s: State, now: int, want: int): (r: (State, int)) {
    var filled := Refilled(max, s, now);
    var take := Least(want, filled.tokens);
    (State(filled.tokens - take, filled.lastRefill), take)
  }

  predicate Ok(max: nat, s: State) {
    0 <= s.tokens <= max
  }

  lemma DivideDown(a: int)
    requires a >= 0
    ensures a / SECOND * SECOND <= a < a / SECOND * SECOND + SECOND && a / SECOND >= 0
  {}

  /** What a refill adds is covered by the time it accounts for. */
  lemma RefillCovered(max: nat, s: State, now: int)
    requires Ok(max, s)
    ensures var r := Refilled(max, s, now);
      && Ok(max, r) && s.lastRefill <= r.lastRefill && (r.lastRefill == s.lastRefill || r.lastRefill == now)
      && (r.tokens - s.tokens) * SECOND <= max * (r.lastRefill - s.lastRefill)
      && (r.lastRefill == s.lastRefill && now > s.lastRefill ==> max * (now - s.lastRefill) < SECOND)
  {
    if now > s.lastRefill {
      assert (now - s.lastRefill) * max >= 0;
      DivideDown((now - s.lastRefill) * max);
    }
  }

  /** A refill that does not fill the bucket adds all whole tokens of the elapsed time. */
  lemma RefillFills(max: nat, s: State, now: int)
    requires Ok(max, s) && now > s.lastRefill
    ensures var r := Refilled(max, s, now);
      s.tokens <= r.tokens && (r.tokens == max || (r.tokens - s.tokens + 1) * SECOND > max * (now - s.lastRefill))
  {
    assert (now - s.lastRefill) * max >= 0;
    DivideDown((now - s.lastRefill) * max);
  }

  lemma GrabKeeps(max: nat, s: State, now: int, want: int)
    requires Ok(max, s) && want >= 0
    ensures var (r, take) := Grab(max, s, now, want);
      && Ok(max, r) && 0 <= take <= want && s.lastRefill <= r.lastRefill
         && (s.lastRefill <= now ==> r.lastRefill <= now)
      && (take + r.tokens - s.tokens) * SECOND <= max * (r.lastRefill - s.lastRefill)
  {
    RefillCovered(max, s, now);
  }

  // ----- any interleaving of callers -----

  /** One locked section: when it ran, and how many tokens its caller still wanted. */
  datatype Call = Call(now: int, want: nat)

  /** The lock orders the sections, and the clock is monotone. */
  predicate Timed(calls: seq<Call>) {
    forall i, j :: 0 <= i < j < |calls| ==> calls[i].now <= calls[j].now
  }

  /** The state after the first k calls. */
  function After(max: nat, s: State, calls: seq<Call>, k: nat): State
    requires k <= |calls|
  {
    if k == 0 then s else Grab(max, After(max, s, calls, k - 1), calls[k - 1].now, calls[k - 1].want).0
  }

  /** The tokens that calls i to k take. */
  function Granted(max: nat, s: State, calls: seq<Call>, i: nat, k: nat): int
    requires i <= k <= |calls|
    decreases k
  {
    if i == k then 0
    else Granted(max, s, calls, i, k - 1) + Grab(max, After(max, s, calls, k - 1), calls[k - 1].now,
      calls[k - 1].want).1
  }

  lemma {:induction false} StaysOk(max: nat, s: State, calls: seq<Call>, k: nat)
    requires Ok(max, s) && Timed(calls) && k <= |calls|
    ensures Ok(max, After(max, s, calls, k)) && s.lastRefill <= After(max, s, calls, k).lastRefill
    ensures (k > 0 && s.lastRefill <= calls[0].now ==> After(max, s, calls, k).lastRefill <= calls[k - 1].now)
  {
    if k > 0 {
      StaysOk(max, s, calls, k - 1);
      GrabKeeps(max, After(max, s, calls, k - 1), calls[k - 1].now, calls[k - 1].want);
    }
  }

  /** Tokens granted between two states come out of the bucket or out of the time that passed. */
  ghost predicate Covered(max: nat, a: State, b: State, granted: int) {
    a.lastRefill <= b.lastRefill && (granted + b.tokens - a.tokens) * SECOND <= max * (b.lastRefill - a.lastRefill)
  }

  lemma CallCovered(max: nat, s: State, call: Call) returns (r: State, take: int)
    requires Ok(max, s)
    ensures (r, take) == Grab(max, s, call.now, call.want) && Covered(max, s, r, take)
  {
    GrabKeeps(max, s, call.now, call.want);
    r, take := Grab(max, s, call.now, call.want).0, Grab(max, s, call.now, call.want).1;
  }

  lemma Chain(max: nat, a: State, b: State, c: State, before: int, take: int)
    requires Covered(max, a, b, before) && Covered(max, b, c, take)
    ensures Covered(max, a, c, before + take)
  {
    Distribute(max, b.lastRefill - a.lastRefill, c.lastRefill - b.lastRefill);
  }

  lemma {:induction false} GrantsCovered(max: nat, s: State, calls: seq<Call>, i: nat, k: nat)
    returns (a: State, b: State, granted: int)
    requires Ok(max, s) && Timed(calls) && i <= k <= |calls|
    ensures a == After(max, s, calls, i) && b == After(max, s, calls, k) && granted == Granted(max, s, calls, i, k)
    ensures Covered(max, a, b, granted)
    decreases k
  {
    if i == k {
      a, b, granted := After(max, s, calls, i), After(max, s, calls, i), 0;
    } else {
      var middle, before;
      a, middle, before := GrantsCovered(max, s, calls, i, k - 1);
      StaysOk(max, s, calls, k - 1);
      var take;
      b, take := CallCovered(max, middle, calls[k - 1]);
      Chain(max, a, middle, b, before, take);
      granted := before + take;
    }
  }

  lemma Distribute(max: nat, x: int, y: int)
    ensures max * (x + y) == max * x + max * y
  {}

  lemma Monotone(max: nat, x: int, y: int)
    requires x <= y
    ensures max * x <= max * y
  {}

  /** New at the given time: no limiter for a rate that is not positive. */
  function Created(max: nat, now: int): State {
    State(max, now)
  }

  /** A new bucket is full: up to a bucket's tokens are granted at once, however soon. */
  lemma FullAtFirst(max: nat, created: int, now: int, n: nat)
    requires n <= max
    ensures Grab(max, Created(max, created), now, n).1 == n
  {
    RefillCovered(max, Created(max, created), now);
    if now > created {
      RefillFills(max, Created(max, created), now);
    }
  }

  /** Grants since creation stay within one bucket plus the rate times the elapsed time. */
  lemma GrantsSinceCreation(max: nat, created: int, calls: seq<Call>, k: nat)
    requires Timed(calls) && 0 < k <= |calls| && created <= calls[0].now
    ensures Ok(max, After(max, Created(max, created), calls, k))
    ensures Granted(max, Created(max, created), calls, 0,
      k) * SECOND <= max * SECOND + max * (calls[k - 1].now - created)
  {
    var s := Created(max, created);
    StaysOk(max, s, calls, k);
    var a, b, granted := GrantsCovered(max, s, calls, 0, k);
    Monotone(max, b.lastRefill - created, calls[k - 1].now - created);
  }

  /** In any window the grants stay below one bucket plus the rate times its length plus one token,
      for every interleaving of callers. */
  lemma GrantsInWindow(max: nat, s: State, calls: seq<Call>, i: nat, k: nat)
    requires Ok(max, s) && Timed(calls) && i < k <= |calls| && s.lastRefill <= calls[0].now
    ensures Granted(max, s, calls, i, k) * SECOND < max * SECOND + max * (calls[k - 1].now - calls[i].now) + SECOND
  {
    StaysOk(max, s, calls, i);
    StaysOk(max, s, calls, k);
    StaysOk(max, s, calls, i + 1);
    var first, b, later := GrantsCovered(max, s, calls, i + 1, k);
    GrantsFrom(max, s, calls, i, i + 1, k);
    var a := After(max, s, calls, i);
    RefillCovered(max, a, calls[i].now);
    var filled := Refilled(max, a, calls[i].now);
    assert Granted(max, s, calls, i, i + 1) == Grab(max, a, calls[i].now, calls[i].want).1;
    assert a.lastRefill <= calls[i].now by {
      if i > 0 {
        assert calls[i - 1].now <= calls[i].now;
      }
    }
    WindowSum(max, filled, b, Granted(max, s, calls, i, k), calls[i].now, calls[k - 1].now);
  }

  lemma WindowSum(max: nat, filled: State, b: State, granted: int, from: int, to: int)
    requires Ok(max, filled) && Ok(max, b) && filled.lastRefill <= from && b.lastRefill <= to
    requires (granted + b.tokens - filled.tokens) * SECOND <= max * (b.lastRefill - filled.lastRefill)
    requires max * (from - filled.lastRefill) < SECOND
    ensures granted * SECOND < max * SECOND + max * (to - from) + SECOND
  {
    Monotone(max, b.lastRefill - filled.lastRefill, (to - from) + (from - filled.lastRefill));
    Distribute(max, to - from, from - filled.lastRefill);
  }

  lemma {:induction false} GrantsFrom(max: nat, s: State, calls: seq<Call>, i: nat, j: nat, k: nat)
    requires i <= j <= k <= |calls|
    ensures Granted(max, s, calls, i, k) == Granted(max, s, calls, i, j) + Granted(max, s, calls, j, k)
    decreases k
  {
    if j < k {
      GrantsFrom(max, s, calls, i, j, k - 1);
    }
  }

  // ----- time is not lost -----

  /** Call j found the bucket not full: what it took and what it left is less than the size. */
  predicate NotFull(max: nat, s: State, calls: seq<Call>, j: nat)
    requires j < |calls|
  {
    var (r, take) := Grab(max, After(max, s, calls, j), calls[j].now, calls[j].want);
    r.tokens + take < max
  }

  /** How many of the calls i to k added tokens. */
  function Refills(max: nat, s: State, calls: seq<Call>, i: nat, k: nat): nat
    requires i <= k <= |calls|
    decreases k
  {
    if i == k then 0
    else
      var added := After(max, s, calls, k).lastRefill != After(max, s, calls, k - 1).lastRefill;
      Refills(max, s, calls, i, k - 1) + if added then 1 else 0
  }

  /** Grants and the tokens left make up the time that passed, up to one token for each refill. */
  ghost predicate MadeUp(max: nat, a: State, b: State, granted: int, refills: nat) {
    max * (b.lastRefill - a.lastRefill) <= (granted + b.tokens - a.tokens + refills) * SECOND
  }

  lemma CallMakesUp(max: nat, s: State, call: Call)
    requires Ok(max, s) && s.lastRefill <= call.now
    requires Grab(max, s, call.now, call.want).0.tokens + Grab(max, s, call.now, call.want).1 < max
    ensures var (r, take) := Grab(max, s, call.now, call.want);
      && MadeUp(max, s, r, take, if r.lastRefill != s.lastRefill then 1 else 0)
      && max * (call.now - r.lastRefill) < SECOND
  {
    RefillCovered(max, s, call.now);
    if s.lastRefill < call.now {
      RefillFills(max, s, call.now);
    }
  }

  lemma ChainUp(max: nat, a: State, b: State, c: State, before: int, take: int, m: nat, n: nat)
    requires MadeUp(max, a, b, before, m) && MadeUp(max, b, c, take, n)
    ensures MadeUp(max, a, c, before + take, m + n)
  {
    Distribute(max, b.lastRefill - a.lastRefill, c.lastRefill - b.lastRefill);
  }

  lemma {:induction false} CallsMakeUp(max: nat, s: State, calls: seq<Call>, i: nat, k: nat)
    returns (a: State, b: State, granted: int, refills: nat)
    requires Ok(max, s) && Timed(calls) && i <= k <= |calls| && (calls != [] ==> s.lastRefill <= calls[0].now)
    requires forall j {:trigger NotFull(max, s, calls, j)} :: i <= j < k ==> NotFull(max, s, calls, j)
    ensures a == After(max, s, calls, i) && b == After(max, s, calls, k)
    ensures granted == Granted(max, s, calls, i, k) && refills == Refills(max, s, calls, i, k)
    ensures MadeUp(max, a, b, granted, refills)
    decreases k
  {
    if i == k {
      a, b, granted, refills := After(max, s, calls, i), After(max, s, calls, i), 0, 0;
    } else {
      var middle, before, m;
      a, middle, before, m := CallsMakeUp(max, s, calls, i, k - 1);
      var call := calls[k - 1];
      StaysOk(max, s, calls, k - 1);
      assert k > 1 ==> calls[k - 2].now <= call.now;
      assert NotFull(max, s, calls, k - 1);
      CallMakesUp(max, middle, call);
      b := Grab(max, middle, call.now, call.want).0;
      var take, n := Grab(max, middle, call.now, call.want).1, if b.lastRefill != middle.lastRefill then 1 else 0;
      ChainUp(max, a, middle, b, before, take, m, n);
      granted, refills := before + take, m + n;
    }
  }

  /** No time is lost: over any calls that never find the bucket full, grants and the growth of the
      bucket come to more than rate times the time passed, less one token for each refill and one. */
  lemma GrantsAtLeast(max: nat, s: State, calls: seq<Call>, i: nat, k: nat)
    requires Ok(max, s) && Timed(calls) && i < k <= |calls| && s.lastRefill <= calls[0].now
    requires forall j {:trigger NotFull(max, s, calls, j)} :: i <= j < k ==> NotFull(max, s, calls, j)
    ensures var a, b := After(max, s, calls, i), After(max, s, calls, k);
      max * (calls[k - 1].now - a.lastRefill)
      < (Granted(max, s, calls, i, k) + b.tokens - a.tokens + Refills(max, s, calls, i, k) + 1) * SECOND
  {
    var a, b, granted, refills := CallsMakeUp(max, s, calls, i, k);
    StaysOk(max, s, calls, k - 1);
    var call := calls[k - 1];
    assert k > 1 ==> calls[k - 2].now <= call.now;
    assert NotFull(max, s, calls, k - 1);
    CallMakesUp(max, After(max, s, calls, k - 1), call);
    UpSum(max, a, b, granted, refills, call.now);
  }

  lemma UpSum(max: nat, a: State, b: State, granted: int, refills: nat, now: int)
    requires MadeUp(max, a, b, granted, refills) && max * (now - b.lastRefill) < SECOND
    ensures max * (now - a.lastRefill) < (granted + b.tokens - a.tokens + refills + 1) * SECOND
  {
    Distribute(max, b.lastRefill - a.lastRefill, now - b.lastRefill);
  }

  // ----- a caller on its own -----

  /** How long Wait sleeps: the truncated time of one token, at least a millisecond. */
  function SleepFor(max: nat): int
    requires max > 0
  {
    if SECOND / max < MILLISECOND then MILLISECOND else SECOND / max
  }

  /** Two sleeps always make up one token, although the division truncates; and one sleep is a
      millisecond, or else no longer than a token takes. */
  lemma TwoSleepsSuffice(max: nat)
    requires max > 0
    ensures 2 * SleepFor(max) * max >= SECOND && SleepFor(max) >= MILLISECOND
    ensures SleepFor(max) == MILLISECOND || SleepFor(max) * max <= SECOND
  {
    var d := SECOND / max;
    assert d * max + SECOND % max == SECOND && SECOND % max < max;
    assert (d + 1) * max > SECOND;
    if d < MILLISECOND {
      Monotone(max, d + 1, MILLISECOND);
    } else {
      assert d * max >= max;
    }
  }

  /** The caller has slept so many times since it last got a token. */
  ghost predicate Rested(max: nat, s: State, now: int, idle: int)
    requires max > 0
  {
    0 <= idle <= 2 && s.lastRefill <= now && now - s.lastRefill >= idle * SleepFor(max)
  }

  lemma OneMoreSleep(max: nat, s: State, now: int, idle: int, nap: int)
    requires max > 0 && Rested(max, s, now, idle) && idle < 2 && nap >= SleepFor(max)
    ensures Rested(max, s, now + nap, idle + 1)
  {
    TwoSleepsSuffice(max);
  }

  class Limiter {
    const maxPerSecond: nat
    var tokens: int
    var lastRefill: int

    constructor (max: nat, now: int)
      requires max > 0
      ensures maxPerSecond == max && Now() == Created(max, now)
    {
      maxPerSecond := max;
      tokens := max;
      lastRefill := now;
    }

    function Now(): State
      reads this
    {
      State(tokens, lastRefill)
    }

    method Refill(now: int)
      modifies this
      ensures Now() == Refilled(maxPerSecond, old(Now()), now)
    {
      var elapsed := now - lastRefill;
      if elapsed <= 0 {
        return;
      }
      var add := elapsed * maxPerSecond / SECOND;
      if add > 0 {
        tokens := tokens + add;
        if tokens > maxPerSecond {
          tokens := maxPerSecond;
        }
        lastRefill := now;
      }
    }

    method Take(now: int, want: int) returns (take: int)
      modifies this
      ensures (Now(), take) == Grab(maxPerSecond, old(Now()), now, want)
    {
      Refill(now);
      take := want;
      if take > tokens {
        take := tokens;
      }
      tokens := tokens - take;
    }

    /** One locked section of Wait, behind the given earlier ones. */
    method Section(now: int, left: nat, ghost idle: int, ghost s: State, ghost calls: seq<Call>, ghost granted: int)
      returns (take: int)
      requires maxPerSecond > 0 && Ok(maxPerSecond, Now()) && lastRefill <= now && left > 0
      requires Rested(maxPerSecond, Now(), now, idle)
      requires Taken(maxPerSecond, s, calls, Now(), granted)
      modifies this
      ensures Ok(maxPerSecond, Now()) && lastRefill <= now && 0 <= take <= left
      ensures (take > 0 || idle < 2) && (take == 0 ==> lastRefill == old(lastRefill))
      ensures Taken(maxPerSecond, s, calls + [Call(now, left)], Now(), granted + take)
      ensures take == Least(left, Refilled(maxPerSecond, old(Now()), now).tokens)
    {
      TwoSleepsFill(maxPerSecond, Now(), now, left, idle);
      GrabKeeps(maxPerSecond, Now(), now, left);
      TakenOneMore(maxPerSecond, s, calls, Now(), granted, Call(now, left));
      take := Take(now, left);
    }

    /** Wait of a caller that has the limiter to itself: nap(i) is how long its i-th sleep really
        takes. Its locked sections take exactly n tokens, and it returns after at most two sleeps
        per token. */
    method Wait(n: int, start: int, nap: nat -> int) returns (sleeps: nat, now: int, ghost calls: seq<Call>)
      requires maxPerSecond > 0 && Ok(maxPerSecond, Now()) && lastRefill <= start
      requires forall i :: nap(i) >= SleepFor(maxPerSecond)
      modifies this
      ensures Ok(maxPerSecond, Now()) && lastRefill <= now
      ensures if n <= 0 then sleeps == 0 else sleeps <= 2 * n
      ensures Taken(maxPerSecond, old(Now()), calls, Now(), if n <= 0 then 0 else n)
      ensures n <= Refilled(maxPerSecond, old(Now()), start).tokens ==> sleeps == 0 && now == start
    {
      var left := n;
      ghost var idle := 0;
      sleeps, now, calls := 0, start, [];
      TwoSleepsSuffice(maxPerSecond);
      while left > 0
        invariant Ok(maxPerSecond, Now()) && lastRefill <= now
        invariant Rested(maxPerSecond, Now(), now, idle)
        invariant if n <= 0 then sleeps == 0 && left == n else 0 <= left <= n && sleeps <= 2 * (n - left) + idle
        invariant left <= 0 ==> n <= 0 || sleeps <= 2 * n
        invariant sleeps == 0 && left > 0 ==> left == n && now == start && Now() == old(Now())
        invariant n <= Refilled(maxPerSecond, old(Now()), start).tokens ==> sleeps == 0 && now == start
        invariant Taken(maxPerSecond, old(Now()), calls, Now(), if n <= 0 then 0 else n - left)
        decreases left, 2 - idle
      {
        var take := Section(now, left, idle, old(Now()), calls, n - left);
        calls := calls + [Call(now, left)];
        left := left - take;
        if take > 0 {
          idle := 0;
        }
        if left > 0 {
          OneMoreSleep(maxPerSecond, Now(), now, idle, nap(sleeps));
          now := now + nap(sleeps);
          sleeps := sleeps + 1;
          idle := idle + 1;
        }
      }
    }
  }

  /** The calls lead to the state and take so many tokens. */
  ghost predicate Taken(max: nat, s: State, calls: seq<Call>, now: State, granted: int) {
    now == After(max, s, calls, |calls|) && granted == Granted(max, s, calls, 0, |calls|)
  }

  lemma {:induction false} AfterPrefix(max: nat, s: State, calls: seq<Call>, call: Call, k: nat)
    requires k <= |calls|
    ensures After(max, s, calls + [call], k) == After(max, s, calls, k)
    ensures Granted(max, s, calls + [call], 0, k) == Granted(max, s, calls, 0, k)
  {
    if k > 0 {
      AfterPrefix(max, s, calls, call, k - 1);
    }
  }

  lemma TakenOneMore(max: nat, s: State, calls: seq<Call>, now: State, granted: int, call: Call)
    requires Taken(max, s, calls, now, granted)
    ensures var (next, take) := Grab(max, now, call.now, call.want);
      Taken(max, s, calls + [call], next, granted + take)
  {
    AfterPrefix(max, s, calls, call, |calls|);
  }

  /** After two sleeps without a token there is one to take. */
  lemma TwoSleepsFill(max: nat, s: State, now: int, want: int, idle: int)
    requires max > 0 && Ok(max, s) && want > 0 && Rested(max, s, now, idle)
    ensures var (r, take) := Grab(max, s, now, want);
      (take > 0 || idle < 2) && (take == 0 ==> r.lastRefill == s.lastRefill)
  {
    RefillCovered(max, s, now);
    TwoSleepsSuffice(max);
    if idle == 2 {
      Monotone(max, 2 * SleepFor(max), now - s.lastRefill);
    }
  }
}
