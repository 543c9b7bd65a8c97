/** The token bucket (pkg/ratelimit/limiter.go), with real numbers in place of float64 and times in
    seconds. The clock and the scheduling are inputs. */
module RateLimiter {
  datatype Bucket = Bucket(rate: int, burst: real, tokens: real, last: real)

  function Min(a: real, b: real): real {
    if a < b then a else b
  }

  /** An enabled limiter as New leaves it, and as every round keeps it. */
  predicate Sound(b: Bucket) {
    b.rate > 0 && b.burst >= 1.0 && 0.0 <= b.tokens <= b.burst
  }

  /** The units that flow in from one time to another. */
  function Inflow(rate: int, from: real, to: real): real {
    rate as real * (to - from)
  }

  lemma InflowNonNegative(rate: int, from: real, to: real)
    requires rate > 0 && from <= to
    ensures Inflow(rate, from, to) >= 0.0
  {
    MulNonNegative(rate as real, to - from);
  }

  lemma InflowSplits(rate: int, a: real, b: real, c: real)
    ensures Inflow(rate, a, c) == Inflow(rate, a, b) + Inflow(rate, b, c)
  {
    Distribute(rate as real, b - a, c - b);
    assert (b - a) + (c - b) == c - a;
  }

  lemma Distribute(r: real, x: real, y: real)
    ensures r * (x + y) == r * x + r * y
  {
  }

  /** refillLocked. */
  function Refilled(b: Bucket, now: real): Bucket {
    if now <= b.last then b else b.(tokens := Min(b.tokens + Inflow(b.rate, b.last, now), b.burst), last := now)
  }

  /** One locked round of a waiter that still wants `want` units: refill, then take what there is. */
  function Took(b: Bucket, now: real, want: real): real {
    var full := Refilled(b, now);
    if full.tokens > 0.0 then Min(want, full.tokens) else 0.0
  }

  function Rounded(b: Bucket, now: real, want: real): Bucket {
    Refilled(b, now).(tokens := Refilled(b, now).tokens - Took(b, now, want))
  }

  /** durationForUnits, in seconds: rounded up to whole nanoseconds, at least one. */
  function DurationForUnits(units: real, rate: int): real {
    if units <= 0.0 || rate <= 0 then 0.0
    else
      var nanos := Ceil(units / rate as real * 1000000000.0);
      (if nanos < 1 then 1.0 else nanos as real) / 1000000000.0
  }

  function Ceil(x: real): int {
    -((-x).Floor)
  }

  /** How long a waiter sleeps after a round that left it wanting `rest`. */
  function Pause(b: Bucket, rest: real): real {
    var need := Min(rest, b.burst) - b.tokens;
    DurationForUnits(if need < 1.0 then 1.0 else need, b.rate)
  }

  // ---- the limiter object ----

  class Limiter {
    const rate: int
    const burst: real
    var tokens: real
    var last: real

    ghost function Contents(): Bucket
      reads this
    {
      Bucket(rate, burst, tokens, last)
    }

    predicate Enabled() {
      rate > 0
    }

    ghost predicate Valid()
      reads this
    {
      Enabled() ==> Sound(Contents())
    }

    constructor (rate: int, burst: int, now: real)
      ensures Valid() && Enabled() == (rate > 0)
      ensures rate > 0 ==>
        var b := (if burst <= 0 then rate else burst) as real; Contents() == Bucket(rate, b, b, now)
    {
      if rate <= 0 {
        this.rate, this.burst, tokens, last := 0, 0.0, 0.0, 0.0;
      } else {
        var effective := if burst <= 0 then rate else burst;
        this.rate, this.burst, tokens, last := rate, effective as real, effective as real, now;
      }
    }

    method RefillLocked(now: real)
      requires Valid() && Enabled()
      modifies this
      ensures Valid() && Contents() == Refilled(old(Contents()), now)
    {
      RefillSound(Contents(), now);
      var elapsed := now - last;
      if elapsed <= 0.0 {
        return;
      }
      tokens := tokens + rate as real * elapsed;
      if tokens > burst {
        tokens := burst;
      }
      last := now;
    }

    /** One round of Wait: what is left to take, and how long to sleep if anything is. */
    method Round(now: real, remaining: real) returns (rest: real, waitFor: real)
      requires Valid() && Enabled() && remaining > 0.0
      modifies this
      ensures Valid() && Contents() == Rounded(old(Contents()), now, remaining)
      ensures rest == remaining - Took(old(Contents()), now, remaining) >= 0.0
      ensures rest > 0.0 ==> waitFor == Pause(Contents(), rest)
    {
      rest, waitFor := remaining, 0.0;
      RefillLocked(now);
      if tokens > 0.0 {
        var consume := Min(rest, tokens);
        tokens := tokens - consume;
        rest := rest - consume;
      }
      if rest > 0.0 {
        var nextChunk := Min(rest, burst);
        var need := nextChunk - tokens;
        if need < 1.0 {
          need := 1.0;
        }
        waitFor := DurationForUnits(need, rate);
      }
    }

    /** Wait, for a lone waiter that is not cancelled: after each sleep it runs again, `late(k)` seconds late.
        The history of its rounds is the one a lone waiter has, and it is what happened to the bucket. */
    method Wait(n: int, start: real, late: nat -> real) returns (rounds: nat, taken: real, ghost turns: seq<Turn>)
      requires Valid() && (forall k :: late(k) >= 0.0) && (Enabled() ==> last <= start)
      modifies this
      ensures Valid() && |turns| == rounds
      ensures !Enabled() || n <= 0 ==> turns == [] && Contents() == old(Contents())
      ensures Enabled() && n > 0 ==>
        && Lone(old(Contents()), n as real, start, 0, late, turns)
        && Timed(turns, old(last)) && Contents() == After(old(Contents()), turns)
        && TakenBy(old(Contents()), turns) == taken == n as real
        && rounds <= 1 + Ceil(n as real / burst)
    {
      rounds, taken, turns := 0, 0.0, [];
      if !Enabled() || n <= 0 {
        return;
      }
      var remaining, now := n as real, start;
      ghost var first := Contents();
      FirstRound(n, first, now);
      NothingYet(first, n as real, start, late);
      while remaining > 0.0
        invariant Valid() && |turns| == rounds && Going(n, first, start, late, turns, taken, Contents(), remaining, now, rounds)
        decreases 1 + Ceil(n as real / burst) - rounds
      {
        ghost var b, want, at, k := Contents(), remaining, now, rounds;
        EnoughRounds(n, burst, rounds, remaining);
        var waitFor, rest;
        rest, waitFor := Round(now, remaining);
        now := if rest > 0.0 then now + waitFor + late(rounds) else now;
        GoesOn(n, first, start, late, turns, taken, b, want, at, k, Contents(), rest, now);
        turns := turns + [Turn(at, want)];
        taken := taken + (remaining - rest);
        remaining := rest;
        rounds := rounds + 1;
      }
      Finished(n, first, start, late, turns, taken, Contents(), remaining, now, rounds);
    }
  }

  /** The rounds of a lone waiter: one now, and after each that leaves something wanting, the next one its pause and
      `late(k)` seconds later. */
  ghost predicate Lone(b: Bucket, want: real, now: real, k: nat, late: nat -> real, turns: seq<Turn>)
    decreases |turns|
  {
    if want <= 0.0 then turns == []
    else
      && turns != [] && turns[0] == Turn(now, want)
      && var rest, c := want - Took(b, now, want), Rounded(b, now, want);
         Lone(c, rest, NextRound(c, rest, now, late(k)), k + 1, late, turns[1..])
  }

  function NextRound(b: Bucket, rest: real, now: real, late: real): real {
    if rest > 0.0 then now + Pause(b, rest) + late else now
  }

  /** The units a sequence of rounds takes. */
  function TakenBy(b: Bucket, turns: seq<Turn>): real
    decreases turns
  {
    if turns == [] then 0.0
    else Took(b, turns[0].now, turns[0].want) + TakenBy(Rounded(b, turns[0].now, turns[0].want), turns[1..])
  }

  /** Whatever a lone waiter goes on to do from here completes `turns` to what it does from the start. */
  ghost predicate Continued(
      first: Bucket, n: real, start: real, late: nat -> real, turns: seq<Turn>, taken: real,
      b: Bucket, want: real, now: real, k: nat)
  {
    forall tail: seq<Turn> :: Lone(b, want, now, k, late, tail) ==>
      && Lone(first, n, start, 0, late, turns + tail)
      && After(first, turns + tail) == After(b, tail)
      && TakenBy(first, turns + tail) == taken + TakenBy(b, tail)
  }

  lemma NothingYet(first: Bucket, n: real, start: real, late: nat -> real)
    ensures Continued(first, n, start, late, [], 0.0, first, n, start, 0)
  {
    assert forall tail: seq<Turn> :: [] + tail == tail;
  }

  lemma ContinuedOn(
      first: Bucket, n: real, start: real, late: nat -> real, turns: seq<Turn>, taken: real,
      b: Bucket, want: real, now: real, k: nat)
    requires want > 0.0 && Continued(first, n, start, late, turns, taken, b, want, now, k)
    ensures var rest, c := want - Took(b, now, want), Rounded(b, now, want);
      Continued(first, n, start, late, turns + [Turn(now, want)], taken + Took(b, now, want),
                c, rest, NextRound(c, rest, now, late(k)), k + 1)
  {
    var rest, c := want - Took(b, now, want), Rounded(b, now, want);
    forall tail: seq<Turn> | Lone(c, rest, NextRound(c, rest, now, late(k)), k + 1, late, tail)
      ensures Lone(first, n, start, 0, late, turns + [Turn(now, want)] + tail)
      ensures After(first, turns + [Turn(now, want)] + tail) == After(c, tail)
      ensures TakenBy(first, turns + [Turn(now, want)] + tail) == taken + Took(b, now, want) + TakenBy(c, tail)
    {
      var longer := [Turn(now, want)] + tail;
      assert longer[1..] == tail;
      assert Lone(b, want, now, k, late, longer);
      assert turns + [Turn(now, want)] + tail == turns + longer;
    }
  }

  /** Between rounds: the waiter is as a lone waiter is, and what it did so far is the start of what it does. */
  ghost predicate Going(
      n: int, first: Bucket, start: real, late: nat -> real, turns: seq<Turn>, taken: real,
      b: Bucket, want: real, now: real, k: nat)
  {
    Waiting(n, b, want, k, now) && Continued(first, n as real, start, late, turns, taken, b, want, now, k)
  }

  lemma GoesOn(
      n: int, first: Bucket, start: real, late: nat -> real, turns: seq<Turn>, taken: real,
      b: Bucket, want: real, now: real, k: nat, c: Bucket, rest: real, next: real)
    requires n > 0 && want > 0.0 && late(k) >= 0.0 && Going(n, first, start, late, turns, taken, b, want, now, k)
    requires rest == want - Took(b, now, want) && c == Rounded(b, now, want) && next == NextRound(c, rest, now, late(k))
    ensures Going(n, first, start, late, turns + [Turn(now, want)], taken + (want - rest), c, rest, next, k + 1)
  {
    RoundKeeps(n, b, want, k, now, late(k));
    ContinuedOn(first, n as real, start, late, turns, taken, b, want, now, k);
  }

  lemma Finished(
      n: int, first: Bucket, start: real, late: nat -> real, turns: seq<Turn>, taken: real,
      b: Bucket, want: real, now: real, k: nat)
    requires n > 0 && Sound(first) && first.last <= start && forall i :: late(i) >= 0.0
    requires want <= 0.0 && Going(n, first, start, late, turns, taken, b, want, now, k)
    ensures Lone(first, n as real, start, 0, late, turns) && After(first, turns) == b && TakenBy(first, turns) == taken == n as real
    ensures Timed(turns, first.last) && k <= 1 + Ceil(n as real / b.burst)
  {
    assert Lone(b, want, now, k, late, []) && turns + [] == turns;
    LoneMeans(first, n as real, start, 0, late, turns);
  }

  /** The rounds of a lone waiter come in order of time and take exactly what it wanted. */
  lemma {:induction false} LoneMeans(b: Bucket, want: real, now: real, k: nat, late: nat -> real, turns: seq<Turn>)
    requires Sound(b) && want >= 0.0 && b.last <= now && (forall i :: late(i) >= 0.0) && Lone(b, want, now, k, late, turns)
    ensures Timed(turns, b.last) && TakenBy(b, turns) == want
    decreases |turns|
  {
    if want > 0.0 {
      var rest, c := want - Took(b, now, want), Rounded(b, now, want);
      RoundSound(b, now, want);
      RefillIs(b, now);
      PauseNonNegative(c, rest);
      LoneMeans(c, rest, NextRound(c, rest, now, late(k)), k + 1, late, turns[1..]);
    }
  }

  /** What is left is at most n less a whole burst for every round after the first. */
  predicate Left(n: int, burst: real, rounds: nat, remaining: real) {
    remaining <= n as real - (rounds as real - 1.0) * burst
  }

  /** A lone waiter between rounds: it has emptied the bucket and slept long enough. */
  ghost predicate Waiting(n: int, b: Bucket, remaining: real, rounds: nat, now: real) {
    && Sound(b) && remaining >= 0.0 && b.last <= now && remaining <= n as real
    && (rounds > 0 && remaining > 0.0 ==> Left(n, b.burst, rounds, remaining) && b.tokens == 0.0 && now >= b.last + Pause(b, remaining))
    && rounds <= 1 + Ceil(n as real / b.burst)
  }

  lemma FirstRound(n: int, b: Bucket, now: real)
    requires Sound(b) && n > 0 && b.last <= now
    ensures Waiting(n, b, n as real, 0, now)
  {
    CeilOf(n as real / b.burst);
  }

  lemma RoundKeeps(n: int, b: Bucket, remaining: real, rounds: nat, now: real, late: real)
    requires n > 0 && Waiting(n, b, remaining, rounds, now) && remaining > 0.0 && late >= 0.0
    ensures var rest := remaining - Took(b, now, remaining);
      var c := Rounded(b, now, remaining);
      Waiting(n, c, rest, rounds + 1, if rest > 0.0 then now + Pause(c, rest) + late else now)
    ensures rounds < 1 + Ceil(n as real / b.burst)
  {
    var rest, c := remaining - Took(b, now, remaining), Rounded(b, now, remaining);
    RoundSound(b, now, remaining);
    RefillIs(b, now);
    EnoughRounds(n, b.burst, rounds, remaining);
    if rest > 0.0 {
      RestMeansEmpty(b, now, remaining);
      PauseNonNegative(c, rest);
      if rounds > 0 {
        ChunkArrives(b, now, remaining);
      }
      BurstLess(n, b.burst, rounds, remaining, rest);
    }
  }

  lemma BurstLess(n: int, burst: real, rounds: nat, remaining: real, rest: real)
    requires remaining <= n as real && rest <= remaining
    requires rounds > 0 ==> Left(n, burst, rounds, remaining) && rest <= remaining - burst
    ensures Left(n, burst, rounds + 1, rest)
  {
    Distribute(burst, rounds as real - 1.0, 1.0);
  }

  lemma EnoughRounds(n: int, burst: real, rounds: nat, remaining: real)
    requires n > 0 && burst >= 1.0 && remaining > 0.0 && (rounds > 0 ==> Left(n, burst, rounds, remaining))
    ensures rounds <= Ceil(n as real / burst)
  {
    CeilOf(n as real / burst);
    if rounds > 0 {
      FewRounds(n, burst, rounds);
    }
  }

  lemma CeilOf(x: real)
    requires x >= 0.0
    ensures Ceil(x) >= 0 && x <= Ceil(x) as real < x + 1.0
  {
  }

  lemma DurationSuffices(units: real, rate: int)
    requires units > 0.0 && rate > 0
    ensures DurationForUnits(units, rate) * rate as real >= units
    ensures DurationForUnits(units, rate) > 0.0
  {
    var exact := units / rate as real;
    assert exact > 0.0;
    var nanos := Ceil(exact * 1000000000.0);
    CeilOf(exact * 1000000000.0);
    assert DurationForUnits(units, rate) >= exact;
    ScaleUp(DurationForUnits(units, rate), exact, rate as real);
  }

  /** The sleep is never a whole nanosecond longer than the units take to flow in. */
  lemma DurationTight(units: real, rate: int)
    requires units > 0.0 && rate > 0
    ensures units / rate as real <= DurationForUnits(units, rate) < units / rate as real + 0.000000001
  {
    var exact := units / rate as real;
    assert exact > 0.0;
    CeilOf(exact * 1000000000.0);
  }

  /** A waiter sleeps, to the nanosecond, until what it lacks of the next burst has flowed in, but for one unit at least. */
  lemma PauseTight(b: Bucket, rest: real)
    requires Sound(b) && rest > 0.0
    ensures var need := Min(rest, b.burst) - b.tokens;
      var exact := (if need < 1.0 then 1.0 else need) / b.rate as real;
      exact <= Pause(b, rest) < exact + 0.000000001
  {
    var need := Min(rest, b.burst) - b.tokens;
    var units := if need < 1.0 then 1.0 else need;
    DurationTight(units, b.rate);
  }

  lemma ScaleUp(a: real, b: real, c: real)
    requires a >= b && c >= 0.0
    ensures a * c >= b * c
  {
    MulNonNegative(a - b, c);
  }

  lemma PauseNonNegative(b: Bucket, rest: real)
    requires b.rate > 0
    ensures Pause(b, rest) > 0.0
  {
    var need := Min(rest, b.burst) - b.tokens;
    DurationSuffices(if need < 1.0 then 1.0 else need, b.rate);
  }

  /** After its pause, a waiter facing an empty bucket gets all it wants, or a whole burst. */
  lemma ChunkArrives(b: Bucket, now: real, want: real)
    requires Sound(b) && b.tokens == 0.0 && want > 0.0 && now >= b.last + Pause(b, want)
    ensures Took(b, now, want) >= Min(want, b.burst)
  {
    PauseNonNegative(b, want);
    PauseSuffices(b, want, now);
    RefillIs(b, now);
  }

  lemma PauseSuffices(b: Bucket, want: real, now: real)
    requires b.rate > 0 && b.tokens == 0.0 && want > 0.0 && now >= b.last + Pause(b, want)
    ensures Inflow(b.rate, b.last, now) >= Min(want, b.burst)
  {
    var need := Min(want, b.burst);
    var units := if need < 1.0 then 1.0 else need;
    DurationSuffices(units, b.rate);
    InflowSuffices(b.rate, b.last, now, DurationForUnits(units, b.rate), units);
  }

  lemma InflowSuffices(rate: int, from: real, to: real, seconds: real, units: real)
    requires rate > 0 && seconds * rate as real >= units && from + seconds <= to
    ensures Inflow(rate, from, to) >= units
  {
    ScaleUp(to - from, seconds, rate as real);
  }

  /** A round that leaves something wanting has emptied the bucket. */
  lemma RestMeansEmpty(b: Bucket, now: real, want: real)
    requires Sound(b) && want > 0.0 && want - Took(b, now, want) > 0.0
    ensures Rounded(b, now, want).tokens == 0.0
  {
    RefillSound(b, now);
  }

  lemma FewRounds(n: int, burst: real, rounds: nat)
    requires burst >= 1.0 && rounds > 0 && n as real - (rounds as real - 1.0) * burst > 0.0
    ensures rounds <= Ceil(n as real / burst)
  {
    var q := n as real / burst;
    assert q * burst == n as real;
    if rounds as real - 1.0 >= q {
      ScaleUp(rounds as real - 1.0, q, burst);
    }
  }

  lemma RefillSound(b: Bucket, now: real)
    requires Sound(b)
    ensures Sound(Refilled(b, now))
  {
    if now > b.last {
      InflowNonNegative(b.rate, b.last, now);
    }
  }

  lemma MulNonNegative(a: real, b: real)
    requires a >= 0.0 && b >= 0.0
    ensures a * b >= 0.0
  {
  }

  // ---- every interleaving ----

  /** One locked round of some waiter, at the time it reads inside the lock. */
  datatype Turn = Turn(now: real, want: real)

  /** The lock orders the rounds, and the clock never goes back. */
  ghost predicate Timed(turns: seq<Turn>, from: real) {
    turns != [] ==> from <= turns[0].now && turns[0].want >= 0.0 && Timed(turns[1..], turns[0].now)
  }

  function After(b: Bucket, turns: seq<Turn>): Bucket
    decreases turns
  {
    if turns == [] then b else After(Rounded(b, turns[0].now, turns[0].want), turns[1..])
  }

  /** Units granted, over all waiters, at times in [from, to]. */
  function Granted(b: Bucket, turns: seq<Turn>, from: real, to: real): real
    decreases turns
  {
    if turns == [] then 0.0
    else
      (if from <= turns[0].now <= to then Took(b, turns[0].now, turns[0].want) else 0.0)
      + Granted(Rounded(b, turns[0].now, turns[0].want), turns[1..], from, to)
  }

  lemma RoundSound(b: Bucket, now: real, want: real)
    requires Sound(b) && want >= 0.0
    ensures Sound(Rounded(b, now, want)) && 0.0 <= Took(b, now, want) <= want
  {
    RefillSound(b, now);
  }

  /** Tokens stay within [0, burst] in every interleaving. */
  lemma {:induction false} TokensBounded(b: Bucket, turns: seq<Turn>)
    requires Sound(b) && Timed(turns, b.last)
    ensures 0.0 <= After(b, turns).tokens <= b.burst && After(b, turns).burst == b.burst && After(b, turns).rate == b.rate
    decreases turns
  {
    if turns != [] {
      RoundSound(b, turns[0].now, turns[0].want);
      TokensBounded(Rounded(b, turns[0].now, turns[0].want), turns[1..]);
    }
  }

  /** What a bucket can still give out in [from, to]: what it holds when the window opens, and the inflow since. */
  function Supply(b: Bucket, from: real, to: real): real {
    if to < b.last then 0.0
    else if b.last < from then Min(b.tokens + Inflow(b.rate, b.last, from), b.burst) + Inflow(b.rate, from, to)
    else b.tokens + Inflow(b.rate, b.last, to)
  }

  /** A round before the window opens takes nothing from its supply that could have been added. */
  lemma SpentBefore(b: Bucket, now: real, want: real, from: real, to: real)
    requires Sound(b) && b.last <= now < from <= to && want >= 0.0
    ensures Supply(Rounded(b, now, want), from, to) <= Supply(b, from, to)
  {
    RoundSound(b, now, want);
    InflowSplits(b.rate, b.last, now, from);
    InflowNonNegative(b.rate, now, from);
    RefillIs(b, now);
  }

  lemma RefillIs(b: Bucket, now: real)
    requires Sound(b) && b.last <= now
    ensures Refilled(b, now) == b.(tokens := Min(b.tokens + Inflow(b.rate, b.last, now), b.burst), last := now)
  {
    if now == b.last {
      assert Inflow(b.rate, b.last, now) == 0.0;
    }
  }

  /** A round within the window takes its units from the supply. */
  lemma SpentWithin(b: Bucket, now: real, want: real, from: real, to: real)
    requires Sound(b) && b.last <= now && from <= now <= to && want >= 0.0
    ensures Took(b, now, want) + Supply(Rounded(b, now, want), from, to) <= Supply(b, from, to)
  {
    RoundSound(b, now, want);
    RefillIs(b, now);
    if b.last < from {
      InflowSplits(b.rate, b.last, from, now);
      InflowSplits(b.rate, from, now, to);
      InflowNonNegative(b.rate, from, now);
    } else {
      InflowSplits(b.rate, b.last, now, to);
    }
  }

  lemma SupplySpent(b: Bucket, now: real, want: real, from: real, to: real)
    requires Sound(b) && b.last <= now && want >= 0.0 && from <= to
    ensures (if from <= now <= to then Took(b, now, want) else 0.0) + Supply(Rounded(b, now, want), from, to) <= Supply(b, from, to)
  {
    if now < from {
      SpentBefore(b, now, want, from, to);
    } else if now <= to {
      SpentWithin(b, now, want, from, to);
    } else {
      RefillIs(b, now);
      SupplyNonNegative(b, from, to);
    }
  }

  lemma SupplyNonNegative(b: Bucket, from: real, to: real)
    requires Sound(b) && from <= to
    ensures 0.0 <= Supply(b, from, to)
  {
    InflowNonNegative(b.rate, from, to);
    if b.last < from {
      InflowNonNegative(b.rate, b.last, from);
    } else if b.last <= to {
      InflowNonNegative(b.rate, b.last, to);
    }
  }

  lemma {:induction false} GrantedWithinSupply(b: Bucket, turns: seq<Turn>, from: real, to: real)
    requires Sound(b) && Timed(turns, b.last) && from <= to
    ensures Granted(b, turns, from, to) <= Supply(b, from, to)
    decreases turns
  {
    if turns == [] {
      SupplyNonNegative(b, from, to);
    } else {
      RoundSound(b, turns[0].now, turns[0].want);
      SupplySpent(b, turns[0].now, turns[0].want, from, to);
      GrantedWithinSupply(Rounded(b, turns[0].now, turns[0].want), turns[1..], from, to);
    }
  }

  /** For any interleaving of waiters, the units granted in any time window are at most
      burst + rate * (length of the window). */
  lemma WindowBound(b: Bucket, turns: seq<Turn>, from: real, to: real)
    requires Sound(b) && Timed(turns, b.last) && from <= to
    ensures Granted(b, turns, from, to) <= b.burst + Inflow(b.rate, from, to)
  {
    GrantedWithinSupply(b, turns, from, to);
    InflowNonNegative(b.rate, from, to);
    if from <= b.last <= to {
      InflowSplits(b.rate, from, b.last, to);
      InflowNonNegative(b.rate, from, b.last);
    }
  }
}
