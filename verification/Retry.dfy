/**
  The retry timetable of a delivery run (`webhook_retry_delay`) and what it means for probes.
*/
module Retry {
  import opened Wrappers
  import opened Circuit

  type usize = n: nat | n < 0x1_0000_0000_0000_0000

  const CLIENT_TIMEOUT: nat := 10
  const U32_RANGE: nat := 0x1_0000_0000

  function Pow2(e: nat): nat {
    if e == 0 then 1 else 2 * Pow2(e - 1)
  }

  /** `u64` arithmetic that sticks at the largest value. */
  function Saturate(n: nat): u64 {
    if n <= U64_MAX then n else U64_MAX
  }

  /** `webhook_retry_delay`, in seconds. The cast `(n - 3) as u32` drops the high bits. */
  function RetryDelay(attempt: usize): nat {
    match attempt
    case 0 => 0
    case 1 => 5
    case 2 => 30
    case n => Min(Saturate(60 * Saturate(Pow2((n - 3) % U32_RANGE))), 300)
  }

  /** Seconds slept by a delivery run that makes `m` attempts. */
  function TotalSleep(m: usize): nat {
    if m == 0 then 0 else TotalSleep(m - 1) + RetryDelay(m - 1)
  }

  /** The longest a run of `m` attempts can take: every attempt runs into the client timeout. */
  function LongestRun(m: usize): nat {
    TotalSleep(m) + m * CLIENT_TIMEOUT
  }

  lemma {:induction false} Pow2AtLeast8(e: nat)
    requires e >= 3
    ensures Pow2(e) >= 8
  {
    if e > 3 {
      Pow2AtLeast8(e - 1);
    } else {
      assert Pow2(1) == 2 && Pow2(2) == 4;
    }
  }

  /** The ladder 0, 5, 30, 60, 120, 240, 300, 300, ... restarts when the exponent wraps. */
  lemma DelayLadder(n: usize)
    requires n >= 3
    ensures var e := (n - 3) % U32_RANGE;
            RetryDelay(n) == if e == 0 then 60 else if e == 1 then 120 else if e == 2 then 240 else 300
  {
    var e := (n - 3) % U32_RANGE;
    assert Pow2(0) == 1 && Pow2(1) == 2 && Pow2(2) == 4;
    if e >= 3 {
      Pow2AtLeast8(e);
    }
  }

  lemma ShortRuns()
    ensures TotalSleep(1) == 0 && TotalSleep(2) == 5 && TotalSleep(3) == 35
    ensures TotalSleep(4) == 95 && TotalSleep(5) == 215 && TotalSleep(6) == 455
  {
  }

  lemma {:induction false} SleepWithinRange(m: usize)
    requires 6 <= m <= U32_RANGE + 3
    ensures TotalSleep(m) == 455 + 300 * (m - 6)
  {
    if m == 6 {
      ShortRuns();
    } else {
      SleepWithinRange(m - 1);
      DelayLadder(m - 1);
    }
  }

  lemma {:induction false} SleepBeyondRange(m: usize)
    requires U32_RANGE + 3 < m
    ensures TotalSleep(m) < 455 + 300 * (m - 6)
    decreases m
  {
    DelayLadder(m - 1);
    if m - 1 == U32_RANGE + 3 {
      SleepWithinRange(m - 1);
      assert (m - 1 - 3) % U32_RANGE == 0;
    } else {
      SleepBeyondRange(m - 1);
    }
  }

  /** A run of m >= 6 attempts sleeps 455 + 300(m - 6) seconds exactly when its attempts stay within
      the range of the 32-bit exponent. */
  lemma SleepClosedForm(m: usize)
    requires m >= 6
    ensures TotalSleep(m) == 455 + 300 * (m - 6) <==> m <= U32_RANGE + 3
  {
    if m <= U32_RANGE + 3 {
      SleepWithinRange(m);
    } else {
      SleepBeyondRange(m);
    }
  }

  lemma {:induction false} SleepGrows(a: usize, b: usize)
    requires a <= b
    ensures TotalSleep(a) <= TotalSleep(b)
    decreases b
  {
    if a < b {
      SleepGrows(a, b - 1);
    }
  }

  /** A run is over before its probe is given up exactly when it makes at most six attempts. */
  lemma RunOutlivesProbe(m: usize)
    ensures LongestRun(m) < 600 <==> m <= 6
  {
    ShortRuns();
    if m <= 6 {
      SleepGrows(m, 6);
    } else {
      SleepWithinRange(7);
      SleepGrows(7, m);
    }
  }

  /** A run is over before the shortest cooldown ends exactly when it makes at most five attempts. */
  lemma RunOutlivesCooldown(m: usize)
    ensures LongestRun(m) < 300 <==> m <= 5
  {
    ShortRuns();
    if m <= 5 {
      SleepGrows(m, 5);
    } else {
      SleepGrows(6, m);
    }
  }
}
