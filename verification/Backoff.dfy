/** Exponential backoff in 64-bit wrap-around arithmetic, and when a failing job gives up. */
module Backoff {
  import opened Basics

  const MAX_INT64 := 0x7FFF_FFFF_FFFF_FFFF
  const TWO_64 := 0x1_0000_0000_0000_0000
  const MAX_EXPONENT := 32

  /** What a mathematical product is as a time.Duration. */
  function Wrap(x: int): (d: int)
    ensures -MAX_INT64 - 1 <= d <= MAX_INT64
    ensures -MAX_INT64 - 1 <= x <= MAX_INT64 ==> d == x
  {
    (x + MAX_INT64 + 1) % TWO_64 - MAX_INT64 - 1
  }

  function Pow2(n: nat): (p: nat)
    ensures p >= 1
  {
    if n == 0 then 1 else 2 * Pow2(n - 1)
  }

  function NextBackoff(retries: nat, base: int, maxBackoff: int): int {
    var exp := if retries > MAX_EXPONENT then MAX_EXPONENT else retries;
    var d := Wrap(base * Pow2(exp));
    if d > maxBackoff || d < 0 then maxBackoff else d
  }

  /** What the documentation says, with the exponent as the code clamps it. */
  function Intended(retries: nat, base: int, maxBackoff: int): int {
    Min(base * Pow2(Min(retries, 32)), maxBackoff)
  }

  /** Whatever wraps, a job never waits less than nothing or more than the cap. */
  lemma BackoffInRange(retries: nat, base: int, maxBackoff: int)
    requires 0 < base <= 0x7FFF_FFFF_FFFF_FFFF && 0 < maxBackoff <= 0x7FFF_FFFF_FFFF_FFFF
    ensures 0 <= NextBackoff(retries, base, maxBackoff) <= maxBackoff
  {
  }

  /**
   The wait is as intended exactly unless the product overflows and lands between zero and the cap,
   where the guard for negative values does not see it.
  */
  lemma BackoffIsIntendedIff(retries: nat, base: int, maxBackoff: int)
    requires 0 < base <= 0x7FFF_FFFF_FFFF_FFFF && 0 < maxBackoff <= 0x7FFF_FFFF_FFFF_FFFF
    ensures var product := base * Pow2(Min(retries, 32));
            NextBackoff(retries, base, maxBackoff) == Intended(retries, base, maxBackoff)
            <==> !(product > 0x7FFF_FFFF_FFFF_FFFF && 0 <= Wrap(product) < maxBackoff)
  {
    hide Wrap;
    assert base * Pow2(Min(retries, 32)) >= 0;
  }

  lemma {:induction false} Pow2Adds(a: nat, b: nat)
    ensures Pow2(a + b) == Pow2(a) * Pow2(b)
  {
    if a > 0 {
      Pow2Adds(a - 1, b);
    }
  }

  /** A base of 2^32 ns meets that case: from the 32nd failure on the job would not wait at all. */
  lemma LongBackoffVanishes(retries: nat)
    requires retries >= 32
    ensures NextBackoff(retries, 0x1_0000_0000, 24 * 3600 * 1_000_000_000) == 0
    ensures Intended(retries, 0x1_0000_0000, 24 * 3600 * 1_000_000_000) == 24 * 3600 * 1_000_000_000
  {
    PowersOfTwo();
  }

  lemma PowersOfTwo()
    ensures Pow2(7) == 128 && Pow2(23) == 0x80_0000 && Pow2(24) == 0x100_0000 && Pow2(25) == 0x200_0000
    ensures Pow2(26) == 0x400_0000 && Pow2(27) == 0x800_0000 && Pow2(28) == 0x1000_0000 && Pow2(29) == 0x2000_0000
    ensures Pow2(30) == 0x4000_0000 && Pow2(31) == 0x8000_0000 && Pow2(32) == 0x1_0000_0000
  {
    Pow2Adds(4, 3);
    Pow2Adds(7, 8);
    Pow2Adds(15, 8);
    Pow2Adds(24, 4);
    Pow2Adds(28, 4);
  }

  const DEFAULT_BASE := 15 * 60 * 1_000_000_000
  const DEFAULT_MAX := 24 * 3600 * 1_000_000_000

  lemma {:induction false} Pow2Grows(m: nat, n: nat)
    requires m <= n
    ensures Pow2(m) <= Pow2(n)
  {
    if m < n {
      Pow2Grows(m, n - 1);
    }
  }

  /**
   With the defaults, a quarter of an hour and a day, the code is the documented min(base * 2^retries,
   cap) for every retry count, clamp and overflow notwithstanding.
  */
  lemma DefaultsAreDocumented(retries: nat)
    ensures NextBackoff(retries, DEFAULT_BASE, DEFAULT_MAX)
         == Min(900_000_000_000 * Pow2(retries), 86_400_000_000_000)
  {
    hide Pow2, Wrap, NextBackoff;
    var e := if retries > MAX_EXPONENT then MAX_EXPONENT else retries;
    PowersOfTwo();
    if retries < 7 {
      Pow2Grows(retries, 7);
    } else {
      Pow2Grows(7, retries);
      Pow2Grows(7, e);
      if e <= 23 {
        Pow2Grows(e, 23);
      } else {
        OverflowsAreSeen(e);
      }
    }
    BackoffIsIntendedIff(retries, DEFAULT_BASE, DEFAULT_MAX);
  }

  lemma WrapsTo(product: int, wrapped: int, turns: int)
    requires -MAX_INT64 - 1 <= wrapped <= MAX_INT64 && product == wrapped + turns * TWO_64
    ensures Wrap(product) == wrapped
  {
  }

  /** From 24 failures on the default product overflows, each time to something the guards catch. */
  lemma OverflowsAreSeen(e: nat)
    requires 24 <= e <= 32
    ensures DEFAULT_BASE * Pow2(e) > MAX_INT64
    ensures !(0 <= Wrap(DEFAULT_BASE * Pow2(e)) < DEFAULT_MAX)
  {
    hide Pow2, Wrap;
    PowersOfTwo();
    if e == 24 {
      WrapsTo(15099494400000000000, -3347249673709551616, 1);
    } else if e == 25 {
      WrapsTo(30198988800000000000, -6694499347419103232, 2);
    } else if e == 26 {
      WrapsTo(60397977600000000000, 5057745378871345152, 3);
    } else if e == 27 {
      WrapsTo(120795955200000000000, -8331253315966861312, 7);
    } else if e == 28 {
      WrapsTo(241591910400000000000, 1784237441775828992, 13);
    } else if e == 29 {
      WrapsTo(483183820800000000000, 3568474883551657984, 26);
    } else if e == 30 {
      WrapsTo(966367641600000000000, 7136949767103315968, 52);
    } else if e == 31 {
      WrapsTo(1932735283200000000000, -4172844539502919680, 105);
    } else if e == 32 {
      WrapsTo(3865470566400000000000, -8345689079005839360, 210);
    }
  }

  // ---------------------------------------------------------------- giving up

  datatype JobState = Wanted | Selecting | Failed

  datatype Job = Job(state: JobState, retries: nat, notBefore: Option<int>)

  datatype Policy = Policy(maxRetries: int, base: int, maxBackoff: int)

  /** One failed cycle; `stored` says whether the store took the write. */
  datatype Failure = Failure(resetToWanted: bool, now: int, stored: bool)

  /** The job row `failOrBackoff` leaves, and whether it reports the terminal transition. */
  function FailOrBackoff(job: Job, p: Policy, f: Failure): (Job, bool) {
    var retries := job.retries + 1;
    if !f.stored then (job, false)
    else if retries >= p.maxRetries then (job.(state := Failed), true)
    else
      var notBefore := Some(f.now + NextBackoff(retries, p.base, p.maxBackoff));
      (Job(if f.resetToWanted then Wanted else job.state, retries, notBefore), false)
  }

  /** The terminal transition is reported exactly when it happens; a failure not stored changes nothing. */
  lemma ReportsTheEnd(job: Job, p: Policy, f: Failure)
    requires job.state != Failed
    ensures var (after, ended) := FailOrBackoff(job, p, f);
            && (ended <==> after.state == Failed)
            && (!f.stored ==> after == job)
  {
    hide NextBackoff;
  }

  /** A job that failed for good is not picked up again. */
  function AfterFailures(job: Job, p: Policy, fs: seq<Failure>): Job {
    if fs == [] then job
    else
      var before := AfterFailures(job, p, fs[..|fs| - 1]);
      if before.state == Failed then before else FailOrBackoff(before, p, fs[|fs| - 1]).0
  }

  function Stored(fs: seq<Failure>): nat {
    if fs == [] then 0 else Stored(fs[..|fs| - 1]) + if fs[|fs| - 1].stored then 1 else 0
  }

  /**
   From zero retries exactly the maxRetries-th recorded failure is terminal (the first, if the limit
   is below one); until then the job has counted every recorded failure.
  */
  lemma {:induction false} GivesUpExactly(job: Job, p: Policy, fs: seq<Failure>)
    requires job.state != Failed && job.retries == 0
    ensures var after := AfterFailures(job, p, fs);
            var limit := if p.maxRetries < 1 then 1 else p.maxRetries;
            && (after.state == Failed <==> Stored(fs) >= limit)
            && (after.state != Failed ==> after.retries == Stored(fs))
  {
    if fs != [] {
      GivesUpExactly(job, p, fs[..|fs| - 1]);
    }
  }

  /** And it waits, after its n-th recorded failure, what the n-th failure prescribes, wanted again if so asked. */
  lemma WaitsAsPrescribed(job: Job, p: Policy, fs: seq<Failure>, f: Failure)
    requires job.state != Failed && job.retries == 0
    requires f.stored && Stored(fs) + 1 < p.maxRetries
    ensures var (before, after) := (AfterFailures(job, p, fs), AfterFailures(job, p, fs + [f]));
            && after.notBefore == Some(f.now + NextBackoff(Stored(fs) + 1, p.base, p.maxBackoff))
            && after.state == if f.resetToWanted then Wanted else before.state
  {
    hide NextBackoff, Stored;
    GivesUpExactly(job, p, fs);
    assert (fs + [f])[..|fs|] == fs;
  }
}
