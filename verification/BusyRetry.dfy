/** The budgeted retry around BEGIN and the WAL pragma: `isRetryableBusy` and `retryWhileBusy`. */
module BusyRetry {
  import opened Options

  /** What the decision reads of a thrown value: numeric `errno`, textual `code`. */
  datatype DbError = DbError(errno: Option<int>, code: Option<string>)

  const SQLITE_BUSY := 5
  const SQLITE_BUSY_SNAPSHOT := 517

  const BUDGET_MS: real := 5000.0
  const BASE_MS: real := 10.0
  const MAX_MS: real := 200.0
  const JITTER_MS: real := 25.0

  /** `errno & 0xff` on the 32-bit form of an integer. */
  function PrimaryCode(errno: int): int {
    errno % 0x100
  }

  predicate Contains(s: string, part: string) {
    exists i :: 0 <= i <= |s| && part <= s[i..]
  }

  predicate IsRetryableBusy(e: DbError) {
    if e.errno.Some? then e.errno.value != SQLITE_BUSY_SNAPSHOT && PrimaryCode(e.errno.value) == SQLITE_BUSY
    else e.code.Some? && "SQLITE_BUSY" <= e.code.value && !Contains(e.code.value, "SNAPSHOT")
  }

  /** Text occurs in text where it can be cut out. */
  lemma ContainsIff(s: string, part: string)
    ensures Contains(s, part) <==> exists before, after :: s == before + part + after
  {
    if Contains(s, part) {
      var i :| 0 <= i <= |s| && part <= s[i..];
      assert s == s[..i] + part + s[i..][|part|..];
    }
    if before, after :| s == before + part + after {
      assert s[|before|..] == part + after;
    }
  }

  /**
   Which errors are replayed: with an errno its low byte decides, but for 517; without
   one a code that begins with "SQLITE_BUSY" and has no "SNAPSHOT" in it.
   */
  lemma RetryableIff(e: DbError)
    ensures e.errno.Some? ==> (IsRetryableBusy(e) <==> e.errno.value % 256 == 5 && e.errno.value != 517)
    ensures e.errno == None ==>
              (IsRetryableBusy(e) <==>
                && e.code.Some? && (exists rest :: e.code.value == "SQLITE_BUSY" + rest)
                && !exists before, after :: e.code.value == before + "SNAPSHOT" + after)
  {
    if e.code.Some? {
      ContainsIff(e.code.value, "SNAPSHOT");
      if "SQLITE_BUSY" <= e.code.value {
        assert e.code.value == "SQLITE_BUSY" + e.code.value[11..];
      }
    }
  }

  /** The two errors the documentation names, however the driver spells them. */
  lemma BusyAndSnapshot(e: DbError)
    ensures e.errno == Some(5) ==> IsRetryableBusy(e)
    ensures e.errno == Some(517) ==> !IsRetryableBusy(e)
    ensures e.errno == None && e.code == Some("SQLITE_BUSY") ==> IsRetryableBusy(e)
    ensures e.errno == None && e.code == Some("SQLITE_BUSY_SNAPSHOT") ==> !IsRetryableBusy(e)
  {
    var busy, snapshot := "SQLITE_BUSY", "SQLITE_BUSY_SNAPSHOT";
    forall i | 0 <= i <= |busy| ensures !("SNAPSHOT" <= busy[i..]) {
      if |busy[i..]| >= 8 {
        assert busy[i..][0] == busy[i];
        assert busy[i..][1] == busy[i + 1];
      }
    }
    assert snapshot[12..] == "SNAPSHOT";
  }

  function Pow2(n: nat): nat {
    if n == 0 then 1 else 2 * Pow2(n - 1)
  }

  /** The backoff before the n-th replay, without jitter: 10, 20, 40, 80, 160, 200, 200, .. */
  function Backoff(n: nat): real
    requires n >= 1
  {
    var raw := BASE_MS * Pow2(n - 1) as real;
    if raw < MAX_MS then raw else MAX_MS
  }

  /** The first five backoffs double, and the others are all the same. */
  lemma BackoffIs(n: nat)
    requires n >= 1
    ensures Backoff(n) == if n == 1 then 10.0 else if n == 2 then 20.0 else if n == 3 then 40.0
                          else if n == 4 then 80.0 else if n == 5 then 160.0 else 200.0
  {
    assert Pow2(2) == 4 && Pow2(3) == 8 && Pow2(4) == 16;
    if n >= 6 { Pow2Grows(n - 1); }
  }

  /** The least time n complete backoffs take. */
  function TotalBackoff(n: nat): real {
    if n == 0 then 0.0 else TotalBackoff(n - 1) + Backoff(n)
  }

  lemma {:induction false} Pow2Grows(n: nat)
    requires n >= 5
    ensures Pow2(n) >= 32
  {
    if n == 5 {
      assert Pow2(4) == 16;
    } else {
      Pow2Grows(n - 1);
    }
  }

  lemma {:induction false} TotalBackoffClosed(n: nat)
    requires n >= 5
    ensures TotalBackoff(n) == 310.0 + 200.0 * (n - 5) as real
  {
    if n == 5 {
      assert Backoff(1) == 10.0 && Backoff(2) == 20.0 && Backoff(3) == 40.0;
      assert Pow2(3) == 8 && Pow2(4) == 16;
      assert Backoff(4) == 80.0 && Backoff(5) == 160.0;
      assert TotalBackoff(3) == 70.0;
    } else {
      TotalBackoffClosed(n - 1);
      Pow2Grows(n - 1);
    }
  }

  lemma {:induction false} BackoffIsPositive(n: nat)
    requires n >= 1
    ensures Backoff(n) >= 10.0
  {
    if n > 1 { BackoffIsPositive(n - 1); }
  }

  // ---- The loop -------------------------------------------------------------------------------

  datatype Attempt<+T> = Value(value: T) | Throws(error: DbError)

  datatype Result<+T> = Returned(value: T) | Rethrown(error: DbError) | TimedOut(attempts: nat, lastError: DbError)

  function Sum(xs: seq<real>): real {
    if xs == [] then 0.0 else Sum(xs[..|xs| - 1]) + xs[|xs| - 1]
  }

  lemma SumSnoc(xs: seq<real>, x: real)
    ensures Sum(xs + [x]) == Sum(xs) + x
  {
    assert (xs + [x])[..|xs|] == xs;
  }

  function Min(a: real, b: real): real {
    if a < b then a else b
  }

  /** What n calls and the sleeps between them have taken. */
  function Elapsed(spent: nat -> real, late: nat -> real, sleeps: seq<real>, n: nat): real
    requires n <= |sleeps| + 1
  {
    if n == 0 then 0.0
    else Elapsed(spent, late, sleeps, n - 1) + spent(n - 1) + if n == 1 then 0.0 else sleeps[n - 2] + late(n - 2)
  }

  /** What has passed when the next call begins. */
  function Passed(spent: nat -> real, late: nat -> real, sleeps: seq<real>): real {
    Elapsed(spent, late, sleeps, |sleeps|) + if sleeps == [] then 0.0 else sleeps[|sleeps| - 1] + late(|sleeps| - 1)
  }

  lemma NothingPassed(spent: nat -> real, late: nat -> real)
    ensures Passed(spent, late, []) == 0.0 && TotalBackoff(0) == 0.0
  {
  }

  lemma PassedSnoc(spent: nat -> real, late: nat -> real, sleeps: seq<real>, x: real)
    ensures Passed(spent, late, sleeps + [x]) == Passed(spent, late, sleeps) + spent(|sleeps|) + x + late(|sleeps|)
    ensures Elapsed(spent, late, sleeps + [x], |sleeps| + 1) == Passed(spent, late, sleeps) + spent(|sleeps|)
    ensures Elapsed(spent, late, sleeps, |sleeps| + 1) == Passed(spent, late, sleeps) + spent(|sleeps|)
  {
    ElapsedPrefix(spent, late, sleeps, x, |sleeps| + 1);
  }

  lemma {:induction false} ElapsedPrefix(spent: nat -> real, late: nat -> real, sleeps: seq<real>, x: real, n: nat)
    requires n <= |sleeps| + 1
    ensures Elapsed(spent, late, sleeps + [x], n) == Elapsed(spent, late, sleeps, n)
  {
    if n > 0 { ElapsedPrefix(spent, late, sleeps, x, n - 1); }
  }

  /** The sleep before call k + 1: the backoff with its jitter, or what is left of the budget. */
  predicate Slept(spent: nat -> real, late: nat -> real, random: nat -> real, budget: real, sleeps: seq<real>, k: nat)
    requires k < |sleeps|
  {
    var backoff := Backoff(k + 1) + random(k) * 25.0;
    var left := budget - Elapsed(spent, late, sleeps, k + 1);
    left > 0.0 && sleeps[k] == if backoff <= left then backoff else left
  }

  lemma SleptPrefix(spent: nat -> real, late: nat -> real, random: nat -> real, budget: real, sleeps: seq<real>, x: real)
    requires forall k :: 0 <= k < |sleeps| ==> Slept(spent, late, random, budget, sleeps, k)
    ensures forall k :: 0 <= k < |sleeps| ==> Slept(spent, late, random, budget, sleeps + [x], k)
  {
    forall k | 0 <= k < |sleeps| ensures Slept(spent, late, random, budget, sleeps + [x], k) {
      ElapsedPrefix(spent, late, sleeps, x, k + 1);
      assert Slept(spent, late, random, budget, sleeps, k);
    }
  }

  /** The sleep that the loop asks for. */
  lemma SleptNow(spent: nat -> real, late: nat -> real, random: nat -> real, budget: real, sleeps: seq<real>, x: real)
    requires Passed(spent, late, sleeps) + spent(|sleeps|) < budget
    requires x == Min(Backoff(|sleeps| + 1) + random(|sleeps|) * JITTER_MS, budget - (Passed(spent, late, sleeps) + spent(|sleeps|)))
    ensures Slept(spent, late, random, budget, sleeps + [x], |sleeps|)
  {
    PassedSnoc(spent, late, sleeps, x);
  }

  /** An error that is not BUSY by its low byte, or by its code if it has no errno. */
  predicate Foreign(e: DbError) {
    if e.errno.Some? then e.errno.value % 256 != 5 || e.errno.value == 517
    else e.code == None || !("SQLITE_BUSY" <= e.code.value)
  }

  lemma ForeignOrBusy(e: DbError)
    ensures Foreign(e) ==> !IsRetryableBusy(e)
    ensures BusyNumber(e) ==> IsRetryableBusy(e)
  {
    RetryableIff(e);
  }

  predicate BusyNumber(e: DbError) {
    e.errno.Some? && e.errno.value % 256 == 5 && e.errno.value != 517
  }

  /** The clock and the jitter: calls and sleeps take no less than nothing, `random(k)` is in [0, 1). */
  predicate Sound(spent: nat -> real, late: nat -> real, random: nat -> real, k: nat) {
    spent(k) >= 0.0 && late(k) >= 0.0 && 0.0 <= random(k) < 1.0
  }

  ghost predicate AlwaysSound(spent: nat -> real, late: nat -> real, random: nat -> real) {
    forall k: nat :: Sound(spent, late, random, k)
  }

  /** The call throws an error that is replayed. */
  predicate Replayed<T>(attempt: nat -> Attempt<T>, k: nat) {
    attempt(k).Throws? && IsRetryableBusy(attempt(k).error)
  }

  ghost predicate AllSlept(spent: nat -> real, late: nat -> real, random: nat -> real, budget: real, sleeps: seq<real>) {
    forall k :: 0 <= k < |sleeps| ==> Slept(spent, late, random, budget, sleeps, k)
  }

  /** Whole tens of milliseconds. */
  ghost function Tens(left: real): nat {
    if left <= 0.0 then 0 else 1 + (left / 10.0).Floor
  }

  lemma TensFall(left: real, taken: real)
    requires left > 0.0 && (taken >= 10.0 || taken >= left)
    ensures Tens(left - taken) < Tens(left)
  {
    if left - taken > 0.0 {
      assert (left - taken) / 10.0 <= left / 10.0 - 1.0;
    }
  }

  /** One more sleep, and what is left of the budget afterwards. */
  lemma OneMoreSleep(spent: nat -> real, late: nat -> real, random: nat -> real, budget: real, sleeps: seq<real>, asked: real)
    requires Sound(spent, late, random, |sleeps|) && AllSlept(spent, late, random, budget, sleeps)
    requires Passed(spent, late, sleeps) + spent(|sleeps|) < budget
    requires asked == Min(Backoff(|sleeps| + 1) + random(|sleeps|) * JITTER_MS, budget - (Passed(spent, late, sleeps) + spent(|sleeps|)))
    ensures AllSlept(spent, late, random, budget, sleeps + [asked])
    ensures Passed(spent, late, sleeps + [asked]) == Passed(spent, late, sleeps) + spent(|sleeps|) + asked + late(|sleeps|)
    ensures Tens(budget - Passed(spent, late, sleeps + [asked])) < Tens(budget - Passed(spent, late, sleeps))
  {
    hide Slept, Tens, Passed, Elapsed;
    var n := |sleeps|;
    PassedSnoc(spent, late, sleeps, asked);
    SleptPrefix(spent, late, random, budget, sleeps, asked);
    SleptNow(spent, late, random, budget, sleeps, asked);
    BackoffIsPositive(n + 1);
    TensFall(budget - Passed(spent, late, sleeps), spent(n) + asked + late(n));
  }

  /**
   `retryWhileBusy`. `attempt(k)` is what the k-th call does; the clock moves by
   `spent(k)` during it, and a sleep lasts `late(k)` longer than asked. Only BUSY is
   replayed, the last call decides the result, and it times out when the budget is used up.
   */
  method RetryWhileBusy<T>(attempt: nat -> Attempt<T>, spent: nat -> real, late: nat -> real, random: nat -> real, budget: real)
    returns (result: Result<T>, calls: nat, sleeps: seq<real>)
    requires AlwaysSound(spent, late, random)
    ensures calls == |sleeps| + 1
    ensures forall k: nat :: k < |sleeps| ==> Replayed(attempt, k)
    ensures match attempt(|sleeps|)
            case Value(v) => result == Returned(v)
            case Throws(e) => result == if IsRetryableBusy(e) then TimedOut(calls, e) else Rethrown(e)
    ensures result.TimedOut? ==> Elapsed(spent, late, sleeps, |sleeps| + 1) >= budget
    ensures AllSlept(spent, late, random, budget, sleeps)
    // Any other error ends it at once, and BUSY by number only when the budget is used up.
    ensures forall k: nat :: k < calls && attempt(k).Throws? && Foreign(attempt(k).error) ==>
              k == |sleeps| && result == Rethrown(attempt(k).error)
    ensures forall k: nat :: k < calls && attempt(k).Throws? && BusyNumber(attempt(k).error) ==> k < |sleeps| || result.TimedOut?
  {
    hide Elapsed, Passed, AllSlept, Backoff, IsRetryableBusy, Tens, Foreign, BusyNumber;
    var elapsed := 0.0;
    var attempts := 0;
    sleeps := [];
    NothingPassed(spent, late);
    NothingSlept(spent, late, random, budget);
    while true
      invariant attempts == |sleeps|
      invariant elapsed == Passed(spent, late, sleeps)
      invariant AllSlept(spent, late, random, budget, sleeps)
      invariant forall k: nat :: k < attempts ==> Replayed(attempt, k) && !Foreign(attempt(k).error)
      decreases Tens(budget - elapsed)
    {
      elapsed := elapsed + spent(attempts);
      PassedSnoc(spent, late, sleeps, 0.0);
      if attempt(attempts).Throws? { ForeignOrBusy(attempt(attempts).error); }
      match attempt(attempts) {
        case Value(v) =>
          return Returned(v), attempts + 1, sleeps;
        case Throws(e) =>
          if !IsRetryableBusy(e) {
            return Rethrown(e), attempts + 1, sleeps;
          }
          attempts := attempts + 1;
          var remaining := budget - elapsed;
          if remaining <= 0.0 {
            return TimedOut(attempts, e), attempts, sleeps;
          }
          var backoff := Backoff(attempts) + random(attempts - 1) * JITTER_MS;
          var asked := Min(backoff, remaining);
          assert Sound(spent, late, random, attempts - 1);
          OneMoreSleep(spent, late, random, budget, sleeps, asked);
          sleeps := sleeps + [asked];
          elapsed := elapsed + asked + late(attempts - 1);
      }
    }
  }

  lemma NothingSlept(spent: nat -> real, late: nat -> real, random: nat -> real, budget: real)
    ensures AllSlept(spent, late, random, budget, [])
  {
  }

  // ---- What the budget bounds -------------------------------------------------------------------

  /** Calls and sleeps together take at least the sleeps, and no less than the backoffs before the last of them. */
  lemma {:induction false} ElapsedCovers(spent: nat -> real, late: nat -> real, random: nat -> real, budget: real, sleeps: seq<real>, n: nat)
    requires AlwaysSound(spent, late, random) && AllSlept(spent, late, random, budget, sleeps) && n <= |sleeps|
    ensures Elapsed(spent, late, sleeps, n + 1) >= Sum(sleeps[..n]) >= 0.0
    ensures n < |sleeps| ==> Elapsed(spent, late, sleeps, n + 1) >= TotalBackoff(n)
  {
    assert Sound(spent, late, random, n);
    if n > 0 {
      var k := n - 1;
      ElapsedCovers(spent, late, random, budget, sleeps, k);
      assert Slept(spent, late, random, budget, sleeps, k) && Sound(spent, late, random, k);
      assert sleeps[..n] == sleeps[..k] + [sleeps[k]];
      SumSnoc(sleeps[..k], sleeps[k]);
      BackoffIsPositive(n);
      OneMoreElapsed(spent, late, random, budget, sleeps, k);
    } else {
      assert Elapsed(spent, late, sleeps, 0) == 0.0;
    }
  }

  lemma OneMoreElapsed(spent: nat -> real, late: nat -> real, random: nat -> real, budget: real, sleeps: seq<real>, k: nat)
    requires k < |sleeps| && Slept(spent, late, random, budget, sleeps, k) && Sound(spent, late, random, k) && Sound(spent, late, random, k + 1)
    ensures Elapsed(spent, late, sleeps, k + 2) >= Elapsed(spent, late, sleeps, k + 1) + sleeps[k]
    ensures k + 1 < |sleeps| && Slept(spent, late, random, budget, sleeps, k + 1) ==> sleeps[k] >= Backoff(k + 1)
  {
  }

  /** The budget bounds the sleeping. */
  lemma SleepsWithinBudget(spent: nat -> real, late: nat -> real, random: nat -> real, budget: real, sleeps: seq<real>)
    requires AlwaysSound(spent, late, random) && AllSlept(spent, late, random, budget, sleeps) && budget >= 0.0
    ensures Sum(sleeps) <= budget
    ensures forall k :: 0 <= k < |sleeps| ==> 0.0 < sleeps[k] < MAX_MS + JITTER_MS
  {
    forall k | 0 <= k < |sleeps| ensures 0.0 < sleeps[k] < MAX_MS + JITTER_MS {
      assert Slept(spent, late, random, budget, sleeps, k) && Sound(spent, late, random, k);
      BackoffIsPositive(k + 1);
    }
    if sleeps != [] {
      var k := |sleeps| - 1;
      assert Slept(spent, late, random, budget, sleeps, k);
      ElapsedCovers(spent, late, random, budget, sleeps, k);
      SumSnoc(sleeps[..k], sleeps[k]);
      assert sleeps == sleeps[..k] + [sleeps[k]];
    }
  }

  lemma SomeIsLeft(spent: nat -> real, late: nat -> real, random: nat -> real, budget: real, sleeps: seq<real>, k: nat)
    requires AllSlept(spent, late, random, budget, sleeps) && k < |sleeps|
    ensures Elapsed(spent, late, sleeps, k + 1) < budget
  {
    assert Slept(spent, late, random, budget, sleeps, k);
  }

  /** And the number of sleeps. */
  lemma SleepsAreFew(spent: nat -> real, late: nat -> real, random: nat -> real, budget: real, sleeps: seq<real>, n: nat)
    requires AlwaysSound(spent, late, random) && AllSlept(spent, late, random, budget, sleeps) && TotalBackoff(n) >= budget
    ensures |sleeps| <= n
  {
    if n < |sleeps| {
      SomeIsLeft(spent, late, random, budget, sleeps, n);
      ElapsedCovers(spent, late, random, budget, sleeps, n);
    }
  }

  /** On the default budget: at most 5000 ms of sleep and at most 30 attempts. */
  method RetryOnDefaultBudget<T>(attempt: nat -> Attempt<T>, spent: nat -> real, late: nat -> real, random: nat -> real)
    returns (result: Result<T>, calls: nat, sleeps: seq<real>)
    requires AlwaysSound(spent, late, random)
    ensures Sum(sleeps) <= 5000.0 && calls == |sleeps| + 1 <= 30
    ensures forall k: nat :: k < |sleeps| ==> Replayed(attempt, k)
  {
    hide AllSlept, AlwaysSound, Elapsed, Sum, TotalBackoff;
    result, calls, sleeps := RetryWhileBusy(attempt, spent, late, random, BUDGET_MS);
    SleepsWithinBudget(spent, late, random, BUDGET_MS, sleeps);
    TotalBackoffClosed(29);
    SleepsAreFew(spent, late, random, BUDGET_MS, sleeps, 29);
  }
}
