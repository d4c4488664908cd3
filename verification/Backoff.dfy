/** The reconnect loop's waits, in int64 nanoseconds (internal/ssh/manager.go:179-184, 363-391). */
module Backoff {
  import opened Common

  const TWO62: int := 0x4000_0000_0000_0000
  const MAX_INT64: int := 0x7fff_ffff_ffff_ffff

  predicate IsInt64(x: int) { -MAX_INT64 - 1 <= x <= MAX_INT64 }

  /** Two's complement wrap-around of a result that leaves int64. */
  function Wrap(x: int): (r: int)
    ensures IsInt64(r) && (IsInt64(x) ==> r == x)
  {
    (x + MAX_INT64 + 1) % (2 * (MAX_INT64 + 1)) - (MAX_INT64 + 1)
  }

  const SECOND: int := 1_000_000_000

  /** NewSSHConnectionManager's defaults. */
  function Initial(configured: int): int { if configured <= 0 then 2 * SECOND else configured }

  function Maximum(configured: int): int { if configured <= 0 then 60 * SECOND else configured }

  function Next(backoff: int, max: int): int {
    var d := Wrap(backoff * 2);
    if d > max then max else d
  }

  /** The n-th wait (from 0) of a run of failed dials. */
  function Wait(init: int, max: int, n: nat): int {
    if n == 0 then init else Next(Wait(init, max, n - 1), max)
  }

  function Waits(init: int, max: int, failures: nat): seq<int> {
    seq(failures, n requires 0 <= n < failures => Wait(init, max, n))
  }

  lemma OneMoreWait(init: int, max: int, n: nat)
    ensures Waits(init, max, n + 1) == Waits(init, max, n) + [Wait(init, max, n)]
    ensures Wait(init, max, n + 1) == Next(Wait(init, max, n), max)
  {}

  method ReconnectLoop(initial: int, maximum: int, failures: nat) returns (waits: seq<int>)
    ensures waits == Waits(Initial(initial), Maximum(maximum), failures)
  {
    var max := Maximum(maximum);
    var backoff := Initial(initial);
    waits := [];
    for i := 0 to failures
      invariant waits == Waits(Initial(initial), max, i) && backoff == Wait(Initial(initial), max, i)
    {
      OneMoreWait(Initial(initial), max, i);
      hide Waits, Wait, Wrap;
      waits := waits + [backoff];
      backoff := Wrap(backoff * 2);
      if backoff > max { backoff := max; }
    }
  }

  /** The doubling after wait n stays within int64. */
  predicate Fits(init: int, max: int, n: nat) { IsInt64(Wait(init, max, n) * 2) }

  /** No doubling before wait n leaves int64. */
  ghost predicate FitsUpTo(init: int, max: int, n: nat) {
    forall k: nat :: k < n ==> Fits(init, max, k)
  }

  /** As long as nothing overflows, wait 0 is the initial backoff and wait n is
      min(initial * 2^n, maximum). */
  lemma {:induction false} WaitsDouble(init: int, max: int, n: nat)
    requires init > 0 && max > 0 && FitsUpTo(init, max, n)
    ensures Wait(init, max, n) == (if n == 0 then init else Min(init * Pow2(n), max))
    ensures Wait(init, max, n) > 0
  {
    if n == 0 {
      assert Wait(init, max, n) == init;
    } else {
      WaitsDouble(init, max, n - 1);
      assert Fits(init, max, n - 1);
      DoubledProduct(init, n);
    }
  }

  lemma DoubledProduct(a: int, n: nat)
    requires a > 0 && n > 0
    ensures a * Pow2(n) == 2 * (a * Pow2(n - 1)) && a * Pow2(n - 1) > 0
    ensures n == 1 ==> a * Pow2(n - 1) == a
  {
    var p := Pow2(n - 1);
    Pow2IsPositive(n - 1);
    assert a * (2 * p) == 2 * (a * p);
  }

  lemma {:induction false} WaitsStaySmall(init: int, max: int, n: nat)
    requires 0 < init < TWO62 && 0 < max < TWO62
    ensures 0 < Wait(init, max, n) < TWO62
  {
    if n == 0 {
      assert Wait(init, max, n) == init;
    } else {
      WaitsStaySmall(init, max, n - 1);
    }
  }

  lemma {:induction false} Pow2IsPositive(n: nat)
    ensures Pow2(n) > 0
  {
    if n == 0 {
      assert Pow2(n) == 1;
    } else {
      Pow2IsPositive(n - 1);
    }
  }

  lemma Pow2At62()
    ensures Pow2(62) == TWO62
  {
    assert Pow2(8) == 256;
    Pow2Adds(8, 8); Pow2Adds(16, 16); Pow2Adds(32, 16); Pow2Adds(48, 8); Pow2Adds(56, 6);
    assert Pow2(6) == 64;
  }

  lemma {:induction false} Pow2Adds(a: nat, b: nat)
    ensures Pow2(a + b) == Pow2(a) * Pow2(b)
  {
    if b == 0 {
      assert Pow2(b) == 1;
    } else {
      Pow2Adds(a, b - 1);
      assert Pow2(a) * Pow2(b) == 2 * (Pow2(a) * Pow2(b - 1));
    }
  }

  /** Doubling never overflows in any run of failures exactly when both settings, as
      configured or by default, are below 2^62 ns: at 2^62 itself the doubled value is
      already 2^63. */
  lemma OverflowFreeExactlyBelow62(initial: int, maximum: int)
    requires IsInt64(initial) && IsInt64(maximum)
    ensures (forall n: nat :: Fits(Initial(initial), Maximum(maximum), n)) <==> initial < TWO62 && maximum < TWO62
  {
    PositiveSettingsFitExactlyWhen(Initial(initial), Maximum(maximum));
  }

  lemma PositiveSettingsFitExactlyWhen(init: int, max: int)
    requires 0 < init <= MAX_INT64 && 0 < max <= MAX_INT64
    ensures (forall n: nat :: Fits(init, max, n)) <==> init < TWO62 && max < TWO62
  {
    if init < TWO62 && max < TWO62 {
      forall n: nat ensures Fits(init, max, n) { WaitsStaySmall(init, max, n); }
    } else if init >= TWO62 {
      assert !Fits(init, max, 0);
    } else if FitsUpTo(init, max, 62) {
      LargeMaximumIsReached(init, max);
      assert !Fits(init, max, 62);
    } else {
      var k: nat :| k < 62 && !Fits(init, max, k);
      assert !Fits(init, max, k);
    }
  }

  lemma LargeMaximumIsReached(init: int, max: int)
    requires init > 0 && max >= TWO62 && FitsUpTo(init, max, 62)
    ensures Wait(init, max, 62) >= TWO62
  {
    WaitsDouble(init, max, 62);
    Pow2At62();
    assert init * Pow2(62) >= Pow2(62);
  }

  /** What an overflow does: the wait turns negative and the loop stops waiting. */
  lemma OverflowedWaitIsNegative()
    ensures Wait(TWO62, TWO62, 1) == -MAX_INT64 - 1
  {}

  /** Without configuration the waits are 2 s, 4 s, ... up to a minute. */
  lemma DefaultWaits(n: nat)
    ensures Wait(Initial(0), Maximum(0), n) == Min(2_000_000_000 * Pow2(n), 60_000_000_000)
  {
    OverflowFreeExactlyBelow62(0, 0);
    WaitsDouble(Initial(0), Maximum(0), n);
  }
}
