/** Retrying a provider with capped exponential backoff (workers/worker.py, RetryProvider). */
module Retry {
  import opened Prelude
  import opened Evidence

  predicate Retryable(r: InferenceResult) {
    r.Failure? && r.error.retryable
  }

  function Pow2(n: nat): (r: nat)
    ensures 1 <= r
  {
    if n == 0 then 1 else 2 * Pow2(n - 1)
  }

  function Delay(base: real, cap: real, attempt: nat): real {
    var d := base * Pow2(attempt) as real;
    if d < cap then d else cap
  }

  /** `generate`: `calls` provider calls are made, with `delays` slept between them. The result is
      the first one among the first `maxRetries` + 1 that may not be retried, or else the last of
      them; a negative number of retries makes no call and raises. */
  method Generate(maxRetries: int, base: real, cap: real, responses: nat -> InferenceResult)
    returns (r: Result<InferenceResult>, calls: nat, delays: seq<real>)
    ensures maxRetries < 0 ==> r == Raised(UnboundLocalError) && calls == 0 && delays == []
    ensures maxRetries >= 0 ==>
      && 1 <= calls <= maxRetries + 1 && r == Ok(responses(calls - 1))
      && (forall i :: 0 <= i < calls - 1 ==> responses(i).Failure? && responses(i).error.retryable)
      && (calls == maxRetries + 1 || responses(calls - 1).Success? || !responses(calls - 1).error.retryable)
    ensures maxRetries >= 0 ==>
      && |delays| == calls - 1
      && (forall i :: 0 <= i < |delays| ==> delays[i] == Delay(base, cap, i))
  {
    r, calls, delays := Raised(UnboundLocalError), 0, [];
    var attempt := 0;
    while attempt < maxRetries + 1
      invariant 0 <= attempt == calls
      invariant maxRetries < 0 ==> attempt == 0 && r == Raised(UnboundLocalError)
      invariant maxRetries >= 0 ==> attempt <= maxRetries + 1
      invariant attempt > 0 ==> r == Ok(responses(attempt - 1))
      invariant forall i :: 0 <= i < attempt ==> Retryable(responses(i))
      invariant |delays| == if attempt == maxRetries + 1 && attempt > 0 then attempt - 1 else attempt
      invariant forall i :: 0 <= i < |delays| ==> delays[i] == Delay(base, cap, i)
    {
      var result := responses(attempt);
      calls := calls + 1;
      r := Ok(result);
      if !Retryable(result) {
        return;
      }
      if attempt < maxRetries {
        delays := delays + [Delay(base, cap, attempt)];
      }
      attempt := attempt + 1;
    }
  }

  /** The first delay is the smaller of base and cap; as long as a delay is below the cap the next is the
      smaller of its double and the cap, and from then on they stay at the cap. */
  lemma DelaysDouble(base: Amount, cap: Amount, i: nat)
    ensures Delay(base, cap, 0) == if base < cap then base else cap
    ensures Delay(base, cap, i) < cap ==>
      Delay(base, cap, i + 1) == if 2.0 * Delay(base, cap, i) < cap then 2.0 * Delay(base, cap, i) else cap
    ensures Delay(base, cap, i) == cap ==> Delay(base, cap, i + 1) == cap
  {
    var p := Pow2(i) as real;
    assert Pow2(i + 1) as real == 2.0 * p;
    assert base * (2.0 * p) == 2.0 * (base * p);
    MulMonotone(base, 0.0, p);
  }

  /** Delays never shrink from one attempt to the next. */
  lemma {:induction false} DelaysGrow(base: Amount, cap: real, i: nat, j: nat)
    requires i <= j
    ensures Delay(base, cap, i) <= Delay(base, cap, j)
  {
    if i < j {
      DelaysGrow(base, cap, i, j - 1);
      assert base * Pow2(j) as real == 2.0 * (base * Pow2(j - 1) as real);
    }
  }

  function TotalDelay(base: real, cap: real, n: nat): real {
    if n == 0 then 0.0 else TotalDelay(base, cap, n - 1) + Delay(base, cap, n - 1)
  }

  lemma MulMonotone(a: Amount, x: real, y: real)
    requires x <= y
    ensures a * x <= a * y
  {
    assert 0.0 <= a * (y - x);
    assert a * (y - x) == a * y - a * x;
  }

  lemma {:induction false} GeometricBound(base: Amount, cap: real, n: nat)
    ensures TotalDelay(base, cap, n) <= Geometric(base, n)
  {
    if n > 0 {
      GeometricBound(base, cap, n - 1);
      var x := Pow2(n - 1) as real;
      assert Delay(base, cap, n - 1) <= base * x;
      assert Pow2(n) as real - 1.0 == (x - 1.0) + x;
      assert base * ((x - 1.0) + x) == base * (x - 1.0) + base * x;
    }
  }

  lemma {:induction false} CappedBound(base: real, cap: real, n: nat)
    ensures TotalDelay(base, cap, n) <= cap * n as real
  {
    if n > 0 {
      CappedBound(base, cap, n - 1);
      assert n as real == (n - 1) as real + 1.0;
      assert cap * ((n - 1) as real + 1.0) == cap * (n - 1) as real + cap;
    }
  }

  /** base + 2 base + ... + 2^(n-1) base. */
  function Geometric(base: real, n: nat): real {
    base * (Pow2(n) as real - 1.0)
  }

  lemma GeometricMonotone(base: Amount, n: nat, m: nat)
    requires n <= m
    ensures Geometric(base, n) <= Geometric(base, m)
  {
    PowMonotone(n, m);
    MulMonotone(base, Pow2(n) as real - 1.0, Pow2(m) as real - 1.0);
  }

  lemma CappedWithin(base: real, cap: Amount, n: nat, m: nat)
    requires n <= m
    ensures TotalDelay(base, cap, n) <= cap * m as real
  {
    CappedBound(base, cap, n);
    MulMonotone(cap, n as real, m as real);
  }

  function Sum(delays: seq<real>): real {
    if delays == [] then 0.0 else Sum(delays[..|delays| - 1]) + delays[|delays| - 1]
  }

  lemma {:induction false} SumIsTotal(base: real, cap: real, delays: seq<real>)
    requires forall i :: 0 <= i < |delays| ==> delays[i] == Delay(base, cap, i)
    ensures Sum(delays) == TotalDelay(base, cap, |delays|)
  {
    if delays != [] {
      SumIsTotal(base, cap, delays[..|delays| - 1]);
    }
  }

  /** The delays slept in one `generate` never shrink, and their total is at most the uncapped
      geometric sum and at most one capped delay per allowed retry. */
  lemma BackoffIsBounded(base: Amount, cap: Amount, delays: seq<real>, maxRetries: nat)
    requires |delays| <= maxRetries && forall i :: 0 <= i < |delays| ==> delays[i] == Delay(base, cap, i)
    ensures forall i, j :: 0 <= i < j < |delays| ==> delays[i] <= delays[j]
    ensures Sum(delays) <= Geometric(base, maxRetries)
    ensures Sum(delays) <= cap * maxRetries as real
  {
    forall i, j | 0 <= i < j < |delays| ensures delays[i] <= delays[j] {
      DelaysGrow(base, cap, i, j);
    }
    SumIsTotal(base, cap, delays);
    GeometricBound(base, cap, |delays|);
    GeometricMonotone(base, |delays|, maxRetries);
    CappedWithin(base, cap, |delays|, maxRetries);
  }

  lemma {:induction false} PowMonotone(i: nat, j: nat)
    requires i <= j
    ensures Pow2(i) <= Pow2(j)
  {
    if i < j {
      PowMonotone(i, j - 1);
    }
  }
}
