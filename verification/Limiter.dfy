/** The mixer's peak limiter: one common scale per emitted window. */
module Limiter {
  import opened Arith

  const FULL_SCALE := 32767

  function Magnitude(x: int): int { if x < 0 then -x else x }

  /** C++ integer division, which truncates toward zero. */
  function TruncDiv(a: int, b: int): int
    requires b > 0
  {
    if a >= 0 then a / b else -(-a / b)
  }

  /** The largest magnitude in the window, never below full scale. */
  function Peak(mixed: seq<int>): (p: int)
    ensures p >= FULL_SCALE
    ensures forall k :: 0 <= k < |mixed| ==> Magnitude(mixed[k]) <= p
    ensures p == FULL_SCALE || exists k :: 0 <= k < |mixed| && Magnitude(mixed[k]) == p
  {
    if mixed == [] then FULL_SCALE
    else
      var n := |mixed| - 1;
      var p := Peak(mixed[..n]);
      assert forall k :: 0 <= k < n ==> mixed[..n][k] == mixed[k];
      Max(p, Magnitude(mixed[n]))
  }

  function Limit(s: int, peak: int): int
    requires peak > 0
  {
    TruncDiv(s * FULL_SCALE, peak)
  }

  function LimitAll(mixed: seq<int>): (pcm: seq<int>)
    ensures |pcm| == |mixed|
  {
    seq(|mixed|, k requires 0 <= k < |mixed| => Limit(mixed[k], Peak(mixed)))
  }

  /** The quotient of a non-negative sum. */
  lemma ScaledQuotient(a: nat, peak: int)
    requires peak >= FULL_SCALE && a <= peak
    ensures var q := a * FULL_SCALE / peak;
      0 <= q <= FULL_SCALE && q <= a && q * peak <= a * FULL_SCALE < q * peak + peak
  {
    DivBounds(a * FULL_SCALE, peak);
    MulMono(a, peak, FULL_SCALE);
    MulMono(FULL_SCALE, peak, a);
    assert (FULL_SCALE + 1) * peak == peak * FULL_SCALE + peak && (a + 1) * peak == a * peak + peak;
    DivAtMost(a * FULL_SCALE, peak, FULL_SCALE);
    DivAtMost(a * FULL_SCALE, peak, a);
  }

  /** Scaling is odd, stays in range and is within one unit of the exact quotient. */
  lemma LimitAccuracy(s: int, peak: int)
    requires peak >= FULL_SCALE && Magnitude(s) <= peak
    ensures -FULL_SCALE <= Limit(s, peak) <= FULL_SCALE
    ensures Limit(-s, peak) == -Limit(s, peak)
    ensures s >= 0 ==> 0 <= Limit(s, peak) <= s
    ensures Magnitude(Limit(s, peak) * peak - s * FULL_SCALE) < peak
  {
    var a := Magnitude(s);
    ScaledQuotient(a, peak);
    var q := a * FULL_SCALE / peak;
    assert (-s) * FULL_SCALE == -(s * FULL_SCALE);
    assert (-q) * peak == -(q * peak);
    assert Limit(s, peak) == if s >= 0 then q else -q;
    assert Limit(-s, peak) == if s > 0 then -q else q;
  }

  /** A louder sum never comes out quieter. */
  lemma LimitMonotone(s: int, t: int, peak: int)
    requires peak >= FULL_SCALE && s <= t
    ensures Limit(s, peak) <= Limit(t, peak)
  {
    if 0 <= s {
      DivMono(s * FULL_SCALE, t * FULL_SCALE, peak);
    } else if t < 0 {
      DivMono(-(t * FULL_SCALE), -(s * FULL_SCALE), peak);
    } else {
      DivBounds(-(s * FULL_SCALE), peak);
      DivBounds(t * FULL_SCALE, peak);
    }
  }

  /** At full scale the limiter is the identity. */
  lemma LimitIdentity(s: int)
    ensures Limit(s, FULL_SCALE) == s
  {
  }

  /** out is the scaled sum: in range, of the same sign, no louder, and within one of the exact quotient. */
  predicate FairlyScaled(sum: int, out: int, peak: int) {
    && -FULL_SCALE <= out <= FULL_SCALE
    && (sum >= 0 ==> 0 <= out <= sum) && (sum <= 0 ==> sum <= out <= 0)
    && Magnitude(out * peak - sum * FULL_SCALE) < peak
  }

  lemma LimitFair(s: int, peak: int)
    requires peak >= FULL_SCALE && Magnitude(s) <= peak
    ensures FairlyScaled(s, Limit(s, peak), peak)
  {
    LimitAccuracy(s, peak);
    LimitAccuracy(-s, peak);
  }

  /** The limiter's promise for one window. */
  lemma LimiterContract(mixed: seq<int>)
    ensures forall k :: 0 <= k < |mixed| ==> FairlyScaled(mixed[k], LimitAll(mixed)[k], Peak(mixed))
    ensures forall j, k :: 0 <= j < |mixed| && 0 <= k < |mixed| && mixed[j] <= mixed[k] ==>
              LimitAll(mixed)[j] <= LimitAll(mixed)[k]
  {
    forall k | 0 <= k < |mixed| ensures FairlyScaled(mixed[k], LimitAll(mixed)[k], Peak(mixed)) {
      LimitFair(mixed[k], Peak(mixed));
    }
    forall j, k | 0 <= j < |mixed| && 0 <= k < |mixed| && mixed[j] <= mixed[k]
      ensures LimitAll(mixed)[j] <= LimitAll(mixed)[k]
    {
      LimitMonotone(mixed[j], mixed[k], Peak(mixed));
    }
  }

  /** A window that does not exceed full scale passes unchanged. */
  lemma QuietWindowUnchanged(mixed: seq<int>)
    requires forall k :: 0 <= k < |mixed| ==> Magnitude(mixed[k]) <= FULL_SCALE
    ensures LimitAll(mixed) == mixed
  {
    assert Peak(mixed) == FULL_SCALE;
    forall k | 0 <= k < |mixed| ensures LimitAll(mixed)[k] == mixed[k] { LimitIdentity(mixed[k]); }
  }

  /** The whole limiter, written out: one peak for the window, of at least 32767, and exact scaling by it. */
  lemma LimiterMeans(mixed: seq<int>) returns (peak: int)
    ensures peak >= 32767 && |LimitAll(mixed)| == |mixed|
    ensures forall k :: 0 <= k < |mixed| ==> -peak <= mixed[k] <= peak
    ensures peak > 32767 ==> exists k :: 0 <= k < |mixed| && (mixed[k] == peak || mixed[k] == -peak)
    ensures forall k :: 0 <= k < |mixed| ==>
              && -32767 <= LimitAll(mixed)[k] <= 32767
              && -peak < LimitAll(mixed)[k] * peak - mixed[k] * 32767 < peak
              && (mixed[k] >= 0 ==> 0 <= LimitAll(mixed)[k] <= mixed[k])
              && (mixed[k] <= 0 ==> mixed[k] <= LimitAll(mixed)[k] <= 0)
  {
    peak := Peak(mixed);
    forall k | 0 <= k < |mixed|
      ensures -32767 <= LimitAll(mixed)[k] <= 32767 && -peak < LimitAll(mixed)[k] * peak - mixed[k] * 32767 < peak
      ensures mixed[k] >= 0 ==> 0 <= LimitAll(mixed)[k] <= mixed[k]
      ensures mixed[k] <= 0 ==> mixed[k] <= LimitAll(mixed)[k] <= 0
    {
      LimitAccuracy(mixed[k], peak);
      LimitAccuracy(-mixed[k], peak);
      hide Limit;
    }
  }
}
