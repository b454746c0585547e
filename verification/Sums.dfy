/** Sums over the values of a finite map, in whatever order a program visits the keys. */
module Sums {

  ghost function SumValues(m: map<string, int>): int
    decreases |m|
  {
    if m == map[] then 0
    else
      var u :| u in m;
      m[u] + SumValues(m - {u})
  }

  /** Any key may be visited first. */
  lemma {:induction false} SumPick(m: map<string, int>, u: string)
    requires u in m
    ensures SumValues(m) == m[u] + SumValues(m - {u})
    decreases |m|
  {
    var v :| v in m && SumValues(m) == m[v] + SumValues(m - {v});
    if v != u {
      SumPick(m - {v}, u);
      SumPick(m - {u}, v);
      assert m - {v} - {u} == m - {u} - {v};
    }
  }

  /** Keys that map to zero may be left out. */
  lemma {:induction false} SumIgnoresZeros(small: map<string, int>, big: map<string, int>)
    requires small.Keys <= big.Keys
    requires forall u :: u in big ==> big[u] == if u in small then small[u] else 0
    ensures SumValues(small) == SumValues(big)
    decreases |big|
  {
    if u :| u in big {
      SumPick(big, u);
      if u in small {
        SumPick(small, u);
        SumIgnoresZeros(small - {u}, big - {u});
      } else {
        SumIgnoresZeros(small, big - {u});
      }
    } else {
      assert small == map[];
    }
  }

  /** A sum of n 16-bit samples has magnitude at most 32768 * n. */
  lemma {:induction false} SumBound(m: map<string, int>)
    requires forall u :: u in m ==> -32768 <= m[u] <= 32767
    ensures -32768 * |m| <= SumValues(m) <= 32767 * |m|
    decreases |m|
  {
    if u :| u in m {
      SumPick(m, u);
      SumBound(m - {u});
      assert |m - {u}| == |m| - 1;
    } else {
      assert m == map[];
    }
  }

  lemma {:induction false} SumConstant(m: map<string, int>, v: int)
    requires v == -32768 && forall u :: u in m ==> m[u] == v
    ensures SumValues(m) == -32768 * |m|
    decreases |m|
  {
    if u :| u in m {
      SumPick(m, u);
      SumConstant(m - {u}, v);
      assert |m - {u}| == |m| - 1;
    } else {
      assert m == map[];
    }
  }
}
