/** Sums of sequences of integers. */
module Sums {

  ghost function Sum(s: seq<int>): int {
    if s == [] then 0 else s[0] + Sum(s[1..])
  }

  lemma {:induction false} SumUpdate(s: seq<int>, x: nat, v: int)
    requires x < |s|
    ensures Sum(s[x := v]) == Sum(s) - s[x] + v
  {
    if x == 0 {
      assert s[x := v][1..] == s[1..];
    } else {
      assert s[x := v][1..] == s[1..][x - 1 := v];
      SumUpdate(s[1..], x - 1, v);
    }
  }

  lemma {:induction false} SumConstant(n: nat, v: int)
    ensures Sum(seq(n, _ => v)) == n * v
  {
    if n > 0 {
      assert seq(n, _ => v)[1..] == seq(n - 1, _ => v);
      SumConstant(n - 1, v);
      calc {
        Sum(seq(n, _ => v));
        v + (n - 1) * v;
        n * v;
      }
    }
  }
}
