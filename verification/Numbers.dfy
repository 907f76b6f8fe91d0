/** Integers as the service uses them: unbounded `big.Int` values with Euclidean division, the
    fixed-width block numbers and counters, and how much is lost when a list is divided item by item. */
module Numbers {

  const TWO_32: nat := 0x1_0000_0000
  const TWO_63: nat := 0x8000_0000_0000_0000
  const TWO_64: nat := 0x1_0000_0000_0000_0000

  type uint32 = x: int | 0 <= x < 0x1_0000_0000
  type uint64 = x: int | 0 <= x < 0x1_0000_0000_0000_0000

  function Max(a: int, b: int): int {
    if a < b then b else a
  }

  function Min(a: int, b: int): int {
    if a < b then a else b
  }

  /** `a * b / c` without intermediate rounding. For a positive divisor it is the exact quotient rounded down;
      `big.Int.Div`, like `/` here, rounds so that the remainder is never negative. */
  function MulDiv(a: int, b: int, c: int): (q: int)
    requires c != 0
    ensures c > 0 ==> q * c <= a * b < (q + 1) * c
  {
    a * b / c
  }

  function Sum(xs: seq<int>): int {
    if |xs| == 0 then 0 else Sum(xs[..|xs| - 1]) + xs[|xs| - 1]
  }

  /** How many elements are above zero. */
  function Positives(xs: seq<int>): nat {
    if |xs| == 0 then 0 else Positives(xs[..|xs| - 1]) + if xs[|xs| - 1] > 0 then 1 else 0
  }

  function Floors(xs: seq<int>, t: int): (r: seq<int>)
    requires t != 0
  {
    seq(|xs|, i requires 0 <= i < |xs| => xs[i] / t)
  }

  /** How many elements `t` does not divide. */
  function Inexact(xs: seq<int>, t: int): nat
    requires t != 0
  {
    if |xs| == 0 then 0 else Inexact(xs[..|xs| - 1], t) + if xs[|xs| - 1] % t != 0 then 1 else 0
  }

  /** What each weight receives of `amount` when the divisor is `t`. */
  function Shares(amount: int, weights: seq<int>, t: int): (r: seq<int>)
    requires t != 0
  {
    seq(|weights|, i requires 0 <= i < |weights| => MulDiv(amount, weights[i], t))
  }

  lemma SumOfOne(x: int)
    ensures Sum([]) == 0 && Sum([x]) == x
  {
    assert [x][..0] == [];
  }

  lemma {:induction false} SumConcat(xs: seq<int>, ys: seq<int>)
    ensures Sum(xs + ys) == Sum(xs) + Sum(ys)
  {
    if |ys| == 0 {
      assert xs + ys == xs;
    } else {
      SumConcat(xs, ys[..|ys| - 1]);
      assert (xs + ys)[..|xs + ys| - 1] == xs + ys[..|ys| - 1];
    }
  }

  lemma {:induction false} SumNonNegative(xs: seq<int>)
    requires forall i :: 0 <= i < |xs| ==> xs[i] >= 0
    ensures Sum(xs) >= 0
    ensures Sum(xs) > 0 <==> Positives(xs) > 0
  {
    if |xs| > 0 {
      SumNonNegative(xs[..|xs| - 1]);
    }
  }

  lemma {:induction false} NonePositive(xs: seq<int>)
    ensures Positives(xs) == 0 <==> forall i :: 0 <= i < |xs| ==> xs[i] <= 0
  {
    if |xs| > 0 { NonePositive(xs[..|xs| - 1]); }
  }

  /** Reordering does not change a sum. */
  lemma {:induction false} SumPermutation(xs: seq<int>, ys: seq<int>)
    requires multiset(xs) == multiset(ys)
    ensures Sum(xs) == Sum(ys)
  {
    if |xs| == 0 {
      assert |multiset(ys)| == 0;
    } else {
      var last := xs[|xs| - 1];
      var front := xs[..|xs| - 1];
      assert xs == front + [last];
      assert last in multiset(ys);
      var j :| 0 <= j < |ys| && ys[j] == last;
      var rest := ys[..j] + ys[j + 1..];
      assert ys == ys[..j] + [last] + ys[j + 1..];
      assert multiset(rest) == multiset(ys) - multiset{last};
      assert multiset(front) == multiset(xs) - multiset{last};
      SumPermutation(front, rest);
      SumConcat(ys[..j], ys[j + 1..]);
      SumConcat(ys[..j], [last]);
      SumConcat(ys[..j] + [last], ys[j + 1..]);
      assert Sum([last]) == last by { assert [last][..0] == []; }
    }
  }

  lemma MulMonotone(a: int, b: int, t: int)
    requires t >= 0 && a <= b
    ensures t * a <= t * b
  {
  }

  lemma MulCancel(a: int, b: int, t: int)
    requires t > 0 && t * a < t * b
    ensures a < b
  {
    if a >= b { MulMonotone(b, a, t); }
  }

  /** The remainders add up to what the floors lose. */
  lemma {:induction false} FloorRemainders(xs: seq<int>, t: int)
    requires t > 0
    ensures 0 <= Sum(xs) - t * Sum(Floors(xs, t)) <= (t - 1) * Inexact(xs, t)
  {
    if |xs| > 0 {
      var front, last := xs[..|xs| - 1], xs[|xs| - 1];
      FloorRemainders(front, t);
      assert Floors(xs, t)[..|xs| - 1] == Floors(front, t);
      FloorRemaindersStep(Sum(front), Sum(Floors(front, t)), Inexact(front, t), last, t);
    }
  }

  lemma FloorRemaindersStep(total: int, floors: int, inexact: nat, last: int, t: int)
    requires t > 0
    requires 0 <= total - t * floors <= (t - 1) * inexact
    ensures 0 <= total + last - t * (floors + last / t)
    ensures total + last - t * (floors + last / t) <= (t - 1) * (inexact + if last % t != 0 then 1 else 0)
  {
    var q, r := last / t, last % t;
    assert last == t * q + r && 0 <= r <= t - 1;
    assert t * (floors + q) == t * floors + t * q;
    assert (t - 1) * (inexact + 1) == (t - 1) * inexact + (t - 1);
  }

  lemma QuotientBounds(a: int, t: int, low: int, gap: nat)
    requires t > 0
    requires 0 <= a - t * low <= (t - 1) * gap
    ensures low <= a / t <= low + Max(gap - 1, 0)
  {
    var q, g := a / t, Max(gap, 1);
    assert t * q <= a < t * (q + 1);
    MulCancel(low, q + 1, t);
    assert (t - 1) * gap == t * gap - gap;
    MulMonotone(gap, g, t);
    assert t * (low + g) == t * low + t * g;
    MulCancel(q, low + g, t);
  }

  /** Dividing item by item never yields more than dividing the total, and loses at most one unit fewer
      than there are items with a remainder. */
  lemma FloorSum(xs: seq<int>, t: int)
    requires t > 0
    ensures Sum(Floors(xs, t)) <= Sum(xs) / t <= Sum(Floors(xs, t)) + Max(Inexact(xs, t) - 1, 0)
  {
    FloorRemainders(xs, t);
    QuotientBounds(Sum(xs), t, Sum(Floors(xs, t)), Inexact(xs, t));
  }

  function Scaled(m: int, xs: seq<int>): (r: seq<int>) {
    seq(|xs|, i requires 0 <= i < |xs| => m * xs[i])
  }

  lemma {:induction false} SumScaled(m: int, xs: seq<int>)
    ensures Sum(Scaled(m, xs)) == m * Sum(xs)
  {
    if |xs| > 0 {
      var front := xs[..|xs| - 1];
      SumScaled(m, front);
      assert Scaled(m, xs)[..|xs| - 1] == Scaled(m, front);
      assert m * Sum(xs) == m * Sum(front) + m * xs[|xs| - 1];
    }
  }

  lemma {:induction false} InexactScaled(m: int, xs: seq<int>, t: int)
    requires t > 0
    requires forall i :: 0 <= i < |xs| ==> xs[i] >= 0
    ensures Inexact(Scaled(m, xs), t) <= Positives(xs)
  {
    if |xs| > 0 {
      var front, last := xs[..|xs| - 1], xs[|xs| - 1];
      InexactScaled(m, front, t);
      assert Scaled(m, xs)[..|xs| - 1] == Scaled(m, front);
      if last == 0 { assert m * last == 0; }
    }
  }

  lemma SharesAreFloors(amount: int, weights: seq<int>, t: int)
    requires t > 0
    ensures Shares(amount, weights, t) == Floors(Scaled(amount, weights), t)
  {
    forall i | 0 <= i < |weights| ensures Shares(amount, weights, t)[i] == Floors(Scaled(amount, weights), t)[i] {
      assert Scaled(amount, weights)[i] == amount * weights[i];
    }
  }

  /** Splitting `amount`, of any sign, over non-negative weights: the shares never exceed the share of all
      weights together, and fall short of it by less than the number of positive weights. */
  lemma Apportion(amount: int, weights: seq<int>, t: int)
    requires t > 0
    requires forall i :: 0 <= i < |weights| ==> weights[i] >= 0
    ensures Sum(Shares(amount, weights, t)) <= MulDiv(amount, Sum(weights), t)
    ensures MulDiv(amount, Sum(weights), t) <= Sum(Shares(amount, weights, t)) + Max(Positives(weights) - 1, 0)
  {
    var scaled := Scaled(amount, weights);
    SharesAreFloors(amount, weights, t);
    assert MulDiv(amount, Sum(weights), t) == Sum(scaled) / t by { SumScaled(amount, weights); }
    InexactScaled(amount, weights, t);
    FloorSum(scaled, t);
  }

  /** Dividing the whole by itself: when the divisor is the sum of the weights the shares add up to `amount`
      less a dust smaller than the number of positive weights. */
  lemma ApportionAll(amount: int, weights: seq<int>)
    requires forall i :: 0 <= i < |weights| ==> weights[i] >= 0
    requires Sum(weights) > 0
    ensures Sum(Shares(amount, weights, Sum(weights))) <= amount
    ensures amount <= Sum(Shares(amount, weights, Sum(weights))) + Positives(weights) - 1
  {
    var t := Sum(weights);
    Apportion(amount, weights, t);
    SumNonNegative(weights);
    MulDivWhole(amount, t);
  }

  lemma MulDivWhole(amount: int, t: int)
    requires t > 0
    ensures MulDiv(amount, t, t) == amount
  {
    var q := MulDiv(amount, t, t);
    assert t * q <= t * amount < t * (q + 1);
    MulCancel(amount, q + 1, t);
    MulCancel(q, amount + 1, t);
  }
}
