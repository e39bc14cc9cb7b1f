/** Wilder's relative strength index over real prices; the result is rounded to two places at the end. */
module Rsi {
  import opened Rows
  import SmartNum

  function Rise(a: real, b: real): real { if b > a then b - a else 0.0 }

  function Gains(prices: seq<real>): (r: seq<real>)
    ensures |r| == if |prices| == 0 then 0 else |prices| - 1
    ensures forall i {:trigger r[i]} :: 0 <= i < |r| ==> r[i] == Rise(prices[i], prices[i + 1])
  {
    if |prices| < 2 then []
    else seq(|prices| - 1, i requires 0 <= i < |prices| - 1 => Rise(prices[i], prices[i + 1]))
  }

  function Losses(prices: seq<real>): (r: seq<real>)
    ensures |r| == if |prices| == 0 then 0 else |prices| - 1
    ensures forall i {:trigger r[i]} :: 0 <= i < |r| ==> r[i] == Rise(prices[i + 1], prices[i])
  {
    if |prices| < 2 then []
    else seq(|prices| - 1, i requires 0 <= i < |prices| - 1 => Rise(prices[i + 1], prices[i]))
  }

  ghost predicate NonNegative(s: seq<real>) { forall i :: 0 <= i < |s| ==> s[i] >= 0.0 }

  ghost predicate AllZero(s: seq<real>) { forall i :: 0 <= i < |s| ==> s[i] == 0.0 }

  function Sum(s: seq<real>): (r: real)
    ensures NonNegative(s) ==> r >= 0.0
  {
    if s == [] then 0.0 else Sum(s[..|s| - 1]) + s[|s| - 1]
  }

  function Smooth(avg: real, move: real, period: int): (r: real)
    requires period > 0
    ensures avg >= 0.0 && move >= 0.0 ==> r >= 0.0
  {
    (avg * (period - 1) as real + move) / period as real
  }

  /** The mean of the first `period` moves, smoothed over the others. */
  function Wilder(moves: seq<real>, period: int): (r: real)
    requires 0 < period <= |moves|
    ensures NonNegative(moves) ==> r >= 0.0
  {
    if |moves| == period then Sum(moves) / period as real
    else Smooth(Wilder(moves[..|moves| - 1], period), moves[|moves| - 1], period)
  }

  function Index(avgGain: real, avgLoss: real): real
    requires avgGain >= 0.0 && avgLoss >= 0.0
  {
    if avgLoss == 0.0 then 100.0
    else
      var rs := avgGain / avgLoss;
      assert rs >= 0.0;
      100.0 - 100.0 / (1.0 + rs)
  }

  function Rsi(prices: seq<real>, period: int): Option<real> {
    if period <= 0 || |prices| < period + 1 then None
    else Some(Index(Wilder(Gains(prices), period), Wilder(Losses(prices), period)))
  }

  lemma WilderNext(moves: seq<real>, n: int, period: int)
    requires 0 < period <= n < |moves|
    ensures Wilder(moves[..n + 1], period) == Smooth(Wilder(moves[..n], period), moves[n], period)
  {
    assert moves[..n + 1][..n] == moves[..n];
  }

  /** A real number rounded to two places. */
  function Rounded(x: real): real { SmartNum.Ratio(SmartNum.Round(x, 2), SmartNum.Pow10(2)) }

  method CalculateRsi(prices: seq<real>, period: int) returns (rsi: Option<real>)
    ensures rsi.Some? <==> Rsi(prices, period).Some?
    ensures rsi.Some? ==> rsi.value == Rounded(Rsi(prices, period).value)
  {
    if period <= 0 { return None; }
    if |prices| < period + 1 { return None; }
    var gains, losses := Gains(prices), Losses(prices);
    var avgGain := Sum(gains[..period]) / period as real;
    var avgLoss := Sum(losses[..period]) / period as real;
    for idx := period to |gains|
      invariant avgGain == Wilder(gains[..idx], period)
      invariant avgLoss == Wilder(losses[..idx], period)
    {
      WilderNext(gains, idx, period);
      WilderNext(losses, idx, period);
      avgGain := Smooth(avgGain, gains[idx], period);
      avgLoss := Smooth(avgLoss, losses[idx], period);
    }
    assert gains[..|gains|] == gains && losses[..|losses|] == losses;
    if avgLoss == 0.0 {
      RoundedHundred();
      return Some(100.0);
    }
    return Some(Rounded(Index(avgGain, avgLoss)));
  }

  lemma RoundedHundred()
    ensures Rounded(100.0) == 100.0
  {
    assert SmartNum.Pow10(2) == 100;
    SmartNum.RoundIsNearest(100.0, 2, 10000);
  }

  /** Rounding moves the index by at most half a hundredth and keeps it between 0 and 100. */
  lemma RoundedStaysInBounds(x: real)
    requires 0.0 <= x <= 100.0
    ensures 0.0 <= Rounded(x) <= 100.0 && -0.005 <= Rounded(x) - x <= 0.005
  {
    assert SmartNum.Pow10(2) == 100;
    var n := SmartNum.Round(x, 2);
    SmartNum.RoundIsNearest(x, 2, n);
    assert SmartNum.Units(x, 2) == x * 100.0;
  }

  // ----- the weights -----

  /** The first average is the mean of the first moves. */
  lemma MeanOfTheFirst(moves: seq<real>, period: int)
    requires 0 < period == |moves|
    ensures Wilder(moves, period) * period as real == Sum(moves)
  {
  }

  function Pow(b: real, k: nat): real { if k == 0 then 1.0 else b * Pow(b, k - 1) }

  function Repeated(x: real, k: nat): (r: seq<real>)
    ensures |r| == k
  {
    if k == 0 then [] else Repeated(x, k - 1) + [x]
  }

  lemma OneStepNearer(avg: real, move: real, period: int)
    requires period > 0
    ensures Times(Smooth(avg, move, period) - move, period as real) == Times(avg - move, (period - 1) as real)
  {
    assert Smooth(avg, move, period) * period as real == avg * (period - 1) as real + move;
    assert (period - 1) as real == period as real - 1.0;
  }

  lemma WilderOnce(moves: seq<real>, period: int, x: real)
    requires 0 < period <= |moves|
    ensures Wilder(moves + [x], period) == Smooth(Wilder(moves, period), x, period)
  {
    assert (moves + [x])[..|moves|] == moves;
  }

  lemma ForgetsOnce(next: real, here: real, start: real, p: real, q: real, k: nat)
    requires Times(next, p) == Times(here, q) && Times(here, Pow(p, k)) == Times(start, Pow(q, k))
    ensures Times(next, Pow(p, k + 1)) == Times(start, Pow(q, k + 1))
  {
    ScaleBoth(next, here, start, p, q, Pow(p, k), Pow(q, k));
  }

  /** How far the average is from a move. */
  function Distance(moves: seq<real>, period: int, x: real): real
    requires 0 < period <= |moves|
  {
    Wilder(moves, period) - x
  }

  lemma DistanceOnce(moves: seq<real>, period: int, x: real)
    requires 0 < period <= |moves|
    ensures Times(Distance(moves + [x], period, x), period as real)
            == Times(Distance(moves, period, x), (period - 1) as real)
  {
    WilderOnce(moves, period, x);
    OneStepNearer(Wilder(moves, period), x, period);
  }

  /**
   * Smoothing forgets at a fixed rate: whatever came before, each further move of the same size takes the distance of
   * the average from it down to the share (period - 1) / period.
   */
  lemma {:induction false} WilderForgets(moves: seq<real>, period: int, x: real, k: nat)
    requires 0 < period <= |moves|
    ensures Times(Distance(moves + Repeated(x, k), period, x), Pow(period as real, k))
            == Times(Distance(moves, period, x), Pow((period - 1) as real, k))
    decreases k
  {
    if k == 0 {
      assert moves + Repeated(x, 0) == moves;
    } else {
      var longer := moves + Repeated(x, k - 1);
      assert moves + Repeated(x, k) == longer + [x];
      WilderForgets(moves, period, x, k - 1);
      DistanceOnce(longer, period, x);
      ForgetsOnce(Distance(longer + [x], period, x), Distance(longer, period, x), Distance(moves, period, x),
        period as real, (period - 1) as real, k - 1);
    }
  }

  lemma ScaleBoth(next: real, here: real, start: real, p: real, q: real, pk: real, qk: real)
    requires next * p == here * q && here * pk == start * qk
    ensures next * (p * pk) == start * (q * qk)
  {
    assert next * (p * pk) == (next * p) * pk;
    assert (here * q) * pk == (here * pk) * q;
    assert (start * qk) * q == start * (q * qk);
  }

  // ----- bounds -----

  lemma DivTimes(k: real, a: real, b: real)
    requires b > 0.0
    ensures (k * a) / b == k * (a / b) && a / b * b == a
  {
    var q := a / b;
    assert q * b == a;
    assert (k * q) * b == k * a;
  }

  /** The index is the share of the gains in all moves, in percent; 100 without losses. */
  lemma IndexIsShare(g: real, l: real)
    requires g >= 0.0 && l >= 0.0 && g + l > 0.0
    ensures Index(g, l) == 100.0 * (g / (g + l))
  {
    if l == 0.0 {
      QuotientIs(g, g + l, 1.0);
    } else {
      var rs, share := g / l, l / (g + l);
      DivTimes(1.0, g, l);
      DivTimes(1.0, l, g + l);
      assert (1.0 + rs) * l == g + l;
      assert share * (1.0 + rs) * l == share * (g + l);
      assert (share * (1.0 + rs) - 1.0) * l == 0.0;
      QuotientIs(100.0, 1.0 + rs, 100.0 * share);
      SharesAddUp(g, l);
    }
  }

  lemma QuotientIs(a: real, b: real, q: real)
    requires b > 0.0 && q * b == a
    ensures a / b == q
  {
    var r := a / b;
    assert r * b == a;
    assert (r - q) * b == 0.0;
  }

  lemma {:induction false} SumIsZeroExactly(s: seq<real>)
    requires NonNegative(s)
    ensures Sum(s) == 0.0 <==> AllZero(s)
  {
    if s != [] {
      SumIsZeroExactly(s[..|s| - 1]);
      assert s == s[..|s| - 1] + [s[|s| - 1]];
    }
  }

  /** An average vanishes only if every move does, however long ago: smoothing forgets slowly, but never. */
  lemma {:induction false} WilderIsZeroExactly(moves: seq<real>, period: int)
    requires 1 < period <= |moves| && NonNegative(moves)
    ensures Wilder(moves, period) == 0.0 <==> AllZero(moves)
    decreases |moves|
  {
    if |moves| == period {
      SumIsZeroExactly(moves);
      DivTimes(1.0, Sum(moves), period as real);
    } else {
      var before, last := moves[..|moves| - 1], moves[|moves| - 1];
      WilderIsZeroExactly(before, period);
      assert moves == before + [last];
      var w := Wilder(before, period);
      assert Smooth(w, last, period) * period as real == w * (period - 1) as real + last;
      assert w > 0.0 ==> w * (period - 1) as real > 0.0;
    }
  }

  lemma {:induction false} SumIsBetween(s: seq<real>, lo: real, hi: real)
    requires forall i :: 0 <= i < |s| ==> lo <= s[i] <= hi
    ensures Times(lo, |s| as real) <= Sum(s) <= Times(hi, |s| as real)
  {
    if s == [] {
      TimesZero(lo, |s| as real);
      TimesZero(hi, |s| as real);
    } else {
      SumIsBetween(s[..|s| - 1], lo, hi);
      TimesSum(lo, (|s| - 1) as real, 1.0, |s| as real);
      TimesSum(hi, (|s| - 1) as real, 1.0, |s| as real);
      assert Times(lo, 1.0) == lo && Times(hi, 1.0) == hi;
    }
  }

  lemma TimesIsMonotone(a: real, b: real, n: real)
    requires a <= b && n >= 0.0
    ensures a * n <= b * n
  {
    assert (b - a) * n >= 0.0;
  }

  lemma WeightedIsBetween(avg: real, move: real, n: real, lo: real, hi: real)
    requires n >= 0.0 && lo <= avg <= hi && lo <= move <= hi
    ensures lo * (n + 1.0) <= avg * n + move <= hi * (n + 1.0)
  {
    TimesIsMonotone(lo, avg, n);
    TimesIsMonotone(avg, hi, n);
    assert lo * (n + 1.0) == lo * n + lo && hi * (n + 1.0) == hi * n + hi;
  }

  lemma SmoothIsBetween(avg: real, move: real, period: int, lo: real, hi: real)
    requires period > 0 && lo <= avg <= hi && lo <= move <= hi
    ensures lo <= Smooth(avg, move, period) <= hi
  {
    var n := (period - 1) as real;
    WeightedIsBetween(avg, move, n, lo, hi);
    assert period as real == n + 1.0;
    QuotientIsBetween(avg * n + move, n + 1.0, lo, hi);
  }

  lemma QuotientIsBetween(a: real, b: real, lo: real, hi: real)
    requires b > 0.0 && lo * b <= a <= hi * b
    ensures lo <= a / b <= hi
  {
    var q := a / b;
    assert q * b == a;
    assert q < lo ==> (lo - q) * b > 0.0;
    assert q > hi ==> (q - hi) * b > 0.0;
  }

  /** Wilder's average is an average: it lies between any bounds on the moves, so steady moves average to themselves. */
  lemma {:induction false} WilderIsBetween(moves: seq<real>, period: int, lo: real, hi: real)
    requires 0 < period <= |moves| && forall i :: 0 <= i < |moves| ==> lo <= moves[i] <= hi
    ensures lo <= Wilder(moves, period) <= hi
    decreases |moves|
  {
    if |moves| == period {
      SumIsBetween(moves, lo, hi);
      QuotientIsBetween(Sum(moves), period as real, lo, hi);
    } else {
      WilderIsBetween(moves[..|moves| - 1], period, lo, hi);
      SmoothIsBetween(Wilder(moves[..|moves| - 1], period), moves[|moves| - 1], period, lo, hi);
    }
  }

  /**
   * The index lies between 0 and 100. It is 100 exactly if no price fell and 0 exactly if some price fell and none
   * rose, over the whole series.
   */
  lemma RsiIsBounded(prices: seq<real>, period: int)
    requires Rsi(prices, period).Some?
    ensures 0.0 <= Rsi(prices, period).value <= 100.0
    ensures period > 1 ==> (Rsi(prices, period).value == 100.0 <==> AllZero(Losses(prices)))
    ensures period > 1 ==> (Rsi(prices, period).value == 0.0
                            <==> !AllZero(Losses(prices)) && AllZero(Gains(prices)))
  {
    var g, l := Wilder(Gains(prices), period), Wilder(Losses(prices), period);
    if period > 1 {
      WilderIsZeroExactly(Gains(prices), period);
      WilderIsZeroExactly(Losses(prices), period);
    }
    if g + l > 0.0 {
      IndexIsShare(g, l);
      ShareIsBounded(g, l);
    }
  }

  lemma ShareIsBounded(g: real, l: real)
    requires g >= 0.0 && l >= 0.0 && g + l > 0.0
    ensures 0.0 <= g / (g + l) <= 1.0
    ensures g / (g + l) == 0.0 <==> g == 0.0
    ensures g / (g + l) == 1.0 <==> l == 0.0
  {
    var q := g / (g + l);
    DivTimes(1.0, g, g + l);
    assert q * (g + l) == g;
    assert (1.0 - q) * (g + l) == l;
  }

  // ----- scale -----

  function Times(k: real, x: real): real { k * x }

  function Scaled(s: seq<real>, k: real): (r: seq<real>)
    ensures |r| == |s| && forall i {:trigger r[i]} :: 0 <= i < |s| ==> r[i] == Times(k, s[i])
  {
    seq(|s|, i requires 0 <= i < |s| => Times(k, s[i]))
  }

  lemma ScaledPrefix(s: seq<real>, k: real)
    requires s != []
    ensures Scaled(s, k)[..|s| - 1] == Scaled(s[..|s| - 1], k)
  {
    var a, b := Scaled(s, k)[..|s| - 1], Scaled(s[..|s| - 1], k);
    forall i | 0 <= i < |a| ensures a[i] == b[i] { assert s[..|s| - 1][i] == s[i]; }
  }

  lemma TimesZero(k: real, c: real)
    requires c == 0.0
    ensures Times(k, c) == 0.0
  {
  }

  lemma TimesDiv(k: real, a: real, b: real)
    requires b > 0.0
    ensures Times(k, a) / b == Times(k, a / b)
  {
    DivTimes(k, a, b);
  }

  lemma TimesSum(k: real, a: real, b: real, c: real)
    requires c == a + b
    ensures Times(k, a) + Times(k, b) == Times(k, c)
  {
  }

  lemma {:induction false} SumScales(s: seq<real>, k: real)
    ensures Sum(Scaled(s, k)) == Times(k, Sum(s))
  {
    var t := Scaled(s, k);
    if s == [] {
      TimesZero(k, Sum(s));
      assert Sum(t) == 0.0;
    } else {
      var before, last := s[..|s| - 1], s[|s| - 1];
      SumScales(before, k);
      ScaledPrefix(s, k);
      var sum := Sum(s);
      assert sum == Sum(before) + last;
      TimesSum(k, Sum(before), last, sum);
    }
  }

  lemma {:induction false} WilderScales(moves: seq<real>, period: int, k: real)
    requires 0 < period <= |moves|
    ensures Wilder(Scaled(moves, k), period) == Times(k, Wilder(moves, period))
    decreases |moves|
  {
    var t := Scaled(moves, k);
    if |moves| == period {
      SumScales(moves, k);
      TimesDiv(k, Sum(moves), period as real);
      assert Wilder(t, period) == Sum(t) / period as real;
    } else {
      var before, last := moves[..|moves| - 1], moves[|moves| - 1];
      WilderScales(before, period, k);
      ScaledPrefix(moves, k);
      SmoothScales(Wilder(before, period), last, period, k);
      assert Wilder(t, period) == Smooth(Wilder(t[..|t| - 1], period), t[|t| - 1], period);
    }
  }

  lemma SmoothScales(avg: real, move: real, period: int, k: real)
    requires period > 0
    ensures Smooth(Times(k, avg), Times(k, move), period) == Times(k, Smooth(avg, move, period))
  {
    var n := (period - 1) as real;
    assert (k * avg) * n == k * (avg * n);
    DivTimes(k, avg * n + move, period as real);
  }

  lemma IndexScales(g: real, l: real, k: real)
    requires g >= 0.0 && l >= 0.0 && k > 0.0
    ensures Times(k, g) >= 0.0 && Times(k, l) >= 0.0 && Index(Times(k, g), Times(k, l)) == Index(g, l)
  {
    if l != 0.0 {
      assert k * l > 0.0;
      DivTimes(1.0, g, l);
      assert g / l * (k * l) == k * g;
      QuotientIs(k * g, k * l, g / l);
    }
  }

  lemma MovesScale(prices: seq<real>, k: real)
    requires k > 0.0
    ensures Gains(Scaled(prices, k)) == Scaled(Gains(prices), k)
    ensures Losses(Scaled(prices, k)) == Scaled(Losses(prices), k)
  {
    var s := Scaled(prices, k);
    forall i | 0 <= i < |prices| - 1
      ensures Gains(s)[i] == Times(k, Gains(prices)[i]) && Losses(s)[i] == Times(k, Losses(prices)[i])
    {
      assert s[i] == Times(k, prices[i]) && s[i + 1] == Times(k, prices[i + 1]);
      RiseScales(prices[i], prices[i + 1], k);
      RiseScales(prices[i + 1], prices[i], k);
    }
  }

  /** The index does not depend on the unit of the prices. */
  lemma RsiIgnoresScale(prices: seq<real>, period: int, k: real)
    requires k > 0.0
    ensures Rsi(Scaled(prices, k), period) == Rsi(prices, period)
  {
    if 0 < period < |prices| {
      var gains, losses := Gains(prices), Losses(prices);
      MovesScale(prices, k);
      WilderScales(gains, period, k);
      WilderScales(losses, period, k);
      var g, l := Wilder(gains, period), Wilder(losses, period);
      IndexScales(g, l, k);
      assert Wilder(Gains(Scaled(prices, k)), period) == Times(k, g);
      assert Wilder(Losses(Scaled(prices, k)), period) == Times(k, l);
    }
  }

  lemma RiseScales(a: real, b: real, k: real)
    requires k > 0.0
    ensures Rise(Times(k, a), Times(k, b)) == Times(k, Rise(a, b))
  {
    assert k * b - k * a == k * (b - a);
  }

  // ----- mirror -----

  /** The series whose every move is the opposite one. */
  function Mirrored(prices: seq<real>, c: real): (r: seq<real>)
    ensures |r| == |prices| && forall i {:trigger r[i]} :: 0 <= i < |r| ==> r[i] == c - prices[i]
  {
    seq(|prices|, i requires 0 <= i < |prices| => c - prices[i])
  }

  lemma MovesMirror(prices: seq<real>, c: real)
    ensures Gains(Mirrored(prices, c)) == Losses(prices) && Losses(Mirrored(prices, c)) == Gains(prices)
  {
    var m := Mirrored(prices, c);
    forall i | 0 <= i < |prices| - 1 ensures Gains(m)[i] == Losses(prices)[i] && Losses(m)[i] == Gains(prices)[i] {
      assert m[i] == c - prices[i] && m[i + 1] == c - prices[i + 1];
    }
  }

  /**
   * Mirroring all moves mirrors the index at 50, exactly unless both averages vanish: a flat series has the index 100,
   * and so has its mirror image.
   */
  lemma RsiMirrors(prices: seq<real>, c: real, period: int)
    requires Rsi(prices, period).Some?
    ensures Rsi(Mirrored(prices, c), period).Some?
    ensures Rsi(Mirrored(prices, c), period).value == 100.0 - Rsi(prices, period).value
            <==> Wilder(Gains(prices), period) > 0.0 || Wilder(Losses(prices), period) > 0.0
  {
    MovesMirror(prices, c);
    var g, l := Wilder(Gains(prices), period), Wilder(Losses(prices), period);
    if g + l > 0.0 {
      IndexIsShare(g, l);
      IndexIsShare(l, g);
      SharesAddUp(g, l);
    }
  }

  lemma SharesAddUp(g: real, l: real)
    requires g >= 0.0 && l >= 0.0 && g + l > 0.0
    ensures g / (g + l) + l / (l + g) == 1.0
  {
    DivTimes(1.0, g, g + l);
    DivTimes(1.0, l, g + l);
    QuotientIs(g + l, g + l, g / (g + l) + l / (g + l));
    QuotientIs(g + l, g + l, 1.0);
  }
}
