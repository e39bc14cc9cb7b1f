/**
 * Minute samples of a symbol's price and open interest, and the lookup of the sample a number of minutes back: by
 * index first, among the neighbours if that one is off, by age if there are too few. Times are reals in seconds.
 */
module Vicinity {
  import opened Rows

  datatype Sample = Sample(ts: real, price: real, oi: real)

  const MAXLEN := 61
  const MINUTE := 60.0
  const NEAR := 20.0
  const TOLERANCE := 45.0
  const FAIR_AGE := 120.0

  function Away(s: Sample, t: real): real { if s.ts < t then t - s.ts else s.ts - t }

  /** Indexing as Python does it: negative indices count from the end, anything else outside raises `IndexError`. */
  function At(hist: seq<Sample>, i: int): Option<Sample> {
    if 0 <= i < |hist| then Some(hist[i])
    else if -|hist| <= i < 0 then Some(hist[|hist| + i])
    else None
  }

  /** The first of the nearest samples at the indices of a range. */
  function Nearest(hist: seq<Sample>, lo: int, hi: int, t: real): Option<Sample>
    decreases if lo < hi then hi - lo else 0
  {
    if lo >= hi then None
    else
      var best, candidate := Nearest(hist, lo, hi - 1, t), At(hist, hi - 1);
      if candidate.Some? && (best.None? || Away(candidate.value, t) < Away(best.value, t)) then candidate else best
  }

  lemma {:induction false} NearestIsNearest(hist: seq<Sample>, lo: int, hi: int, t: real)
    ensures var r := Nearest(hist, lo, hi, t);
            && (r.None? <==> forall i :: lo <= i < hi ==> At(hist, i).None?)
            && (r.Some? ==> exists i :: lo <= i < hi && At(hist, i) == r)
            && (r.Some? ==> forall i :: lo <= i < hi && At(hist, i).Some? ==>
              Away(r.value, t) <= Away(At(hist, i).value, t))
    decreases if lo < hi then hi - lo else 0
  {
    if lo < hi {
      NearestIsNearest(hist, lo, hi - 1, t);
      var candidate := At(hist, hi - 1);
    }
  }

  function TargetIndex(w: int): int { -(w + 1) }
  function TargetTime(now: real, w: int): real { now - w as real * MINUTE }

  function Lookup(hist: seq<Sample>, now: real, w: int): Option<Sample> {
    if hist == [] || w < 1 then None
    else
      var i, t := TargetIndex(w), TargetTime(now, w);
      var direct := At(hist, i);
      if direct.None? then (if now - hist[0].ts >= FAIR_AGE then Some(hist[0]) else None)
      else if Away(direct.value, t) <= NEAR then direct
      else
        var best := Nearest(hist, i - 2, i + 3, t);
        if best.Some? && Away(best.value, t) <= TOLERANCE then best else None
  }

  method GetWindowRecord(hist: seq<Sample>, now: real, windowMinutes: int) returns (r: Option<Sample>)
    ensures r == Lookup(hist, now, windowMinutes)
  {
    if hist == [] || windowMinutes < 1 { return None; }
    var targetIdx := -(windowMinutes + 1);
    var targetTime := now - windowMinutes as real * MINUTE;
    var direct := At(hist, targetIdx);
    if direct.None? {
      var oldest := hist[0];
      if now - oldest.ts >= FAIR_AGE { return Some(oldest); }
      return None;
    }
    if Away(direct.value, targetTime) <= NEAR { return direct; }
    var best := None;
    for idx := targetIdx - 2 to targetIdx + 3
      invariant best == Nearest(hist, targetIdx - 2, idx, targetTime)
    {
      var candidate := At(hist, idx);
      if candidate.None? { continue; }
      if best.None? || Away(candidate.value, targetTime) < Away(best.value, targetTime) { best := candidate; }
    }
    if best.Some? && Away(best.value, targetTime) <= TOLERANCE { return best; }
    return None;
  }

  // ----- the samples -----

  /** A bounded deque drops its oldest entry. */
  function Append(hist: seq<Sample>, s: Sample): seq<Sample> {
    var all := hist + [s];
    if |all| > MAXLEN then all[|all| - MAXLEN..] else all
  }

  /** Nothing but the oldest sample is dropped, and that only from the 62nd on. */
  lemma AppendDropsTheOldest(hist: seq<Sample>, s: Sample)
    requires |hist| <= 61
    ensures Append(hist, s) == (if |hist| < 61 then hist else hist[1..]) + [s]
  {
  }

  function Newest(hist: seq<Sample>): real {
    if hist == [] then 0.0 else hist[|hist| - 1].ts
  }

  function Updated(hist: seq<Sample>, s: Sample): seq<Sample> {
    if s.ts - Newest(hist) >= MINUTE then Append(hist, s) else hist
  }

  /** A value of the open interest, stamped in milliseconds; the points come in the order of time. */
  datatype Point = Point(at: real, value: real)

  /** The last point of a list that is not after a time. */
  function LastUpTo(points: seq<Point>, t: real): Option<real> {
    if points == [] then None
    else if points[|points| - 1].at <= t then Some(points[|points| - 1].value)
    else LastUpTo(points[..|points| - 1], t)
  }

  /** The open interest a sample is seeded with: the latest known, or the oldest point if that is missing or zero. */
  function OiAt(points: seq<Point>, ts: real): real {
    var latest := LastUpTo(points, ts * 1000.0).GetOr(0.0);
    if latest == 0.0 && points != [] then points[0].value else latest
  }

  method OpenInterestAt(points: seq<Point>, ts: real) returns (oi: real)
    ensures oi == OiAt(points, ts)
  {
    oi := 0.0;
    var i := |points|;
    assert points[..i] == points;
    while i > 0
      invariant 0 <= i <= |points| && oi == 0.0
      invariant LastUpTo(points, ts * 1000.0) == LastUpTo(points[..i], ts * 1000.0)
    {
      i := i - 1;
      assert points[..i + 1][..i] == points[..i];
      if points[i].at <= ts * 1000.0 {
        oi := points[i].value;
        break;
      }
    }
    if oi == 0.0 && points != [] { oi := points[0].value; }
  }

  /** In time order and with values other than zero that is the most recent point, or the first one if all are later. */
  lemma {:induction false} SeededInterestIsLatest(points: seq<Point>, ts: real, k: nat)
    requires forall i, j | 0 <= i < j < |points| :: points[i].at <= points[j].at
    requires forall i :: 0 <= i < |points| ==> points[i].value != 0.0
    requires k < |points| && (points[k].at <= ts * 1000.0 || k == 0)
    requires k + 1 < |points| ==> ts * 1000.0 < points[k + 1].at
    ensures OiAt(points, ts) == points[k].value
  {
    if k + 1 < |points| {
      var before := points[..|points| - 1];
      SeededInterestIsLatest(before, ts, k);
      assert ts * 1000.0 < points[k + 1].at <= points[|points| - 1].at;
      assert LastUpTo(points, ts * 1000.0) == LastUpTo(before, ts * 1000.0) && before[0] == points[0];
    } else if points[k].at > ts * 1000.0 {
      assert points[..|points| - 1] == [] && LastUpTo([], ts * 1000.0) == None;
    } else {
      assert LastUpTo(points, ts * 1000.0) == Some(points[k].value);
    }
  }

  /** The stamp of price `i` of `count`, the last of which is stamped `minute`. */
  function StampOf(minute: real, count: int, i: int): real { minute - (count - 1 - i) as real * MINUTE }

  /** The last `n` closing prices, stamped with the starts of the minutes up to `minute`. */
  function Stamped(prices: seq<real>, points: seq<Point>, minute: real): (r: seq<Sample>)
    ensures |r| == |prices|
    ensures forall i :: 0 <= i < |r| ==> r[i].ts == StampOf(minute, |prices|, i)
    ensures forall i :: 0 <= i < |r| ==> r[i].price == prices[i] && r[i].oi == OiAt(points, r[i].ts)
  {
    if prices == [] then []
    else
      var ts := StampOf(minute, |prices|, 0);
      [Sample(ts, prices[0], OiAt(points, ts))] + Stamped(prices[1..], points, minute)
  }

  function MinuteOf(now: real): real { (now / MINUTE).Floor as real * MINUTE }

  function Seeded(hist: seq<Sample>, prices: seq<real>, points: seq<Point>, now: real): seq<Sample> {
    if prices == [] || |hist| >= 2 then hist
    else Stamped(if |prices| > 60 then prices[|prices| - 60..] else prices, points, MinuteOf(now))
  }

  /**
   * Samples are seeded exactly if there are prices and fewer than two samples: one for each of the last sixty prices, a
   * minute apart, the last one at the start of the present minute.
   */
  lemma SeededExactly(hist: seq<Sample>, prices: seq<real>, points: seq<Point>, now: real)
    ensures prices == [] || |hist| >= 2 ==> Seeded(hist, prices, points, now) == hist
    ensures prices != [] && |hist| < 2 ==>
              var r := Seeded(hist, prices, points, now);
              var n := if |prices| < 60 then |prices| else 60;
              && |r| == n && r[n - 1].ts <= now < r[n - 1].ts + 60.0
              && (r[n - 1].ts / 60.0).Floor as real * 60.0 == r[n - 1].ts
              && forall i :: 0 <= i < n ==>
                   && r[i].ts == r[n - 1].ts - (n - 1 - i) as real * 60.0
                   && r[i].price == prices[|prices| - n + i] && r[i].oi == OiAt(points, r[i].ts)
  {
    var minute := MinuteOf(now);
    assert now == now / 60.0 * 60.0;
    assert minute / 60.0 == (now / 60.0).Floor as real by { assert minute == (now / 60.0).Floor as real * 60.0; }
  }

  datatype Snapshot = Snapshot(price: real, oi: real, funding: real, vol24h: real, ts: real)

  /** A field that did not come keeps its value. */
  function Merge(was: Snapshot, price: Option<real>, oi: Option<real>, funding: Option<real>, vol24h: Option<real>,
      now: real): Snapshot {
    Snapshot(price.GetOr(was.price), oi.GetOr(was.oi), funding.GetOr(was.funding), vol24h.GetOr(was.vol24h), now)
  }

  method StampPrices(prices: seq<real>, points: seq<Point>, minute: real) returns (hist: seq<Sample>)
    ensures hist == Stamped(prices, points, minute)
  {
    ghost var want := Stamped(prices, points, minute);
    hist := [];
    var count := |prices|;
    for i := 0 to count
      invariant hist == want[..i]
    {
      StampedAt(prices, points, minute, i);
      var ts := StampOf(minute, count, i);
      var oi := OpenInterestAt(points, ts);
      hist := hist + [Sample(ts, prices[i], oi)];
    }
    assert want[..count] == want;
  }

  lemma StampedAt(prices: seq<real>, points: seq<Point>, minute: real, i: nat)
    requires i < |prices|
    ensures var ts := StampOf(minute, |prices|, i);
            Stamped(prices, points, minute)[i] == Sample(ts, prices[i], OiAt(points, ts))
  {
  }

  class MarketAggregator {
    var history: map<string, seq<Sample>>
    var snapshots: map<string, Snapshot>

    function History(symbol: string): seq<Sample>
      reads this
    {
      if symbol in history then history[symbol] else []
    }

    function Current(symbol: string): Snapshot
      reads this
    {
      if symbol in snapshots then snapshots[symbol] else Snapshot(0.0, 0.0, 0.0, 0.0, 0.0)
    }

    constructor ()
      ensures history == map[] && snapshots == map[]
    {
      history, snapshots := map[], map[];
    }

    method Update(symbol: string, price: Option<real>, oi: Option<real>, funding: Option<real>, vol24h: Option<real>,
        now: real)
      modifies this
      ensures symbol in snapshots
      ensures snapshots[symbol] == Merge(old(Current(symbol)), price, oi, funding, vol24h, now)
      ensures symbol !in old(snapshots) ==>
                snapshots[symbol]
                == Snapshot(price.GetOr(0.0), oi.GetOr(0.0), funding.GetOr(0.0), vol24h.GetOr(0.0), now)
      ensures History(symbol) == Updated(old(History(symbol)),
                Sample(now, snapshots[symbol].price, snapshots[symbol].oi))
      ensures forall other: string :: other != symbol ==>
                History(other) == old(History(other)) && Current(other) == old(Current(other))
    {
      var snap := UpdateSnapshot(symbol, price, oi, funding, vol24h, now);
      RecordSample(symbol, snap, now);
    }

    /** Only the fields that came are overwritten. */
    method UpdateSnapshot(symbol: string, price: Option<real>, oi: Option<real>, funding: Option<real>,
        vol24h: Option<real>, now: real)
        returns (snap: Snapshot)
      modifies this`snapshots
      ensures snap == Merge(old(Current(symbol)), price, oi, funding, vol24h, now)
      ensures snapshots == old(snapshots)[symbol := snap]
    {
      snap := if symbol in snapshots then snapshots[symbol] else Snapshot(0.0, 0.0, 0.0, 0.0, now);
      if price.Some? { snap := snap.(price := price.value); }
      if oi.Some? { snap := snap.(oi := oi.value); }
      if funding.Some? { snap := snap.(funding := funding.value); }
      if vol24h.Some? { snap := snap.(vol24h := vol24h.value); }
      snap := snap.(ts := now);
      snapshots := snapshots[symbol := snap];
    }

    /** A sample a minute. */
    method RecordSample(symbol: string, snap: Snapshot, now: real)
      modifies this`history
      ensures History(symbol) == Updated(old(History(symbol)), Sample(now, snap.price, snap.oi))
      ensures forall other: string :: other != symbol ==> History(other) == old(History(other))
    {
      if symbol !in history { history := history[symbol := []]; }
      var hist := history[symbol];
      var lastTs := if hist != [] then hist[|hist| - 1].ts else 0.0;
      if now - lastTs >= MINUTE {
        history := history[symbol := Append(hist, Sample(now, snap.price, snap.oi))];
      }
    }

    method SeedHistory(symbol: string, prices: seq<real>, points: seq<Point>, now: real)
      modifies this`history
      ensures History(symbol) == Seeded(old(History(symbol)), prices, points, now)
      ensures forall other: string :: other != symbol ==> History(other) == old(History(other))
    {
      if prices == [] || |History(symbol)| >= 2 { return; }
      var hist := StampPrices(if |prices| > 60 then prices[|prices| - 60..] else prices, points, MinuteOf(now));
      history := history[symbol := hist];
    }

    /** The sample the changes since `windowMinutes` ago are measured against. */
    method BaseRecord(symbol: string, windowMinutes: int) returns (r: Option<Sample>)
      ensures r == if symbol in snapshots then Lookup(History(symbol), snapshots[symbol].ts, windowMinutes) else None
    {
      if symbol !in snapshots { return None; }
      r := GetWindowRecord(History(symbol), snapshots[symbol].ts, windowMinutes);
    }
  }

  // ----- the lookup is sound and complete -----

  /** Within `d` seconds of a moment. */
  predicate Near(s: Sample, t: real, d: real) { t - d <= s.ts <= t + d }

  /** At most as far from a moment as the other one, on whichever side they are. */
  predicate NotFarther(a: Sample, b: Sample, t: real) {
    && (a.ts - t <= b.ts - t || a.ts - t <= t - b.ts)
    && (t - a.ts <= b.ts - t || t - a.ts <= t - b.ts)
  }

  /** Index `k` counts from the front, or, if it is negative, from the end. */
  predicate Stands(hist: seq<Sample>, k: int, x: Sample) {
    (0 <= k < |hist| && x == hist[k]) || (-|hist| <= k < 0 && x == hist[|hist| + k])
  }

  lemma AtStands(hist: seq<Sample>, k: int)
    ensures forall x :: At(hist, k) == Some(x) <==> Stands(hist, k, x)
  {
  }

  lemma AwayIs(a: Sample, b: Sample, t: real, d: real)
    ensures Away(a, t) <= Away(b, t) <==> NotFarther(a, b, t)
    ensures Away(a, t) <= d <==> Near(a, t, d)
  {
  }

  /**
   * The first of the nearest samples at indices from `lo` to `hi`: those before it are farther, the others not
   * nearer.
   */
  ghost predicate IsFirstNearest(hist: seq<Sample>, lo: int, hi: int, t: real, r: Sample) {
    exists k :: lo <= k < hi && Stands(hist, k, r)
      && (forall j, y | lo <= j < k && Stands(hist, j, y) :: !NotFarther(y, r, t))
      && (forall j, y | k <= j < hi && Stands(hist, j, y) :: NotFarther(r, y, t))
  }

  lemma {:induction false} NearestIsFirst(hist: seq<Sample>, lo: int, hi: int, t: real)
    ensures var r := Nearest(hist, lo, hi, t);
            && (r.None? <==> forall k, x | lo <= k < hi :: !Stands(hist, k, x))
            && (r.Some? ==> IsFirstNearest(hist, lo, hi, t, r.value))
    decreases if lo < hi then hi - lo else 0
  {
    if lo < hi {
      NearestIsFirst(hist, lo, hi - 1, t);
      var best, last := Nearest(hist, lo, hi - 1, t), At(hist, hi - 1);
      AtStands(hist, hi - 1);
      if last.Some? {
        if best.None? {
          AwayIs(last.value, last.value, t, 0.0);
          assert Stands(hist, hi - 1, last.value);
        } else {
          FirstOfTwo(hist, lo, hi, t, best.value, last.value);
        }
      }
    }
  }

  lemma FirstOfTwo(hist: seq<Sample>, lo: int, hi: int, t: real, best: Sample, last: Sample)
    requires lo < hi && IsFirstNearest(hist, lo, hi - 1, t, best) && Stands(hist, hi - 1, last)
    ensures IsFirstNearest(hist, lo, hi, t, if Away(last, t) < Away(best, t) then last else best)
  {
    var k :| lo <= k < hi - 1 && Stands(hist, k, best)
      && (forall j, y | lo <= j < k && Stands(hist, j, y) :: !NotFarther(y, best, t))
      && (forall j, y | k <= j < hi - 1 && Stands(hist, j, y) :: NotFarther(best, y, t));
    AwayIs(best, last, t, 0.0);
    AwayIs(last, last, t, 0.0);
    if Away(last, t) < Away(best, t) {
      forall j, y | lo <= j < hi - 1 && Stands(hist, j, y) ensures !NotFarther(y, last, t) {
        AwayIs(y, last, t, 0.0);
        AwayIs(best, y, t, 0.0);
        AwayIs(y, best, t, 0.0);
      }
      assert Stands(hist, hi - 1, last);
    } else {
      assert NotFarther(best, last, t);
    }
  }

  /**
   * What is found. With too few samples the oldest, if it is two minutes old. Otherwise the one `w` places before the
   * newest, if it is within 20 seconds of the time asked for; if not, the first of the nearest among it and the two on
   * either side, by Python's indexing, if that one is within 45 seconds.
   */
  lemma LookupExactly(hist: seq<Sample>, now: real, w: int)
    ensures var r, t := Lookup(hist, now, w), now - 60.0 * w as real;
            if w < 1 || hist == [] then r.None?
            else if |hist| <= w then r == if now - hist[0].ts >= 120.0 then Some(hist[0]) else None
            else if Near(hist[|hist| - 1 - w], t, 20.0) then r == Some(hist[|hist| - 1 - w])
            else
              && (r.Some? ==> IsFirstNearest(hist, -w - 3, -w + 2, t, r.value) && Near(r.value, t, 45.0))
              && (r.None? ==> forall k, x | -w - 3 <= k < -w + 2 && Stands(hist, k, x) :: !Near(x, t, 45.0))
  {
    if w >= 1 && |hist| > w {
      var t, direct := now - 60.0 * w as real, hist[|hist| - 1 - w];
      assert TargetTime(now, w) == t && At(hist, TargetIndex(w)) == Some(direct);
      AwayIs(direct, direct, t, 20.0);
      NearestIsFirst(hist, -w - 3, -w + 2, t);
      var best := Nearest(hist, -w - 3, -w + 2, t);
      assert Stands(hist, -w - 1, direct);
      AwayIs(best.value, best.value, t, 45.0);
      forall k, x | -w - 3 <= k < -w + 2 && Stands(hist, k, x) ensures Near(x, t, 45.0) ==> Near(best.value, t, 45.0) {
        NearestIsNearest(hist, -w - 3, -w + 2, t);
        AtStands(hist, k);
        AwayIs(x, x, t, 45.0);
      }
    }
  }

  /** Neighbouring samples are at least a minute and at most `gap` apart. */
  ghost predicate Spaced(hist: seq<Sample>, gap: real) {
    forall i, j | 0 <= i < j < |hist| && j == i + 1 :: 60.0 <= hist[j].ts - hist[i].ts <= gap
  }

  const GAP := 67.0

  lemma {:induction false} AgeOf(hist: seq<Sample>, k: nat)
    requires Spaced(hist, GAP) && k < |hist|
    ensures var age := Newest(hist) - hist[|hist| - 1 - k].ts; k as real * MINUTE <= age <= k as real * GAP
    decreases k
  {
    if k > 0 {
      AgeOf(hist, k - 1);
      assert hist[|hist| - 1 - k + 1] == hist[|hist| - 1 - (k - 1)];
    }
  }

  /** With gaps up to 67 seconds and a newest sample under a minute old, every lookup up to 17 minutes back succeeds. */
  lemma LookupSucceeds(hist: seq<Sample>, now: real, w: nat)
    requires Spaced(hist, GAP) && 1 <= w <= 17 && |hist| > w
    requires 0.0 <= now - Newest(hist) < MINUTE
    ensures Lookup(hist, now, w).Some? && Near(Lookup(hist, now, w).value, now - 60.0 * w as real, 45.0)
  {
    var t, n, i: int := now - 60.0 * w as real, |hist|, w;
    AgeOf(hist, w);
    AgeOf(hist, w - 1);
    var a, b := hist[n - 1 - w], hist[n - w];
    assert Stands(hist, -i - 1, a) && Stands(hist, -i, b);
    assert MINUTE <= hist[n - 1 - w + 1].ts - a.ts <= GAP;
    if w > 1 {
      AgeOf(hist, w - 1 - 1);
      var c := hist[n - w + 1];
      assert Stands(hist, -i + 1, c);
      assert MINUTE <= hist[n - w + 1].ts - b.ts <= GAP;
      assert Near(a, t, 45.0) || Near(b, t, 45.0) || Near(c, t, 45.0);
    } else {
      assert Near(a, t, 45.0) || Near(b, t, 45.0);
    }
    LookupExactly(hist, now, w);
  }

  // ----- runs -----

  datatype Action = Update(price: real, oi: real) | Seed(prices: seq<real>, points: seq<Point>)

  datatype Timed = Timed(action: Action, at: real)

  function Step(hist: seq<Sample>, s: Timed): seq<Sample> {
    match s.action
    case Update(price, oi) => Updated(hist, Sample(s.at, price, oi))
    case Seed(prices, points) => Seeded(hist, prices, points, s.at)
  }

  function Run(steps: seq<Timed>): seq<Sample> {
    if steps == [] then [] else Step(Run(steps[..|steps| - 1]), steps[|steps| - 1])
  }

  /**
   * Steps come at most `pause` apart and the clock does not go back. Seedings that would do nothing, for want of prices
   * or because there are samples already, are left out of the run.
   */
  predicate Ticking(steps: seq<Timed>, pause: real) {
    steps == []
    || (var before, last := steps[..|steps| - 1], steps[|steps| - 1];
        && Ticking(before, pause) && last.at >= MINUTE
        && (before != [] ==> 0.0 <= last.at - before[|before| - 1].at <= pause)
        && (last.action.Seed? ==> last.action.prices != [] && |Run(before)| < 2))
  }

  lemma SeededIsSpaced(hist: seq<Sample>, prices: seq<real>, points: seq<Point>, now: real)
    requires prices != [] && |hist| < 2
    ensures var r := Seeded(hist, prices, points, now);
            Spaced(r, MINUTE) && 0 < |r| <= 60 && 0.0 <= now - Newest(r) < MINUTE
  {
    var r := Seeded(hist, prices, points, now);
    assert now == now / MINUTE * MINUTE;
  }

  lemma UpdatedIsSpaced(hist: seq<Sample>, s: Sample, gap: real)
    requires Spaced(hist, gap) && |hist| <= MAXLEN && gap >= MINUTE
    requires hist == [] || 0.0 <= s.ts - Newest(hist) <= gap
    requires s.ts >= MINUTE
    ensures var r := Updated(hist, s); Spaced(r, gap) && 0 < |r| <= MAXLEN && 0.0 <= s.ts - Newest(r) < MINUTE
  {
    if s.ts - Newest(hist) >= MINUTE { AppendKeepsSpacing(hist, s, gap); }
  }

  lemma SuffixIsSpaced(all: seq<Sample>, gap: real, k: nat)
    requires Spaced(all, gap) && k < |all|
    ensures Spaced(all[k..], gap) && Newest(all[k..]) == Newest(all)
  {
    forall i, j | 0 <= i < j < |all[k..]| && j == i + 1 ensures MINUTE <= all[k..][j].ts - all[k..][i].ts <= gap {
      assert all[k..][i] == all[k + i] && all[k..][j] == all[k + j];
    }
  }

  lemma AppendKeepsSpacing(hist: seq<Sample>, s: Sample, gap: real)
    requires Spaced(hist, gap)
    requires hist == [] || MINUTE <= s.ts - Newest(hist) <= gap
    ensures Spaced(Append(hist, s), gap) && Newest(Append(hist, s)) == s.ts
  {
    var all := hist + [s];
    assert Spaced(all, gap);
    if |all| > MAXLEN { SuffixIsSpaced(all, gap, |all| - MAXLEN); }
  }

  /**
   * Over every run of updates and seedings with at most seven seconds between ticks, samples stay 60 to 67 seconds
   * apart, at most 61 of them, the newest under a minute old.
   */
  lemma {:induction false} SamplesStaySpaced(steps: seq<Timed>)
    requires Ticking(steps, GAP - MINUTE)
    ensures var hist := Run(steps);
            && Spaced(hist, GAP) && |hist| <= 61
            && (hist != [] ==> 0.0 <= steps[|steps| - 1].at - Newest(hist) < 60.0)
  {
    if steps != [] {
      var before, last := steps[..|steps| - 1], steps[|steps| - 1];
      SamplesStaySpaced(before);
      var hist := Run(before);
      match last.action {
        case Update(price, oi) => UpdatedIsSpaced(hist, Sample(last.at, price, oi), GAP);
        case Seed(prices, points) => SeededIsSpaced(hist, prices, points, last.at);
      }
    }
  }

  /** Then every lookup of 1 to 17 minutes, so of 5 and 15, finds a sample within 45 seconds once enough are there. */
  lemma LookupsSucceedInEveryRun(steps: seq<Timed>, w: nat)
    requires Ticking(steps, GAP - MINUTE) && steps != [] && steps[|steps| - 1].action.Update?
    requires 1 <= w <= 17 && |Run(steps)| > w
    ensures var now := steps[|steps| - 1].at;
            Lookup(Run(steps), now, w).Some? && Near(Lookup(Run(steps), now, w).value, now - 60.0 * w as real, 45.0)
  {
    SamplesStaySpaced(steps);
    LookupSucceeds(Run(steps), steps[|steps| - 1].at, w);
  }

  ghost predicate MinuteApart(hist: seq<Sample>) {
    forall i, j | 0 <= i < j < |hist| && j == i + 1 :: hist[j].ts - hist[i].ts >= 60.0
  }

  lemma AppendKeepsApart(hist: seq<Sample>, s: Sample)
    requires MinuteApart(hist) && s.ts - Newest(hist) >= MINUTE
    ensures MinuteApart(Append(hist, s)) && Newest(Append(hist, s)) == s.ts
  {
    var all := hist + [s];
    assert MinuteApart(all);
    if |all| > MAXLEN {
      var r := all[|all| - MAXLEN..];
      forall i, j | 0 <= i < j < |r| && j == i + 1 ensures r[j].ts - r[i].ts >= MINUTE {
        assert r[i] == all[|all| - MAXLEN + i] && r[j] == all[|all| - MAXLEN + j];
      }
    }
  }

  /** Whatever the clock does, samples stay a minute apart or more; an update leaves the newest under a minute old. */
  lemma {:induction false} SamplesAreAMinuteApart(steps: seq<Timed>)
    requires forall i :: 0 <= i < |steps| ==> steps[i].at >= MINUTE
    ensures MinuteApart(Run(steps))
    ensures steps != [] && steps[|steps| - 1].action.Update? ==>
              Run(steps) != [] && steps[|steps| - 1].at - Newest(Run(steps)) < 60.0
  {
    if steps != [] {
      var last := steps[|steps| - 1];
      SamplesAreAMinuteApart(steps[..|steps| - 1]);
      var hist := Run(steps[..|steps| - 1]);
      match last.action {
        case Update(price, oi) =>
          if last.at - Newest(hist) >= MINUTE { AppendKeepsApart(hist, Sample(last.at, price, oi)); }
        case Seed(prices, points) => if prices != [] && |hist| < 2 { SeededIsSpaced(hist, prices, points, last.at); }
      }
    }
  }
}
