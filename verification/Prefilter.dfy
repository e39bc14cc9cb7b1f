/**
 * From a liquidation to an alert: the brain's global early exit over the smallest thresholds of all targets, the
 * trigger rules both processes share, and the messenger's check of one target.
 */
module Prefilter {
  import opened Rows

  const NOISE_FLOOR := 100.0
  const CASCADE_COUNT := 15
  const MULTIPLIER := 3.0
  const SQUEEZE := 0.3
  const MIN_OI_PCT := 1.0

  /** A threshold that may be infinite. */
  datatype Limit = Finite(value: real) | Infinite

  predicate Meets(x: real, limit: Limit) {
    limit.Finite? && x >= limit.value
  }

  function Times(limit: Limit, k: real): Limit {
    if limit.Finite? then Finite(limit.value * k) else Infinite
  }

  function Least(a: Limit, b: Limit): Limit {
    if a.Finite? && (b.Infinite? || a.value <= b.value) then a else b
  }

  datatype Kind = Cascade | OiPump | Squeeze | Volume

  datatype Metrics = Metrics(sum5m: real, sum1h: real, sumCascade: real, cascadeCount: int,
                             oiPct: Option<real>, oiVal: Option<real>, rsi: Option<real>)

  datatype Rules = Rules(volume: Limit, cascade: Limit, oiPct: real, oiValue: real,
                         onCascade: bool, onOi: bool, onSqueeze: bool, onVolume: bool,
                         nonnegativeOi: bool, rsiMin: real, rsiMax: real)

  function Abs(x: real): real { if x < 0.0 then -x else x }

  predicate RsiAllows(m: Metrics, r: Rules) {
    || (r.rsiMin == 100.0 && r.rsiMax == 0.0)
    || (m.rsi.Some? && (m.rsi.value <= r.rsiMin || m.rsi.value >= r.rsiMax))
  }

  predicate HasCascade(m: Metrics, r: Rules) {
    m.cascadeCount >= CASCADE_COUNT && Meets(m.sumCascade, r.cascade)
  }

  predicate HasOiPump(m: Metrics, r: Rules) {
    && m.oiPct.Some? && m.oiVal.Some?
    && m.oiPct.value >= r.oiPct && Abs(m.oiVal.value) >= r.oiValue
    && (!r.nonnegativeOi || m.oiPct.value >= 0.0)
  }

  predicate HasVolume(m: Metrics, r: Rules) {
    Meets(m.sum5m, r.volume) || Meets(m.sum1h, Times(r.volume, MULTIPLIER))
  }

  function Evaluate(m: Metrics, r: Rules): Option<Kind> {
    if !RsiAllows(m, r) then None
    else if HasCascade(m, r) && r.onCascade then Some(Cascade)
    else if HasOiPump(m, r) && r.onOi then Some(OiPump)
    else if HasVolume(m, r) && m.sum5m > m.sum1h * SQUEEZE && r.onSqueeze then Some(Squeeze)
    else if HasVolume(m, r) && r.onVolume then Some(Volume)
    else None
  }

  // ----- targets -----

  datatype Target = Target(id: int, enabled: bool, percentMode: bool, threshold: real, thresholdCascade: real,
                           mcapPct: real, mcapUsdMin: real, cascadeMcapPct: real, cascadeMcapUsdMin: real,
                           oiPct: real, oiValue: real,
                           onCascade: bool, onOi: bool, onSqueeze: bool, onVolume: bool, longs: bool, shorts: bool,
                           rsiMin: real, rsiMax: real)

  datatype Impact = Impact(isFallback: bool, liveMcap: real)

  predicate InUsd(t: Target, impact: Impact) { impact.isFallback || !t.percentMode }

  predicate WantsSide(t: Target, side: string) {
    (side == "LONG" ==> t.longs) && (side == "SHORT" ==> t.shorts)
  }

  predicate VolumeFloor(t: Target, m: Metrics, mcap: real)
    requires mcap > 0.0
  {
    || (m.sum5m / mcap >= t.mcapPct && m.sum5m >= t.mcapUsdMin)
    || (m.sum1h / mcap >= t.mcapPct * MULTIPLIER && m.sum1h >= t.mcapUsdMin * MULTIPLIER)
  }

  predicate CascadeFloor(t: Target, m: Metrics, mcap: real)
    requires mcap > 0.0
  {
    m.sumCascade / mcap >= t.cascadeMcapPct && m.sumCascade >= t.cascadeMcapUsdMin
  }

  function TargetRules(t: Target, volume: Limit, cascade: Limit): Rules {
    Rules(volume, cascade, t.oiPct, t.oiValue, t.onCascade, t.onOi, t.onSqueeze, t.onVolume, false, t.rsiMin, t.rsiMax)
  }

  function UsdRules(t: Target): Rules {
    TargetRules(t, Finite(t.threshold), Finite(t.thresholdCascade))
  }

  function PercentRules(t: Target, m: Metrics, mcap: real): Rules
    requires mcap > 0.0
  {
    TargetRules(t, if VolumeFloor(t, m, mcap) then Finite(t.mcapPct) else Infinite,
                if CascadeFloor(t, m, mcap) then Finite(t.cascadeMcapPct) else Infinite)
  }

  /** The messenger's verdict for one target, before the alert history. */
  function CheckTriggers(t: Target, side: string, m: Metrics, impact: Impact): Option<Kind> {
    if !WantsSide(t, side) then None
    else if InUsd(t, impact) then Evaluate(m, UsdRules(t))
    else if impact.liveMcap <= 0.0 then None
    else Evaluate(m, PercentRules(t, m, impact.liveMcap))
  }

  // ----- the brain -----

  function BrainRules(minThreshold: Limit, minCascade: Limit): Rules {
    Rules(minThreshold, minCascade, MIN_OI_PCT, NOISE_FLOOR, true, true, true, true, true, 100.0, 0.0)
  }

  function MinThreshold(targets: seq<Target>): Limit {
    if targets == [] then Infinite
    else
      var last := targets[|targets| - 1];
      var least := MinThreshold(targets[..|targets| - 1]);
      if last.enabled then Least(least, Finite(last.threshold)) else least
  }

  function MinCascade(targets: seq<Target>): Limit {
    if targets == [] then Infinite
    else
      var last := targets[|targets| - 1];
      var least := MinCascade(targets[..|targets| - 1]);
      if last.enabled then Least(least, Finite(last.thresholdCascade)) else least
  }

  function Floored(limit: Limit): Limit {
    if limit.Finite? && limit.value < NOISE_FLOOR then Finite(NOISE_FLOOR) else limit
  }

  predicate EarlyExit(minThreshold: Limit, minCascade: Limit, m: Metrics) {
    !Meets(m.sum5m, minThreshold) && (m.cascadeCount < CASCADE_COUNT || !Meets(m.sumCascade, minCascade))
  }

  /** The brain's verdict, before its own alert history. */
  function BrainVerdict(targets: seq<Target>, m: Metrics): Option<Kind> {
    var least, cascade := Floored(MinThreshold(targets)), MinCascade(targets);
    if targets == [] || EarlyExit(least, cascade, m) then None
    else Evaluate(m, BrainRules(least, cascade))
  }

  class Brain {
    var cachedUsers: seq<Target>
    var minSystemThreshold: Limit
    var minSystemCascade: Limit

    ghost predicate Valid()
      reads this
    {
      minSystemThreshold == Floored(MinThreshold(cachedUsers)) && minSystemCascade == MinCascade(cachedUsers)
    }

    constructor ()
      ensures Valid() && cachedUsers == []
    {
      cachedUsers, minSystemThreshold, minSystemCascade := [], Infinite, Infinite;
    }

    method UpdateCache(activeUsers: seq<Target>)
      modifies this
      ensures Valid() && cachedUsers == activeUsers
    {
      var cached: seq<Target> := [];
      var minThreshold, minCascade := Infinite, Infinite;
      for i := 0 to |activeUsers|
        invariant cached == activeUsers[..i]
        invariant minThreshold == MinThreshold(cached) && minCascade == MinCascade(cached)
      {
        var target := activeUsers[i];
        assert (cached + [target])[..i] == cached;
        cached := cached + [target];
        if target.enabled {
          minThreshold := Least(minThreshold, Finite(target.threshold));
          minCascade := Least(minCascade, Finite(target.thresholdCascade));
        }
      }
      cachedUsers := cached;
      minSystemThreshold := if cached != [] then Floored(minThreshold) else Infinite;
      minSystemCascade := if cached != [] then minCascade else Infinite;
    }

    method ProcessLiquidation(m: Metrics) returns (kind: Option<Kind>)
      requires Valid()
      ensures kind == BrainVerdict(cachedUsers, m)
    {
      if cachedUsers == [] { return None; }
      if !Meets(m.sum5m, minSystemThreshold)
        && (m.cascadeCount < CASCADE_COUNT || !Meets(m.sumCascade, minSystemCascade)) {
        return None;
      }
      return Evaluate(m, BrainRules(minSystemThreshold, minSystemCascade));
    }
  }

  // ----- what the early exit lets through -----

  /** An enabled target whose 5-minute or cascade condition holds, the former above the noise floor. */
  predicate Covers(t: Target, m: Metrics) {
    t.enabled && ((m.sum5m >= t.threshold && m.sum5m >= 100.0)
                  || (m.cascadeCount >= 15 && m.sumCascade >= t.thresholdCascade))
  }

  lemma {:induction false} MinThresholdIsLeast(targets: seq<Target>, x: real)
    ensures Meets(x, MinThreshold(targets)) <==> exists t <- targets :: t.enabled && x >= t.threshold
  {
    if targets != [] {
      MinThresholdIsLeast(targets[..|targets| - 1], x);
      SplitLast(targets);
    }
  }

  lemma {:induction false} MinCascadeIsLeast(targets: seq<Target>, x: real)
    ensures Meets(x, MinCascade(targets)) <==> exists t <- targets :: t.enabled && x >= t.thresholdCascade
  {
    if targets != [] {
      MinCascadeIsLeast(targets[..|targets| - 1], x);
      SplitLast(targets);
    }
  }

  lemma SplitLast<T>(s: seq<T>)
    requires s != []
    ensures forall x :: x in s <==> x in s[..|s| - 1] || x == s[|s| - 1]
  {
    assert s == s[..|s| - 1] + [s[|s| - 1]];
  }

  /** The brain passes an event on exactly when it covers some enabled target: the early exit decides alone. */
  lemma BrainPassesExactlyCoveredEvents(targets: seq<Target>, m: Metrics)
    ensures BrainVerdict(targets, m).Some? <==> exists t <- targets :: Covers(t, m)
  {
    MinThresholdIsLeast(targets, m.sum5m);
    MinCascadeIsLeast(targets, m.sumCascade);
    assert Meets(m.sum5m, Floored(MinThreshold(targets)))
      <==> Meets(m.sum5m, MinThreshold(targets)) && m.sum5m >= NOISE_FLOOR;
    if t :| t in targets && t.enabled && m.sum5m >= t.threshold && m.sum5m >= NOISE_FLOOR { assert Covers(t, m); }
    if t :| t in targets && t.enabled && m.sumCascade >= t.thresholdCascade && m.cascadeCount >= CASCADE_COUNT {
      assert Covers(t, m);
    }
  }

  /**
   * What can be lost. If the messenger would alert an enabled target that is judged in dollars and the brain drops the
   * event, the alert is no cascade, the 5-minute volume misses the threshold or the noise floor, and the alert rests
   * on open interest, on the hourly volume or on sums under the noise floor; a squeeze misses by less than a tenth.
   */
  lemma DroppedAlerts(targets: seq<Target>, t: Target, side: string, m: Metrics, impact: Impact)
    requires t in targets && t.enabled && InUsd(t, impact)
    requires CheckTriggers(t, side, m, impact).Some? && BrainVerdict(targets, m).None?
    ensures CheckTriggers(t, side, m, impact).value != Cascade
    ensures m.sum5m < t.threshold || m.sum5m < NOISE_FLOOR
    ensures CheckTriggers(t, side, m, impact).value == OiPump || m.sum1h >= 3.0 * t.threshold || m.sum5m < NOISE_FLOOR
    ensures CheckTriggers(t, side, m, impact).value == Squeeze ==> m.sum5m > 0.9 * t.threshold || m.sum5m >= t.threshold
  {
    BrainPassesExactlyCoveredEvents(targets, m);
    assert !Covers(t, m);
  }

  /** In particular every cascade alert, and every alert on 5-minute volume above the noise floor, gets through. */
  lemma CoveredTriggersGetThrough(targets: seq<Target>, t: Target, side: string, m: Metrics, impact: Impact)
    requires t in targets && t.enabled && InUsd(t, impact)
    requires CheckTriggers(t, side, m, impact) == Some(Cascade) || (m.sum5m >= t.threshold && m.sum5m >= NOISE_FLOOR)
    ensures BrainVerdict(targets, m).Some?
  {
    BrainPassesExactlyCoveredEvents(targets, m);
    assert Covers(t, m);
  }

  const EVERY_MINUTE := Target(1, true, false, 1000.0, 5000.0, 0.0, 0.0, 0.0, 0.0, 1.0, 100.0,
                               true, true, true, true, true, true, 100.0, 0.0)

  /** A slow stream of liquidations fills the hourly window but never the 5-minute one: the only target is not told. */
  lemma HourlyTriggerIsDropped()
    ensures var m := Metrics(900.0, 6000.0, 900.0, 3, None, None, None);
            && CheckTriggers(EVERY_MINUTE, "LONG", m, Impact(true, 0.0)) == Some(Volume)
            && BrainVerdict([EVERY_MINUTE], m) == None
  {
    var m := Metrics(900.0, 6000.0, 900.0, 3, None, None, None);
    assert MinThreshold([EVERY_MINUTE]) == Finite(1000.0);
    assert MinCascade([EVERY_MINUTE]) == Finite(5000.0);
  }

  // ----- one kind per alert -----

  /** The condition of a kind, and that it is switched on; a volume counts over five minutes or, threefold, an hour. */
  predicate Holds(k: Kind, m: Metrics, r: Rules) {
    var large := r.volume.Finite? && (m.sum5m >= r.volume.value || m.sum1h >= 3.0 * r.volume.value);
    match k
    case Cascade => r.onCascade && m.cascadeCount >= 15 && r.cascade.Finite? && m.sumCascade >= r.cascade.value
    case OiPump =>
      && r.onOi && m.oiPct.Some? && m.oiVal.Some? && m.oiPct.value >= r.oiPct
      && (m.oiVal.value >= r.oiValue || -m.oiVal.value >= r.oiValue)
      && (r.nonnegativeOi ==> m.oiPct.value >= 0.0)
    case Squeeze => r.onSqueeze && large && m.sum5m > 0.3 * m.sum1h
    case Volume => r.onVolume && large
  }

  function Rank(k: Kind): nat {
    match k case Cascade => 0 case OiPump => 1 case Squeeze => 2 case Volume => 3
  }

  /**
   * An alert has the strongest kind that holds and is switched on; there is none exactly if the RSI filter or every
   * kind says no.
   */
  lemma StrongestKindWins(m: Metrics, r: Rules)
    ensures Evaluate(m, r) == None <==> !RsiAllows(m, r) || forall k: Kind :: !Holds(k, m, r)
    ensures forall k: Kind :: Evaluate(m, r) == Some(k) ==>
              Holds(k, m, r) && forall j: Kind :: Holds(j, m, r) ==> Rank(k) <= Rank(j)
  {
    if Evaluate(m, r) == None && RsiAllows(m, r) {
      assert !Holds(Cascade, m, r) && !Holds(OiPump, m, r) && !Holds(Squeeze, m, r) && !Holds(Volume, m, r);
    }
    if Evaluate(m, r).Some? {
      var k := Evaluate(m, r).value;
      assert Holds(k, m, r);
      forall j: Kind | Holds(j, m, r) ensures Rank(k) <= Rank(j) {}
    }
  }

  // ----- exactly when a target is alerted, and with which kind -----

  /** Whether a target wants liquidations of a side at all; other labels it does not choose. */
  predicate Chooses(t: Target, side: string) {
    match side
    case "LONG" => t.longs
    case "SHORT" => t.shorts
    case _ => true
  }

  /** The range is switched off, or the index is known and not inside it. */
  predicate RsiIsExtreme(t: Target, m: Metrics) {
    (t.rsiMin == 100.0 && t.rsiMax == 0.0) || (m.rsi.Some? && !(t.rsiMin < m.rsi.value < t.rsiMax))
  }

  /** What the target's sums are measured by: dollars, or a market capitalisation. */
  function Measure(t: Target, impact: Impact): Option<real> {
    if t.percentMode && !impact.isFallback then Some(impact.liveMcap) else None
  }

  predicate Measures(mcap: Option<real>) { mcap.Some? ==> mcap.value > 0.0 }

  predicate IsLarge(t: Target, m: Metrics, mcap: Option<real>)
    requires Measures(mcap)
  {
    if mcap.None? then m.sum5m >= t.threshold || m.sum1h >= 3.0 * t.threshold
    else
      && (m.sum5m >= t.mcapPct || m.sum1h >= 3.0 * t.mcapPct)
      && ((m.sum5m / mcap.value >= t.mcapPct && m.sum5m >= t.mcapUsdMin)
          || (m.sum1h / mcap.value >= 3.0 * t.mcapPct && m.sum1h >= 3.0 * t.mcapUsdMin))
  }

  predicate IsCascade(t: Target, m: Metrics, mcap: Option<real>)
    requires Measures(mcap)
  {
    && m.cascadeCount >= 15
    && if mcap.None? then m.sumCascade >= t.thresholdCascade
       else m.sumCascade >= t.cascadeMcapPct && m.sumCascade / mcap.value >= t.cascadeMcapPct
            && m.sumCascade >= t.cascadeMcapUsdMin
  }

  predicate IsOiPump(t: Target, m: Metrics) {
    && m.oiPct.Some? && m.oiVal.Some? && m.oiPct.value >= t.oiPct
    && (m.oiVal.value >= t.oiValue || -m.oiVal.value >= t.oiValue)
  }

  /** The condition of a kind, and that the target has switched it on. */
  predicate Qualifies(k: Kind, t: Target, m: Metrics, mcap: Option<real>)
    requires Measures(mcap)
  {
    match k
    case Cascade => t.onCascade && IsCascade(t, m, mcap)
    case OiPump => t.onOi && IsOiPump(t, m)
    case Squeeze => t.onSqueeze && IsLarge(t, m, mcap) && m.sum5m > 0.3 * m.sum1h
    case Volume => t.onVolume && IsLarge(t, m, mcap)
  }

  /** Sides, index and capitalisation let the target be alerted at all. */
  predicate MayAlert(t: Target, side: string, m: Metrics, impact: Impact) {
    Chooses(t, side) && RsiIsExtreme(t, m) && Measures(Measure(t, impact))
  }

  lemma VolumeConditionIs(t: Target, m: Metrics, impact: Impact)
    requires Measures(Measure(t, impact))
    ensures var mcap := Measure(t, impact);
            var r := if mcap.None? then UsdRules(t) else PercentRules(t, m, mcap.value);
            && (HasVolume(m, r) <==> IsLarge(t, m, mcap))
            && (HasCascade(m, r) <==> IsCascade(t, m, mcap))
            && (HasOiPump(m, r) <==> IsOiPump(t, m)) && (RsiAllows(m, r) <==> RsiIsExtreme(t, m))
  {
  }

  lemma QualifiesIs(t: Target, m: Metrics, impact: Impact, j: Kind)
    requires Measures(Measure(t, impact))
    ensures var mcap := Measure(t, impact);
            var r := if mcap.None? then UsdRules(t) else PercentRules(t, m, mcap.value);
            Holds(j, m, r) <==> Qualifies(j, t, m, mcap)
  {
    VolumeConditionIs(t, m, impact);
  }

  lemma EvaluatedExactly(m: Metrics, r: Rules, k: Kind)
    ensures Evaluate(m, r) == Some(k) <==>
              RsiAllows(m, r) && Holds(k, m, r) && forall j: Kind | Rank(j) < Rank(k) :: !Holds(j, m, r)
  {
    StrongestKindWins(m, r);
    RanksDiffer();
  }

  /**
   * A target is alerted with a kind exactly if it wants the side, its RSI range allows it, there is a market
   * capitalisation if it measures by that, the kind is switched on and its condition holds, and no stronger
   * kind's does.
   */
  lemma AlertedExactly(t: Target, side: string, m: Metrics, impact: Impact, k: Kind)
    ensures CheckTriggers(t, side, m, impact) == Some(k) <==>
              && MayAlert(t, side, m, impact)
              && Qualifies(k, t, m, Measure(t, impact))
              && forall j: Kind | Rank(j) < Rank(k) :: !Qualifies(j, t, m, Measure(t, impact))
  {
    if Measures(Measure(t, impact)) {
      var mcap := Measure(t, impact);
      var r := if mcap.None? then UsdRules(t) else PercentRules(t, m, mcap.value);
      assert RsiAllows(m, r) <==> RsiIsExtreme(t, m);
      EvaluatedExactly(m, r, k);
      forall j: Kind ensures Holds(j, m, r) <==> Qualifies(j, t, m, mcap) { QualifiesIs(t, m, impact, j); }
    }
  }

  lemma RanksDiffer()
    ensures forall j: Kind, k: Kind :: Rank(j) == Rank(k) ==> j == k
  {
  }

  /** The kind of an event that the brain passes on: a cascade if it covers a target as one, and so on. */
  lemma BrainKindExactly(targets: seq<Target>, m: Metrics)
    ensures BrainVerdict(targets, m) == Some(Cascade)
            <==> m.cascadeCount >= 15 && exists t <- targets :: t.enabled && m.sumCascade >= t.thresholdCascade
    ensures BrainVerdict(targets, m) == Some(OiPump)
            <==> BrainVerdict(targets, m).Some? && BrainVerdict(targets, m) != Some(Cascade)
                 && m.oiPct.Some? && m.oiVal.Some? && m.oiPct.value >= 1.0
                 && (m.oiVal.value >= 100.0 || -m.oiVal.value >= 100.0)
    ensures BrainVerdict(targets, m) == Some(Volume) ==> m.sum5m <= 0.3 * m.sum1h
    ensures BrainVerdict(targets, m) == Some(Squeeze) ==> m.sum5m > 0.3 * m.sum1h
  {
    MinCascadeIsLeast(targets, m.sumCascade);
    BrainPassesExactlyCoveredEvents(targets, m);
    if t :| t in targets && t.enabled && m.sumCascade >= t.thresholdCascade && m.cascadeCount >= 15 {
      assert Covers(t, m);
    }
  }

  // ----- percent mode -----

  lemma RatioTimes(x: real, mcap: real, pct: real)
    requires mcap >= 1.0 && pct >= 0.0 && x / mcap >= pct
    ensures x >= pct
  {
    assert x == x / mcap * mcap;
    assert x / mcap * mcap >= pct * mcap;
    assert pct * mcap >= pct * 1.0;
  }

  /**
   * In percent mode the rules compare dollars with a bare ratio, and still mean what they should: for a market
   * capitalisation of a dollar or more they are the percentage and dollar floors.
   */
  lemma PercentModeIsItsFloors(t: Target, m: Metrics, mcap: real)
    requires mcap >= 1.0 && t.mcapPct >= 0.0 && t.cascadeMcapPct >= 0.0
    ensures HasVolume(m, PercentRules(t, m, mcap)) <==> VolumeFloor(t, m, mcap)
    ensures HasCascade(m, PercentRules(t, m, mcap)) <==> m.cascadeCount >= CASCADE_COUNT && CascadeFloor(t, m, mcap)
  {
    if m.sum5m / mcap >= t.mcapPct { RatioTimes(m.sum5m, mcap, t.mcapPct); }
    if m.sum1h / mcap >= t.mcapPct * MULTIPLIER { RatioTimes(m.sum1h, mcap, t.mcapPct * MULTIPLIER); }
    if m.sumCascade / mcap >= t.cascadeMcapPct { RatioTimes(m.sumCascade, mcap, t.cascadeMcapPct); }
  }
}
