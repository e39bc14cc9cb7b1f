/**
 * The in-memory liquidation windows: one backwards pass with an early exit computes the hourly, five-minute and
 * cascade figures of one side; a collector drops what is older than an hour. Times and values are reals.
 */
module LiqWindow {
  const HOUR := 3600.0
  const FIVE_MINUTES := 300.0
  const CASCADE := 150.0

  datatype Event = Event(at: real, value: real, side: string)

  datatype Metrics = Metrics(sum5m: real, sum1h: real, sumCascade: real, cascadeCount: nat)

  const NOTHING := Metrics(0.0, 0.0, 0.0, 0)

  function Add(m: Metrics, value: real, delta: real): Metrics {
    Metrics(if delta <= FIVE_MINUTES then m.sum5m + value else m.sum5m,
            m.sum1h + value,
            if delta <= CASCADE then m.sumCascade + value else m.sumCascade,
            if delta <= CASCADE then m.cascadeCount + 1 else m.cascadeCount)
  }

  /** The pass from the newest event back. It ends at the first event of the side that is over an hour old. */
  function Scan(events: seq<Event>, side: string, now: real): Metrics {
    if events == [] then NOTHING
    else
      var last, older := events[|events| - 1], events[..|events| - 1];
      if last.side != side then Scan(older, side, now)
      else if now - last.at > HOUR then NOTHING
      else Add(Scan(older, side, now), last.value, now - last.at)
  }

  predicate Within(e: Event, side: string, now: real, window: real) {
    e.side == side && now - e.at <= window
  }

  /** The events of a side within a window. */
  function Select(events: seq<Event>, side: string, now: real, window: real): seq<Event> {
    if events == [] then []
    else
      var last := events[|events| - 1];
      Select(events[..|events| - 1], side, now, window) + if Within(last, side, now, window) then [last] else []
  }

  function Sum(events: seq<Event>): real {
    if events == [] then 0.0 else Sum(events[..|events| - 1]) + events[|events| - 1].value
  }

  /** The plain filter over the whole history. */
  function Filtered(events: seq<Event>, side: string, now: real): Metrics {
    Metrics(Sum(Select(events, side, now, 300.0)),
            Sum(Select(events, side, now, 3600.0)),
            Sum(Select(events, side, now, 150.0)),
            |Select(events, side, now, 150.0)|)
  }

  /** What the collector leaves: everything from the first event on that is at most an hour old. */
  function Kept(events: seq<Event>, now: real): seq<Event> {
    if events != [] && now - events[0].at > HOUR then Kept(events[1..], now) else events
  }

  lemma ScanAppend(a: seq<Event>, e: Event, side: string, now: real)
    ensures Scan(a + [e], side, now)
            == if e.side != side then Scan(a, side, now)
               else if now - e.at > HOUR then NOTHING
               else Add(Scan(a, side, now), e.value, now - e.at)
  {
    assert (a + [e])[..|a|] == a;
  }

  /** The pass over the first `n` events, by index as the loop walks it. */
  function ScanFirst(events: seq<Event>, n: nat, side: string, now: real): Metrics
    requires n <= |events|
  {
    if n == 0 then NOTHING
    else if events[n - 1].side != side then ScanFirst(events, n - 1, side, now)
    else if now - events[n - 1].at > HOUR then NOTHING
    else Add(ScanFirst(events, n - 1, side, now), events[n - 1].value, now - events[n - 1].at)
  }

  lemma {:induction false} ScanFirstIsScan(events: seq<Event>, n: nat, side: string, now: real)
    requires n <= |events|
    ensures ScanFirst(events, n, side, now) == Scan(events[..n], side, now)
  {
    if n > 0 {
      ScanFirstIsScan(events, n - 1, side, now);
      var upTo := events[..n];
      assert upTo[n - 1] == events[n - 1] && upTo[..n - 1] == events[..n - 1];
    }
  }

  /** A stored liquidation; `side` is the side of the order that closed the position. */
  datatype Row = Row(symbol: string, timestamp: real, value: real, side: string)

  function RowsOf(data: seq<Row>, symbol: string): seq<Event> {
    if data == [] then []
    else
      var last := data[|data| - 1];
      RowsOf(data[..|data| - 1], symbol)
      + if last.symbol == symbol
        then [Event(last.timestamp, last.value, if last.side == "Buy" then "LONG" else "SHORT")] else []
  }

  /** Each row of the symbol has become an event: behind those of the rows before it, a buy order closing a long. */
  lemma {:induction false} RowsAreConverted(data: seq<Row>, symbol: string, k: nat)
    requires k < |data| && data[k].symbol == symbol
    ensures |RowsOf(data[..k], symbol)| < |RowsOf(data, symbol)|
    ensures var e := RowsOf(data, symbol)[|RowsOf(data[..k], symbol)|];
            && e.at == data[k].timestamp && e.value == data[k].value
            && (e.side == "LONG" <==> data[k].side == "Buy") && (e.side == "SHORT" <==> data[k].side != "Buy")
    decreases |data|
  {
    if k < |data| - 1 {
      RowsAreConverted(data[..|data| - 1], symbol, k);
      assert data[..|data| - 1][..k] == data[..k];
    }
  }

  /** And there are no other events. */
  lemma {:induction false} EventsAreRows(data: seq<Row>, symbol: string, i: nat) returns (k: nat)
    requires i < |RowsOf(data, symbol)|
    ensures k < |data| && data[k].symbol == symbol && i == |RowsOf(data[..k], symbol)|
    decreases |data|
  {
    var before := data[..|data| - 1];
    if i < |RowsOf(before, symbol)| {
      k := EventsAreRows(before, symbol, i);
      assert before[..k] == data[..k];
    } else {
      k := |data| - 1;
    }
  }

  class Aggregator {
    var history: map<string, seq<Event>>

    function Events(symbol: string): seq<Event>
      reads this
    {
      if symbol in history then history[symbol] else []
    }

    constructor ()
      ensures history == map[]
    {
      history := map[];
    }

    method AddEvent(symbol: string, value: real, side: string, now: real)
      modifies this
      ensures Events(symbol) == old(Events(symbol)) + [Event(now, value, side)]
      ensures forall other: string :: other != symbol ==> Events(other) == old(Events(other))
    {
      if symbol !in history { history := history[symbol := []]; }
      history := history[symbol := history[symbol] + [Event(now, value, side)]];
    }

    /** Rows of the database are appended in the order in which the query returns them. */
    method LoadHistoricalData(data: seq<Row>)
      modifies this
      ensures forall symbol: string :: Events(symbol) == old(Events(symbol)) + RowsOf(data, symbol)
    {
      for i := 0 to |data|
        invariant forall symbol: string :: Events(symbol) == old(Events(symbol)) + RowsOf(data[..i], symbol)
      {
        var liq := data[i];
        assert data[..i + 1][..i] == data[..i];
        if liq.symbol !in history { history := history[liq.symbol := []]; }
        var sideLabel := if liq.side == "Buy" then "LONG" else "SHORT";
        history := history[liq.symbol := history[liq.symbol] + [Event(liq.timestamp, liq.value, sideLabel)]];
      }
      assert data[..|data|] == data;
    }

    method GetMetrics(symbol: string, side: string, now: real) returns (m: Metrics)
      ensures m == Scan(Events(symbol), side, now)
    {
      var events := Events(symbol);
      var sum5m, sum1h, sumCascade, count := 0.0, 0.0, 0.0, 0;
      var i := |events|;
      ScanFirstIsScan(events, i, side, now);
      assert events[..i] == events;
      while i > 0
        invariant 0 <= i <= |events| && count >= 0
        invariant var done, rest := ScanFirst(events, |events|, side, now), ScanFirst(events, i, side, now);
                  && done.sum5m == sum5m + rest.sum5m && done.sum1h == sum1h + rest.sum1h
                  && done.sumCascade == sumCascade + rest.sumCascade && done.cascadeCount == count + rest.cascadeCount
      {
        i := i - 1;
        var e := events[i];
        if e.side != side { continue; }
        var delta := now - e.at;
        if delta > HOUR { return Metrics(sum5m, sum1h, sumCascade, count); }
        sum1h := sum1h + e.value;
        if delta <= FIVE_MINUTES {
          sum5m := sum5m + e.value;
          if delta <= CASCADE {
            sumCascade := sumCascade + e.value;
            count := count + 1;
          }
        }
      }
      m := Metrics(sum5m, sum1h, sumCascade, count);
    }

    /** One pass of the background task; a symbol left without events is forgotten. */
    method Cleanup(now: real)
      modifies this
      ensures forall symbol: string :: Events(symbol) == Kept(old(Events(symbol)), now)
      ensures forall symbol <- history :: history[symbol] != []
    {
      var left := history.Keys;
      while left != {}
        invariant left <= history.Keys <= old(history.Keys)
        invariant forall symbol <- left :: history[symbol] == old(history[symbol])
        invariant forall symbol | symbol in old(history) && symbol !in left ::
                    Events(symbol) == Kept(old(history[symbol]), now)
        invariant forall symbol <- history | symbol !in left :: history[symbol] != []
        decreases |left|
      {
        var symbol :| symbol in left;
        var events := PopOld(history[symbol], now);
        history := if events == [] then history - {symbol} else history[symbol := events];
        left := left - {symbol};
      }
    }

    method PopOld(was: seq<Event>, now: real) returns (events: seq<Event>)
      ensures events == Kept(was, now)
    {
      events := was;
      while events != [] && now - events[0].at > HOUR
        invariant Kept(events, now) == Kept(was, now)
        decreases |events|
      {
        events := events[1..];
      }
    }
  }

  // ----- the pass is the filter -----

  /** The events of one side stand in the order of time; those of the other side may stand anywhere. */
  predicate TimeOrdered(events: seq<Event>, side: string) {
    forall i, j | 0 <= i < j < |events| :: events[i].side == side && events[j].side == side
      ==> events[i].at <= events[j].at
  }

  lemma {:induction false} NothingToSelect(events: seq<Event>, side: string, now: real, window: real)
    requires forall e <- events :: !Within(e, side, now, window)
    ensures Select(events, side, now, window) == []
  {
    if events != [] { NothingToSelect(events[..|events| - 1], side, now, window); }
  }

  /** The early exit loses nothing. */
  lemma {:induction false} ScanIsFilter(events: seq<Event>, side: string, now: real)
    requires TimeOrdered(events, side)
    ensures Scan(events, side, now) == Filtered(events, side, now)
  {
    if events != [] {
      var last, older := events[|events| - 1], events[..|events| - 1];
      ScanIsFilter(older, side, now);
      if last.side == side && now - last.at > HOUR {
        NothingToSelect(events, side, now, HOUR);
        NothingToSelect(events, side, now, FIVE_MINUTES);
        NothingToSelect(events, side, now, CASCADE);
      } else {
        SumOfSelect(events, side, now, HOUR);
        SumOfSelect(events, side, now, FIVE_MINUTES);
        SumOfSelect(events, side, now, CASCADE);
      }
    }
  }

  lemma SumOfSelect(events: seq<Event>, side: string, now: real, window: real)
    requires events != []
    ensures var last := events[|events| - 1];
            Sum(Select(events, side, now, window))
            == Sum(Select(events[..|events| - 1], side, now, window))
               + if Within(last, side, now, window) then last.value else 0.0
  {
    var last := events[|events| - 1];
    var rest := Select(events[..|events| - 1], side, now, window);
    assert (rest + [last])[..|rest|] == rest;
    assert rest + [] == rest;
  }

  /** Every liquidation has a value. */
  ghost predicate Positive(events: seq<Event>) { forall i :: 0 <= i < |events| ==> events[i].value > 0.0 }

  lemma {:induction false} SelectionIsPositive(events: seq<Event>, side: string, now: real, i: nat)
    requires Positive(events) && i < |events|
    ensures Sum(Select(events, side, now, HOUR)) >= if Within(events[i], side, now, HOUR) then events[i].value else 0.0
  {
    SumOfSelect(events, side, now, HOUR);
    if i < |events| - 1 {
      SelectionIsPositive(events[..|events| - 1], side, now, i);
    } else if i > 0 {
      SelectionIsPositive(events[..|events| - 1], side, now, 0);
    }
  }

  /** An event that stands before an older one of its side is lost as soon as that one is over an hour old. */
  lemma {:induction false} InversionIsMissed(events: seq<Event>, side: string, now: real, i: nat, j: nat)
    requires Positive(events) && i < j < |events|
    requires Within(events[i], side, now, HOUR) && events[j].side == side && now - events[j].at > HOUR
    ensures Scan(events, side, now).sum1h < Filtered(events, side, now).sum1h
  {
    var last, older := events[|events| - 1], events[..|events| - 1];
    SelectionIsPositive(events, side, now, i);
    SumOfSelect(events, side, now, HOUR);
    if j < |events| - 1 {
      InversionIsMissed(older, side, now, i, j);
    }
  }

  /** The figures are those of the plain filter at every moment exactly if the side stands in the order of time. */
  lemma ScanIsFilterExactlyWhenOrdered(events: seq<Event>, side: string)
    requires Positive(events)
    ensures (forall now: real :: Scan(events, side, now) == Filtered(events, side, now)) <==> TimeOrdered(events, side)
  {
    if TimeOrdered(events, side) {
      forall now: real ensures Scan(events, side, now) == Filtered(events, side, now) {
        ScanIsFilter(events, side, now);
      }
    } else {
      var i, j :| 0 <= i < j < |events| && events[i].side == side && events[j].side == side
        && events[i].at > events[j].at;
      var now := events[i].at + HOUR;
      InversionIsMissed(events, side, now, i, j);
      assert Scan(events, side, now) != Filtered(events, side, now);
    }
  }

  lemma {:induction false} WiderWindowHoldsMore(events: seq<Event>, side: string, now: real, narrow: real, wide: real)
    requires narrow <= wide && forall e <- events :: e.value >= 0.0
    ensures 0.0 <= Sum(Select(events, side, now, narrow)) <= Sum(Select(events, side, now, wide))
  {
    if events != [] {
      WiderWindowHoldsMore(events[..|events| - 1], side, now, narrow, wide);
      SumOfSelect(events, side, now, narrow);
      SumOfSelect(events, side, now, wide);
      assert events[|events| - 1] in events;
    }
  }

  lemma WindowsNest(events: seq<Event>, side: string, now: real)
    requires forall e <- events :: e.value >= 0.0
    ensures var m := Filtered(events, side, now); 0.0 <= m.sumCascade <= m.sum5m <= m.sum1h
  {
    WiderWindowHoldsMore(events, side, now, CASCADE, FIVE_MINUTES);
    WiderWindowHoldsMore(events, side, now, FIVE_MINUTES, HOUR);
  }

  // ----- the collector is invisible -----

  /** An event over an hour old in front changes no answer, ordered or not. */
  lemma {:induction false} OldHeadIsInvisible(events: seq<Event>, side: string, now: real)
    requires events != [] && now - events[0].at > HOUR
    ensures Scan(events, side, now) == Scan(events[1..], side, now)
  {
    if |events| > 1 {
      assert events[1..][..|events| - 2] == events[..|events| - 1][1..];
      OldHeadIsInvisible(events[..|events| - 1], side, now);
    } else {
      assert events[..0] == events[1..];
    }
  }

  lemma {:induction false} CleanupIsInvisible(events: seq<Event>, side: string, cleaned: real, now: real)
    requires cleaned <= now
    ensures Scan(Kept(events, cleaned), side, now) == Scan(events, side, now)
  {
    if events != [] && cleaned - events[0].at > HOUR {
      CleanupIsInvisible(events[1..], side, cleaned, now);
      OldHeadIsInvisible(events, side, now);
    }
  }

  // ----- runs -----

  datatype Action = Arrive(value: real, side: string) | Collect | Pass

  /** What is remembered of a symbol, all that ever arrived, and the clock. */
  datatype World = World(remembered: seq<Event>, log: seq<Event>, clock: real)

  function Step(w: World, a: Action, at: real): World {
    match a
    case Arrive(value, side) => World(w.remembered + [Event(at, value, side)], w.log + [Event(at, value, side)], at)
    case Collect => World(Kept(w.remembered, at), w.log, at)
    case Pass => w.(clock := at)
  }

  datatype Timed = Timed(action: Action, at: real)

  /** The process loads the rows of the last hour, and only then starts to listen. */
  function Run(loaded: seq<Event>, began: real, steps: seq<Timed>): World {
    if steps == [] then World(loaded, loaded, began)
    else
      var w := Run(loaded, began, steps[..|steps| - 1]);
      Step(w, steps[|steps| - 1].action, steps[|steps| - 1].at)
  }

  predicate ClockAdvances(began: real, steps: seq<Timed>) {
    && (forall i :: 0 <= i < |steps| ==> began <= steps[i].at)
    && forall i, j | 0 <= i < j < |steps| :: steps[i].at <= steps[j].at
  }

  /** What a query with ascending timestamps returns before `began`. */
  predicate Ascending(data: seq<Row>, began: real) {
    && (forall i :: 0 <= i < |data| ==> data[i].timestamp <= began)
    && forall i, j | 0 <= i < j < |data| :: data[i].timestamp <= data[j].timestamp
  }

  lemma {:induction false} LoadedIsOrdered(data: seq<Row>, symbol: string, side: string, began: real)
    requires Ascending(data, began)
    ensures TimeOrdered(RowsOf(data, symbol), side)
    ensures forall e <- RowsOf(data, symbol) :: e.at <= if data == [] then began else data[|data| - 1].timestamp
  {
    if data != [] {
      LoadedIsOrdered(data[..|data| - 1], symbol, side, began);
    }
  }

  lemma {:induction false} RememberedIsEnough(loaded: seq<Event>, began: real, steps: seq<Timed>, side: string,
      now: real)
    requires ClockAdvances(began, steps) && now >= Run(loaded, began, steps).clock
    ensures var w := Run(loaded, began, steps); Scan(w.remembered, side, now) == Scan(w.log, side, now)
  {
    if steps != [] {
      var before, last := steps[..|steps| - 1], steps[|steps| - 1];
      var w := Run(loaded, began, before);
      ClockIsLast(loaded, began, before);
      assert w.clock <= last.at;
      RememberedIsEnough(loaded, began, before, side, now);
      match last.action {
        case Arrive(value, s) =>
          var e := Event(last.at, value, s);
          ScanAppend(w.remembered, e, side, now);
          ScanAppend(w.log, e, side, now);
        case Collect => CleanupIsInvisible(w.remembered, side, last.at, now);
        case Pass =>
      }
    }
  }

  lemma {:induction false} LogIsOrdered(loaded: seq<Event>, began: real, steps: seq<Timed>, side: string)
    requires ClockAdvances(began, steps) && TimeOrdered(loaded, side) && forall e <- loaded :: e.at <= began
    ensures forall e <- Run(loaded, began, steps).log :: e.at <= Run(loaded, began, steps).clock
    ensures TimeOrdered(Run(loaded, began, steps).log, side)
  {
    if steps != [] {
      LogIsOrdered(loaded, began, steps[..|steps| - 1], side);
      ClockIsLast(loaded, began, steps[..|steps| - 1]);
    }
  }

  lemma ClockIsLast(loaded: seq<Event>, began: real, steps: seq<Timed>)
    ensures Run(loaded, began, steps).clock == if steps == [] then began else steps[|steps| - 1].at
  {
  }

  /**
   * Over any run of arrivals and collections after a warm start from the database, whenever the figures are asked for,
   * they are those of the plain filter over the loaded rows and everything that ever arrived.
   */
  lemma FiguresAreOfTheWholeLog(data: seq<Row>, symbol: string, began: real, steps: seq<Timed>, side: string, now: real)
    requires Ascending(data, began) && ClockAdvances(began, steps)
    requires now >= Run(RowsOf(data, symbol), began, steps).clock
    ensures var w := Run(RowsOf(data, symbol), began, steps);
            Scan(w.remembered, side, now) == Filtered(w.log, side, now)
  {
    var loaded := RowsOf(data, symbol);
    LoadedIsOrdered(data, symbol, side, began);
    assert data != [] ==> data[|data| - 1].timestamp <= began;
    RememberedIsEnough(loaded, began, steps, side, now);
    LogIsOrdered(loaded, began, steps, side);
    ScanIsFilter(Run(loaded, began, steps).log, side, now);
  }
}
