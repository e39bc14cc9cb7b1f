/**
 * The chart limiter: a token bucket with three service classes and a mute period after a refusal from the
 * messenger's API. Tokens and times are reals; every reading of the monotonic clock is an argument.
 */
module TokenBucket {
  const CAPACITY := 40.0
  const RATE := 0.36
  const CRITICAL := 5.0
  const PRIORITY := 15.0
  const PRIORITY_VOLUME := 10000.0

  datatype Alert = CASCADE | OI_PUMP | SQUEEZE | VOLUME

  datatype Verdict = Granted | Muted | Empty | CriticalOnly | PriorityOnly

  datatype Bucket = Bucket(tokens: real, lastRefill: real, muteUntil: real)

  function Min(a: real, b: real): real { if a < b then a else b }
  function Max(a: real, b: real): real { if a > b then a else b }

  /** What the bucket would hold at time `t`. */
  function Available(b: Bucket, t: real): real {
    if t <= b.lastRefill then b.tokens else Min(CAPACITY, b.tokens + (t - b.lastRefill) * RATE)
  }

  /** The tokens a request must find: the lower its class, the more of them. */
  function Needs(alert: Alert, sum5m: real): real {
    if alert == CASCADE then 1.0
    else if alert == SQUEEZE || sum5m > PRIORITY_VOLUME then CRITICAL
    else PRIORITY
  }

  function Refilled(b: Bucket, now: real): Bucket {
    if now <= b.lastRefill then b else b.(tokens := Available(b, now), lastRefill := now)
  }

  predicate Grants(b: Bucket, e: Event)
    requires e.Request?
  {
    e.checked >= b.muteUntil && Available(b, e.at) >= Needs(e.alert, e.sum5m)
  }

  /** A call reads the clock twice; both readings are part of the event. */
  datatype Event =
    | Request(at: real, checked: real, alert: Alert, sum5m: real)
    | Refusal(at: real, checked: real, retryAfter: real)

  function After(b: Bucket, e: Event): Bucket {
    match e
    case Request(at, _, _, _) =>
      var full := Refilled(b, at);
      if Grants(b, e) then full.(tokens := full.tokens - 1.0) else full
    case Refusal(at, checked, retryAfter) => Bucket(0.0, at, checked + retryAfter + 2.0)
  }

  class Limiter {
    var tokens: real
    var lastRefill: real
    var muteUntil: real

    function State(): Bucket
      reads this
    {
      Bucket(tokens, lastRefill, muteUntil)
    }

    constructor (now: real)
      ensures State() == Start(now)
    {
      tokens, lastRefill, muteUntil := CAPACITY, now, 0.0;
    }

    method RefillTokens(now: real)
      modifies this`tokens, this`lastRefill
      ensures State() == Refilled(old(State()), now)
    {
      var delta := now - lastRefill;
      if delta <= 0.0 { return; }
      tokens := Min(CAPACITY, tokens + delta * RATE);
      lastRefill := now;
    }

    method ShouldConsumeToken(alert: Alert, sum5m: real, at: real, checked: real) returns (verdict: Verdict)
      modifies this`tokens, this`lastRefill
      ensures var e := Request(at, checked, alert, sum5m);
              && State() == After(old(State()), e)
              && (verdict == Granted <==> Grants(old(State()), e))
      ensures verdict == Muted <==> checked < muteUntil
      ensures verdict == Empty ==> tokens < 1.0
      ensures verdict == CriticalOnly ==> 1.0 <= tokens < CRITICAL && alert != CASCADE
      ensures verdict == PriorityOnly ==> CRITICAL <= tokens < PRIORITY && alert != CASCADE && alert != SQUEEZE
    {
      RefillTokens(at);
      if checked < muteUntil { return Muted; }
      var isCritical := alert == CASCADE;
      var isPriority := alert == SQUEEZE || sum5m > PRIORITY_VOLUME;
      if tokens < 1.0 { return Empty; }
      if tokens < CRITICAL && !isCritical { return CriticalOnly; }
      if tokens < PRIORITY && !(isCritical || isPriority) { return PriorityOnly; }
      tokens := tokens - 1.0;
      return Granted;
    }

    method EnterMute(at: real, checked: real, retryAfter: real)
      modifies this
      ensures State() == After(old(State()), Refusal(at, checked, retryAfter))
      ensures tokens == 0.0 && lastRefill == at && muteUntil == checked + retryAfter + 2.0
    {
      tokens := 0.0;
      lastRefill := at;
      muteUntil := checked + retryAfter + 2.0;
    }
  }

  // ----- runs -----

  function Start(now: real): Bucket { Bucket(CAPACITY, now, 0.0) }

  /** Clock readings of a run do not go back. */
  ghost predicate Ordered(es: seq<Event>, from: real, to: real)
    decreases |es|
  {
    if es == [] then from <= to else from <= es[0].at <= es[0].checked && Ordered(es[1..], es[0].checked, to)
  }

  ghost function AfterAll(b: Bucket, es: seq<Event>): Bucket
    decreases |es|
  {
    if es == [] then b else AfterAll(After(b, es[0]), es[1..])
  }

  /** How many requests that need at least `level` tokens are granted. */
  ghost function GrantCount(b: Bucket, es: seq<Event>, level: real): nat
    decreases |es|
  {
    if es == [] then 0
    else
      (if es[0].Request? && Needs(es[0].alert, es[0].sum5m) >= level && Grants(b, es[0]) then 1 else 0)
      + GrantCount(After(b, es[0]), es[1..], level)
  }

  ghost predicate Fits(b: Bucket, now: real) {
    0.0 <= b.tokens <= CAPACITY && b.lastRefill <= now
  }

  lemma StepFits(b: Bucket, e: Event, now: real)
    requires Fits(b, now) && now <= e.at <= e.checked
    ensures Fits(After(b, e), e.checked)
  {
  }

  /** In every run the bucket holds between nothing and its capacity, through mute periods too. */
  lemma {:induction false} TokensStayInBounds(b: Bucket, es: seq<Event>, from: real, to: real)
    requires Fits(b, from) && Ordered(es, from, to)
    ensures Fits(AfterAll(b, es), to)
    decreases |es|
  {
    if es != [] {
      StepFits(b, es[0], from);
      TokensStayInBounds(After(b, es[0]), es[1..], es[0].checked, to);
    }
  }

  /** What requests of a class may still draw: the tokens above the level the class must leave. */
  ghost function Drawable(tokens: real, level: real): real { Max(0.0, tokens - (level - 1.0)) }

  /** One call takes from the drawable tokens what it grants, and time adds to them at the refill rate. */
  lemma StepDraws(b: Bucket, e: Event, from: real, level: real)
    requires Fits(b, from) && from <= e.at <= e.checked && level >= 1.0
    ensures (if e.Request? && Needs(e.alert, e.sum5m) >= level && Grants(b, e) then 1.0 else 0.0)
            + Drawable(Available(After(b, e), e.checked), level)
            <= Drawable(Available(b, from), level) + RATE * (e.checked - from)
  {
    assert Available(b, e.at) <= Available(b, from) + RATE * (e.at - from);
    assert Available(After(b, e), e.checked) <= After(b, e).tokens + RATE * (e.checked - e.at);
  }

  lemma {:induction false} DrawnWithin(b: Bucket, es: seq<Event>, from: real, to: real, level: real)
    requires Fits(b, from) && Ordered(es, from, to) && level >= 1.0
    ensures GrantCount(b, es, level) as real <= Drawable(Available(b, from), level) + RATE * (to - from)
    decreases |es|
  {
    if es != [] {
      StepFits(b, es[0], from);
      StepDraws(b, es[0], from, level);
      DrawnWithin(After(b, es[0]), es[1..], es[0].checked, to, level);
    }
  }

  /**
   * The tiered rate bound. After any run, over any window, the requests of a class and of the classes below it
   * are granted at most `41 - level` times plus 0.36 a second: 40 for all requests, 36 without cascades, 26 for
   * ordinary ones.
   */
  lemma TieredRate(began: real, before: seq<Event>, window: seq<Event>, from: real, to: real)
    requires Ordered(before, began, from) && Ordered(window, from, to)
    ensures var b := AfterAll(Start(began), before);
            && GrantCount(b, window, 1.0) as real <= 40.0 + 0.36 * (to - from)
            && GrantCount(b, window, CRITICAL) as real <= 36.0 + 0.36 * (to - from)
            && GrantCount(b, window, PRIORITY) as real <= 26.0 + 0.36 * (to - from)
  {
    TokensStayInBounds(Start(began), before, began, from);
    var b := AfterAll(Start(began), before);
    DrawnWithin(b, window, from, to, 1.0);
    DrawnWithin(b, window, from, to, CRITICAL);
    DrawnWithin(b, window, from, to, PRIORITY);
  }

  ghost function Burst(n: nat, at: real, alert: Alert): seq<Event> {
    if n == 0 then [] else [Request(at, at, alert, 0.0)] + Burst(n - 1, at, alert)
  }

  /** The bounds are reached: out of a full bucket a burst of each class is granted exactly that often. */
  lemma {:induction false} BurstIsServed(b: Bucket, n: nat, alert: Alert)
    requires b.muteUntil <= b.lastRefill && b.tokens >= (n - 1) as real + Needs(alert, 0.0)
    ensures GrantCount(b, Burst(n, b.lastRefill, alert), Needs(alert, 0.0)) == n
    decreases n
  {
    if n > 0 {
      var e := Request(b.lastRefill, b.lastRefill, alert, 0.0);
      assert Burst(n, b.lastRefill, alert)[1..] == Burst(n - 1, b.lastRefill, alert);
      BurstIsServed(After(b, e), n - 1, alert);
    }
  }

  lemma RateBoundsAreTight(at: real)
    requires at >= 0.0
    ensures GrantCount(Start(at), Burst(40, at, CASCADE), 1.0) == 40
    ensures GrantCount(Start(at), Burst(36, at, SQUEEZE), CRITICAL) == 36
    ensures GrantCount(Start(at), Burst(26, at, VOLUME), PRIORITY) == 26
  {
    BurstIsServed(Start(at), 40, CASCADE);
    BurstIsServed(Start(at), 36, SQUEEZE);
    BurstIsServed(Start(at), 26, VOLUME);
  }

  // ----- the reserve for cascades -----

  ghost predicate IsCascade(e: Event) { e.Request? && e.alert == CASCADE }

  /** Tokens grow back to one within this time. */
  const REGAIN := 1.0 / RATE

  /**
   * Nothing but requests after `from`, and every two cascades at least the time apart in which one token grows back;
   * `last` is when the previous cascade came.
   */
  ghost predicate PacedCascades(es: seq<Event>, from: real, last: real)
    decreases |es|
  {
    es == []
    || (es[0].Request? && from <= es[0].at <= es[0].checked
        && (IsCascade(es[0]) ==> es[0].at >= last + REGAIN)
        && PacedCascades(es[1..], es[0].checked, if IsCascade(es[0]) then es[0].at else last))
  }

  ghost function CascadesIn(es: seq<Event>): nat
    decreases |es|
  {
    if es == [] then 0 else (if IsCascade(es[0]) then 1 else 0) + CascadesIn(es[1..])
  }

  ghost function CascadesGranted(b: Bucket, es: seq<Event>): nat
    decreases |es|
  {
    if es == [] then 0
    else (if IsCascade(es[0]) && Grants(b, es[0]) then 1 else 0) + CascadesGranted(After(b, es[0]), es[1..])
  }

  /** What the lower classes must leave, less what the last cascade took and has not grown back. */
  ghost predicate Reserved(b: Bucket, last: real) {
    b.tokens >= 3.0 && (b.tokens >= 4.0 || b.tokens >= 3.0 + (b.lastRefill - last) * RATE)
  }

  lemma RequestKeepsReserve(b: Bucket, e: Event, from: real, last: real)
    requires Fits(b, from) && Reserved(b, last) && last <= b.lastRefill && b.muteUntil <= from
    requires e.Request? && from <= e.at <= e.checked && (IsCascade(e) ==> e.at >= last + REGAIN)
    ensures IsCascade(e) ==> Grants(b, e)
    ensures var last' := if IsCascade(e) then e.at else last;
            Reserved(After(b, e), last') && last' <= After(b, e).lastRefill && After(b, e).muteUntil == b.muteUntil
  {
    assert Available(b, e.at) >= 4.0 || Available(b, e.at) >= 3.0 + (e.at - last) * RATE;
    assert REGAIN * RATE == 1.0;
    assert IsCascade(e) ==> (e.at - last) * RATE >= 1.0;
  }

  /**
   * Cascades that come no faster than tokens grow back are all served, whatever the other classes ask for in between:
   * the tokens the lower classes must leave are enough. Only cascades can starve a cascade.
   */
  lemma {:induction false} PacedCascadesAreServed(b: Bucket, es: seq<Event>, from: real, last: real)
    requires Fits(b, from) && Reserved(b, last) && last <= b.lastRefill && b.muteUntil <= from
    requires PacedCascades(es, from, last)
    ensures CascadesGranted(b, es) == CascadesIn(es)
    decreases |es|
  {
    if es != [] {
      StepFits(b, es[0], from);
      RequestKeepsReserve(b, es[0], from, last);
      PacedCascadesAreServed(After(b, es[0]), es[1..], es[0].checked, if IsCascade(es[0]) then es[0].at else last);
    }
  }

  // ----- the mute period -----

  /** Only requests, with clock readings that do not go back, and all of them before a moment. */
  ghost predicate RequestsBefore(es: seq<Event>, from: real, until: real)
    decreases |es|
  {
    es == []
    || (es[0].Request? && from <= es[0].at <= es[0].checked < until && RequestsBefore(es[1..], es[0].checked, until))
  }

  lemma {:induction false} NothingWhileMuted(b: Bucket, es: seq<Event>, from: real, until: real)
    requires RequestsBefore(es, from, until) && b.muteUntil >= until
    ensures GrantCount(b, es, 1.0) == 0
    decreases |es|
  {
    if es != [] { NothingWhileMuted(After(b, es[0]), es[1..], es[0].checked, until); }
  }

  /** After a refusal nothing is granted for the time it names and two seconds more, whatever is asked for. */
  lemma RefusalMutes(b: Bucket, at: real, checked: real, retryAfter: real, es: seq<Event>)
    requires RequestsBefore(es, checked, checked + retryAfter + 2.0)
    ensures GrantCount(After(b, Refusal(at, checked, retryAfter)), es, 1.0) == 0
  {
    NothingWhileMuted(After(b, Refusal(at, checked, retryAfter)), es, checked, checked + retryAfter + 2.0);
  }

  /** And the first request is granted exactly from then on, once enough tokens have grown back from nothing. */
  lemma GrantedAfterMute(b: Bucket, at: real, checked: real, retryAfter: real, e: Event)
    requires e.Request? && at <= checked <= e.at <= e.checked
    ensures var tokens := if e.alert == CASCADE then 1.0
                          else if e.alert == SQUEEZE || e.sum5m > 10000.0 then 5.0 else 15.0;
            Grants(After(b, Refusal(at, checked, retryAfter)), e)
            <==> e.checked >= checked + retryAfter + 2.0 && (e.at - at) * 0.36 >= tokens
  {
  }

  /** Of two refusals the later one decides: it shortens the mute exactly if its waiting time ends earlier. */
  lemma LaterRefusalDecides(b: Bucket, first: Event, second: Event)
    requires first.Refusal? && second.Refusal?
    ensures After(After(b, first), second).muteUntil < After(b, first).muteUntil
            <==> second.checked + second.retryAfter < first.checked + first.retryAfter
  {
  }
}
