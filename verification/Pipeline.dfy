/**
 * The signal pipeline between the raw and the ready stream: consumer-group delivery, reclaiming of
 * idle entries, publish before acknowledge, crashes and lost replies.
 */
module Pipeline {
  import opened Rows

  /**
   * A candle counts if it has six numbers. `rest` stands for the fields no step of the pipeline looks at or
   * changes.
   */
  datatype Signal = Signal(signalId: nat, symbol: string, side: string, sum: real, renderRequested: bool,
    timestamp: int,
                           rest: string, ohlc: seq<seq<int>>, chart: Option<int>)

  datatype Delivery = Delivery(consumer: nat, since: int)

  /** A stream with one consumer group. Entries are identified by position; the first `trimmed` ones are gone. */
  datatype Stream = Stream(entries: seq<Signal>, trimmed: nat, delivered: nat, pending: map<nat, Delivery>,
    acked: set<nat>)

  const COUNT := 10
  const IDLE := 30000

  // ----- reading -----

  /** Which pending entries a command asks for: those idle for long enough, or those of one consumer. */
  datatype Query = IdleSince(now: int) | OwnedBy(consumer: nat)

  predicate Meets(s: Stream, q: Query, i: nat) {
    i in s.pending && if q.IdleSince? then q.now - s.pending[i].since >= IDLE else s.pending[i].consumer == q.consumer
  }

  /** The first `count` pending positions from `from` on that a query asks for. */
  function Pick(s: Stream, q: Query, from: nat, count: nat): (r: seq<nat>)
    ensures forall i <- r :: from <= i < s.delivered && Meets(s, q, i)
    ensures r == [] && count > 0 ==> forall i :: from <= i < s.delivered ==> !Meets(s, q, i)
    decreases if from < s.delivered then s.delivered - from else 0
  {
    if from >= s.delivered || count == 0 then []
    else if Meets(s, q, from) then [from] + Pick(s, q, from + 1, count - 1)
    else Pick(s, q, from + 1, count)
  }

  function IdleIds(s: Stream, now: int): seq<nat> {
    Pick(s, IdleSince(now), 0, COUNT)
  }

  function OwnIds(s: Stream, consumer: nat): seq<nat> {
    Pick(s, OwnedBy(consumer), 0, COUNT)
  }

  /** Reclaiming moves idle entries to the caller; entries trimmed meanwhile leave the pending list. */
  function Claim(s: Stream, ids: seq<nat>, consumer: nat, now: int): Stream {
    s.(pending := map i | i in s.pending && !(i in ids && i < s.trimmed) ::
                    if i in ids then Delivery(consumer, now) else s.pending[i])
  }

  datatype Entry = Entry(id: nat, payload: Option<Signal>)

  function Lookup(s: Stream, ids: seq<nat>): seq<Entry> {
    if ids == [] then []
    else
      var i := ids[0];
      [Entry(i, if s.trimmed <= i < |s.entries| then Some(s.entries[i]) else None)] + Lookup(s, ids[1..])
  }

  datatype Message = Message(id: nat, dto: Signal)

  /** Entries without a payload are skipped. */
  function Parsed(entries: seq<Entry>): seq<Message> {
    if entries == [] then []
    else
      var last := entries[|entries| - 1];
      Parsed(entries[..|entries| - 1]) + if last.payload.Some? then [Message(last.id, last.payload.value)] else []
  }

  method ParseStreamEntries(entries: seq<Entry>) returns (parsed: seq<Message>)
    ensures parsed == Parsed(entries)
  {
    parsed := [];
    for i := 0 to |entries|
      invariant parsed == Parsed(entries[..i])
    {
      assert entries[..i + 1][..i] == entries[..i];
      if entries[i].payload.None? { continue; }
      parsed := parsed + [Message(entries[i].id, entries[i].payload.value)];
    }
    assert entries[..|entries|] == entries;
  }

  function Positions(first: nat, last: nat): (r: seq<nat>)
    ensures forall i: nat :: i in r <==> first <= i < last
    decreases if first < last then last - first else 0
  {
    if first >= last then [] else [first] + Positions(first + 1, last)
  }

  datatype Read = Read(stream: Stream, batch: seq<Message>)

  function ReadNew(s: Stream, consumer: nat, now: int): Read {
    var first := if s.delivered < s.trimmed then s.trimmed else s.delivered;
    var last := if first + COUNT < |s.entries| then first + COUNT else |s.entries|;
    if first >= last then Read(s, [])
    else
      var ids := Positions(first, last);
      Read(s.(delivered := last, pending := s.pending + map i | i in ids :: Delivery(consumer, now)),
           Parsed(Lookup(s, ids)))
  }

  /** Reclaimed entries first, then the consumer's own unfinished ones, then new ones. */
  function GetSignals(s: Stream, consumer: nat, now: int): Read {
    var idle := IdleIds(s, now);
    var claimed := Claim(s, idle, consumer, now);
    var reclaimed := Parsed(Lookup(claimed, idle));
    var own := Parsed(Lookup(claimed, OwnIds(claimed, consumer)));
    if reclaimed != [] then Read(claimed, reclaimed)
    else if own != [] then Read(claimed, own)
    else ReadNew(claimed, consumer, now)
  }

  // ----- the artist -----

  const MAX_AGE := 20
  const CACHE_TTL := 180

  /** The id of the chart's message in the channel, remembered for a symbol. */
  datatype Cached = Cached(chart: int, expires: int)

  type Cache = map<string, Cached>

  /**
   * One attempt at a chart: `now` is when the signal's age is taken, `granted` the verdict of the limiter,
   * `readAt` when the cache is read, if that succeeds. Should a chart be drawn and sent to the channel,
   * `harvested` is the id of the message, and it is cached at `storedAt`, if that succeeds.
   */
  datatype Attempt = Attempt(now: int, granted: bool, readAt: int, readable: bool, harvested: Option<int>,
                             storedAt: int, stored: bool)

  predicate WantsChart(dto: Signal, a: Attempt) {
    dto.renderRequested && a.now - dto.timestamp <= MAX_AGE && a.granted
  }

  function CachedChart(cache: Cache, dto: Signal, a: Attempt): Option<int> {
    if a.readable && dto.symbol in cache && a.readAt < cache[dto.symbol].expires then Some(cache[dto.symbol].chart)
    else None
  }

  function Candles(ohlc: seq<seq<int>>): nat {
    if ohlc == [] then 0
    else Candles(ohlc[..|ohlc| - 1]) + if |ohlc[|ohlc| - 1]| == 6 then 1 else 0
  }

  /** A chart needs two candles. */
  function Drawn(dto: Signal, a: Attempt): Option<int> {
    if Candles(dto.ohlc) < 2 then None else a.harvested
  }

  function ChartFor(cache: Cache, dto: Signal, a: Attempt): Option<int> {
    if !WantsChart(dto, a) then None
    else if CachedChart(cache, dto, a).Some? then CachedChart(cache, dto, a)
    else Drawn(dto, a)
  }

  predicate Draws(cache: Cache, dto: Signal, a: Attempt) {
    WantsChart(dto, a) && CachedChart(cache, dto, a).None? && Drawn(dto, a).Some?
  }

  function CacheAfter(cache: Cache, dto: Signal, a: Attempt): Cache {
    if Draws(cache, dto, a) && a.stored
    then cache[dto.symbol := Cached(Drawn(dto, a).value, a.storedAt + CACHE_TTL)] else cache
  }

  function BuildReady(dto: Signal, chart: Option<int>): Signal {
    dto.(ohlc := [], chart := chart)
  }

  /** Equal in every field but the candles and the chart id. */
  predicate SameSignal(raw: Signal, ready: Signal) {
    ready.(ohlc := raw.ohlc, chart := raw.chart) == raw
  }

  /** A chart that was sent to the channel: drawn for a signal of `symbol`, and cached, if at all, at `at`. */
  datatype Harvest = Harvest(symbol: string, chart: int, at: int)

  /** How a ready entry came about: from which raw entry, in which attempt. */
  datatype Making = Making(id: nat, attempt: Attempt)

  /** `harvests` and `makings` are history; a making belongs to the ready entry at the same position. */
  datatype State = State(
    raw: Stream,
    ready: seq<Signal>,
    batches: map<nat, seq<Message>>,
    cache: Cache,
    harvests: seq<Harvest>,
    makings: seq<Making>)

  /** What became of the XADD: stored, stored with the reply lost, or not stored. */
  datatype Publish = Stored | ReplyLost | NotStored

  datatype Action =
    | Produce(dto: Signal)
    | Trim(count: nat)
    | ReadBatch(consumer: nat, now: int)
    | ReadLost(consumer: nat, now: int, claimOnly: bool)
    | ProcessNext(consumer: nat, attempt: Attempt, publish: Publish, ackArrives: bool)
    | Crash(consumer: nat)

  function BatchOf(s: State, consumer: nat): seq<Message> {
    if consumer in s.batches then s.batches[consumer] else []
  }

  function Ack(s: Stream, id: nat): Stream {
    if id in s.pending then s.(pending := s.pending - {id}, acked := s.acked + {id}) else s
  }

  /** The chart, then the ready entry, then the acknowledgement. */
  function Process(s: State, consumer: nat, a: Attempt, publish: Publish, ackArrives: bool): State
    requires BatchOf(s, consumer) != []
  {
    var m := BatchOf(s, consumer)[0];
    var copy := BuildReady(m.dto, ChartFor(s.cache, m.dto, a));
    State(if publish == Stored && ackArrives then Ack(s.raw, m.id) else s.raw,
          if publish == NotStored then s.ready else s.ready + [copy],
          s.batches[consumer := BatchOf(s, consumer)[1..]],
          CacheAfter(s.cache, m.dto, a),
          if Draws(s.cache, m.dto, a) then s.harvests + [Harvest(m.dto.symbol, Drawn(m.dto, a).value, a.storedAt)]
          else s.harvests,
          if publish == NotStored then s.makings else s.makings + [Making(m.id, a)])
  }

  function Step(s: State, a: Action): State {
    match a
    case Produce(dto) => s.(raw := s.raw.(entries := s.raw.entries + [dto]))
    case Trim(count) => if s.raw.trimmed <= count <= |s.raw.entries| then s.(raw := s.raw.(trimmed := count)) else s
    case ReadBatch(consumer, now) =>
      if BatchOf(s, consumer) != [] then s
      else
        var r := GetSignals(s.raw, consumer, now);
        s.(raw := r.stream, batches := s.batches[consumer := r.batch])
    case ReadLost(consumer, now, claimOnly) =>
      // the server has served the read, or only its first command, but the reply never arrived
      s.(raw := if claimOnly then Claim(s.raw, IdleIds(s.raw, now), consumer, now)
        else GetSignals(s.raw, consumer, now).stream)
    case ProcessNext(consumer, attempt, publish, ackArrives) =>
      if BatchOf(s, consumer) == [] then s else Process(s, consumer, attempt, publish, ackArrives)
    case Crash(consumer) => s.(batches := s.batches - {consumer})
  }

  function Run(s: State, actions: seq<Action>): State {
    if actions == [] then s else Step(Run(s, actions[..|actions| - 1]), actions[|actions| - 1])
  }

  const EMPTY := State(Stream([], 0, 0, map[], {}), [], map[], map[], [], [])

  // ----- invariant -----

  ghost predicate Delivered(s: Stream, m: Message) {
    m.id < s.delivered && m.id < |s.entries| && m.dto == s.entries[m.id]
  }

  /** Acknowledged and pending entries are disjoint, were delivered, and cover every delivered entry not trimmed. */
  ghost predicate Accounted(s: Stream) {
    && s.trimmed <= |s.entries| && s.delivered <= |s.entries|
    && (forall i <- s.pending :: i < s.delivered && i !in s.acked)
    && (forall i <- s.acked :: i < s.delivered)
    && (forall i :: s.trimmed <= i < s.delivered ==> i in s.pending || i in s.acked)
  }

  ghost predicate Published(s: State, i: nat)
    requires i < |s.raw.entries|
  {
    exists k :: 0 <= k < |s.ready| && SameSignal(s.raw.entries[i], s.ready[k])
  }

  ghost predicate Inv(s: State) {
    && Accounted(s.raw)
    && (forall i <- s.raw.acked :: Published(s, i))
    && (forall c <- s.batches :: forall m <- s.batches[c] :: Delivered(s.raw, m))
    && (forall r <- s.ready :: exists i :: 0 <= i < |s.raw.entries| && SameSignal(s.raw.entries[i], r))
  }

  lemma {:induction false} ParsedLookup(s: Stream, ids: seq<nat>)
    ensures forall m <- Parsed(Lookup(s, ids)) :: m.id in ids && s.trimmed <= m.id < |s.entries|
              && m.dto == s.entries[m.id]
    ensures forall i <- ids | s.trimmed <= i < |s.entries| :: Message(i, s.entries[i]) in Parsed(Lookup(s, ids))
  {
    if ids != [] {
      ParsedLookup(s, ids[1..]);
      var head := Lookup(s, ids)[0];
      ParsedCons(head, Lookup(s, ids[1..]));
    }
  }

  lemma {:induction false} ParsedCons(e: Entry, rest: seq<Entry>)
    ensures Parsed([e] + rest) == (if e.payload.Some? then [Message(e.id, e.payload.value)] else []) + Parsed(rest)
  {
    var all := [e] + rest;
    if rest == [] {
      assert all[..|all| - 1] == [];
    } else {
      assert all[..|all| - 1] == [e] + rest[..|rest| - 1];
      ParsedCons(e, rest[..|rest| - 1]);
    }
  }

  /** A read loses nothing: entries and acknowledgements stay, and what it returns is what the stream holds. */
  ghost predicate ReadFits(s: Stream, r: Read) {
    && Accounted(r.stream) && r.stream.entries == s.entries && r.stream.trimmed == s.trimmed
    && r.stream.acked == s.acked && r.stream.delivered >= s.delivered
    && forall m <- r.batch :: Delivered(r.stream, m)
  }

  lemma ReadNewKeepsAccount(s: Stream, consumer: nat, now: int)
    requires Accounted(s)
    ensures ReadFits(s, ReadNew(s, consumer, now))
  {
    var first := if s.delivered < s.trimmed then s.trimmed else s.delivered;
    var last := if first + COUNT < |s.entries| then first + COUNT else |s.entries|;
    if first < last {
      var ids := Positions(first, last);
      ParsedLookup(s, ids);
    }
  }

  lemma GetSignalsKeepsAccount(s: Stream, consumer: nat, now: int)
    requires Accounted(s)
    ensures ReadFits(s, GetSignals(s, consumer, now))
  {
    var idle := IdleIds(s, now);
    var claimed := Claim(s, idle, consumer, now);
    ParsedLookup(claimed, idle);
    ParsedLookup(claimed, OwnIds(claimed, consumer));
    ReadNewKeepsAccount(claimed, consumer, now);
  }

  lemma {:induction false} PickIsShort(s: Stream, q: Query, from: nat, count: nat)
    ensures |Pick(s, q, from, count)| <= count
    ensures forall i, j | 0 <= i < j < |Pick(s, q, from, count)| ::
              Pick(s, q, from, count)[i] < Pick(s, q, from, count)[j]
    decreases if from < s.delivered then s.delivered - from else 0
  {
    if from < s.delivered && count > 0 {
      if Meets(s, q, from) {
        PickIsShort(s, q, from + 1, count - 1);
        var rest := Pick(s, q, from + 1, count - 1);
        assert forall i :: 0 <= i < |rest| ==> rest[i] in rest;
      } else {
        PickIsShort(s, q, from + 1, count);
      }
    }
  }

  lemma {:induction false} ParsedIsShort(entries: seq<Entry>)
    ensures |Parsed(entries)| <= |entries|
  {
    if entries != [] { ParsedIsShort(entries[..|entries| - 1]); }
  }

  lemma {:induction false} LookupIsShort(s: Stream, ids: seq<nat>)
    ensures |Lookup(s, ids)| == |ids|
  {
    if ids != [] { LookupIsShort(s, ids[1..]); }
  }

  lemma {:induction false} PositionsAre(first: nat, last: nat)
    requires first <= last
    ensures |Positions(first, last)| == last - first
    decreases last - first
  {
    if first < last { PositionsAre(first + 1, last); }
  }

  /** The delivery of entry `i` to somebody else that is younger than half a minute. */
  predicate IsFreshOfAnother(s: Stream, i: nat, consumer: nat, now: int) {
    i in s.pending && s.pending[i].consumer != consumer && now - s.pending[i].since < 30000
  }

  lemma ClaimRespectsOwners(s: Stream, consumer: nat, now: int)
    requires Accounted(s)
    ensures var claimed := Claim(s, IdleIds(s, now), consumer, now);
            && claimed == s.(pending := claimed.pending)
            && (forall i :: IsFreshOfAnother(s, i, consumer, now) ==>
                  i in claimed.pending && claimed.pending[i] == s.pending[i])
            && (forall i <- IdleIds(s, now) :: i >= s.trimmed ==>
                  i in claimed.pending && claimed.pending[i] == Delivery(consumer, now))
            && (forall i <- IdleIds(s, now) :: i < s.trimmed ==> i !in claimed.pending)
            && (forall i :: i !in IdleIds(s, now) ==>
                  (i in claimed.pending <==> i in s.pending)
                  && (i in s.pending ==> claimed.pending[i] == s.pending[i]))
  {
  }

  /**
   * What a read returns belongs to the reader, and is at most ten entries. Deliveries to others that are younger than
   * half a minute stay theirs and are not returned; what is taken over from others is older and counts from now.
   */
  lemma ReadRespectsOwners(s: Stream, consumer: nat, now: int)
    requires Accounted(s)
    ensures var r := GetSignals(s, consumer, now);
            && |r.batch| <= 10
            && (forall m <- r.batch ::
                  m.id in r.stream.pending && r.stream.pending[m.id].consumer == consumer)
            && (forall i :: IsFreshOfAnother(s, i, consumer, now) ==>
                  i in r.stream.pending && r.stream.pending[i] == s.pending[i] && forall m <- r.batch :: m.id != i)
            && (forall m <- r.batch | m.id in s.pending && s.pending[m.id].consumer != consumer ::
                  now - s.pending[m.id].since >= 30000 && r.stream.pending[m.id] == Delivery(consumer, now))
            && (forall m <- r.batch | m.id !in s.pending ::
                  s.delivered <= m.id && r.stream.pending[m.id] == Delivery(consumer, now))
  {
    var idle := IdleIds(s, now);
    var claimed := Claim(s, idle, consumer, now);
    var own := OwnIds(claimed, consumer);
    ClaimRespectsOwners(s, consumer, now);
    ParsedLookup(claimed, idle);
    ParsedLookup(claimed, own);
    BatchIsShort(s, IdleSince(now), claimed);
    BatchIsShort(claimed, OwnedBy(consumer), claimed);
    NewRespectsOwners(claimed, consumer, now);
  }

  lemma BatchIsShort(s: Stream, q: Query, t: Stream)
    ensures |Parsed(Lookup(t, Pick(s, q, 0, COUNT)))| <= 10
  {
    PickIsShort(s, q, 0, COUNT);
    LookupIsShort(t, Pick(s, q, 0, COUNT));
    ParsedIsShort(Lookup(t, Pick(s, q, 0, COUNT)));
  }

  lemma NewRespectsOwners(s: Stream, consumer: nat, now: int)
    requires forall i <- s.pending :: i < s.delivered
    ensures var r := ReadNew(s, consumer, now);
            && |r.batch| <= 10
            && (forall i <- s.pending :: i in r.stream.pending && r.stream.pending[i] == s.pending[i])
            && (forall m <- r.batch :: m.id !in s.pending && s.delivered <= m.id
                 && m.id in r.stream.pending && r.stream.pending[m.id] == Delivery(consumer, now))
  {
    var first := if s.delivered < s.trimmed then s.trimmed else s.delivered;
    var last := if first + COUNT < |s.entries| then first + COUNT else |s.entries|;
    if first < last {
      var ids := Positions(first, last);
      PositionsAre(first, last);
      LookupIsShort(s, ids);
      ParsedIsShort(Lookup(s, ids));
      ParsedLookup(s, ids);
    }
  }

  lemma {:induction false} PickIsComplete(s: Stream, q: Query, from: nat, count: nat, trimmed: set<nat>)
    requires forall i <- Pick(s, q, from, count) :: i in trimmed
    requires |trimmed| < count
    ensures forall i :: from <= i < s.delivered && Meets(s, q, i) ==> i in trimmed
    decreases if from < s.delivered then s.delivered - from else 0
  {
    if from < s.delivered {
      if Meets(s, q, from) {
        var rest := Pick(s, q, from + 1, count - 1);
        assert Pick(s, q, from, count) == [from] + rest;
        forall i <- rest ensures i in trimmed - {from} { assert i in [from] + rest; }
        PickIsComplete(s, q, from + 1, count - 1, trimmed - {from});
      } else {
        PickIsComplete(s, q, from + 1, count, trimmed);
      }
    }
  }

  /** The pending entries whose payload is gone. */
  function TrimmedPending(s: Stream): set<nat> {
    set i <- s.pending | i < s.trimmed
  }

  lemma NoneOfThese(s: Stream, q: Query)
    requires Accounted(s) && |TrimmedPending(s)| < COUNT && Parsed(Lookup(s, Pick(s, q, 0, COUNT))) == []
    ensures forall i :: s.trimmed <= i ==> !Meets(s, q, i)
  {
    var ids := Pick(s, q, 0, COUNT);
    ParsedLookup(s, ids);
    forall i <- ids ensures i in TrimmedPending(s) {}
    PickIsComplete(s, q, 0, COUNT, TrimmedPending(s));
  }

  /**
   * A read that brings nothing leaves nothing undelivered. And only fresh deliveries of other consumers stay pending,
   * unless the pending entries whose payload is gone fill a whole batch and hide the rest.
   */
  lemma EmptyReadMeansNothingLeft(s: Stream, consumer: nat, now: int)
    requires Accounted(s) && GetSignals(s, consumer, now).batch == []
    ensures forall i :: s.trimmed <= i < |s.entries| ==> i in s.pending || i in s.acked
    ensures |TrimmedPending(s)| < 10 ==>
              forall i :: s.trimmed <= i && i in s.pending ==>
                s.pending[i].consumer != consumer && now - s.pending[i].since < 30000
  {
    var idle := IdleIds(s, now);
    var claimed := Claim(s, idle, consumer, now);
    ParsedLookup(claimed, idle);
    GetSignalsKeepsAccount(s, consumer, now);
    UndeliveredIsRead(claimed, consumer, now);
    if |TrimmedPending(s)| < COUNT {
      assert Lookup(claimed, idle) == Lookup(s, idle) by { LookupSame(s, claimed, idle); }
      NoneOfThese(s, IdleSince(now));
      assert TrimmedPending(claimed) <= TrimmedPending(s);
      SmallerIsFewer(TrimmedPending(claimed), TrimmedPending(s));
      NoneOfThese(claimed, OwnedBy(consumer));
      forall i | s.trimmed <= i && i in s.pending
        ensures s.pending[i].consumer != consumer && now - s.pending[i].since < IDLE
      {
        assert !Meets(s, IdleSince(now), i) && i !in idle && !Meets(claimed, OwnedBy(consumer), i);
      }
    }
  }

  lemma {:induction false} LookupSame(s: Stream, t: Stream, ids: seq<nat>)
    requires s.entries == t.entries && s.trimmed == t.trimmed
    ensures Lookup(s, ids) == Lookup(t, ids)
  {
    if ids != [] { LookupSame(s, t, ids[1..]); }
  }

  lemma SmallerIsFewer(a: set<nat>, b: set<nat>)
    requires a <= b
    ensures |a| <= |b|
  {
    assert b == a + (b - a);
  }

  lemma UndeliveredIsRead(s: Stream, consumer: nat, now: int)
    requires Accounted(s)
    ensures s.delivered < |s.entries| && s.trimmed < |s.entries| ==> ReadNew(s, consumer, now).batch != []
  {
    var first := if s.delivered < s.trimmed then s.trimmed else s.delivered;
    var last := if first + COUNT < |s.entries| then first + COUNT else |s.entries|;
    if first < last {
      var ids := Positions(first, last);
      ParsedLookup(s, ids);
      assert first in ids;
      assert Message(first, s.entries[first]) in ReadNew(s, consumer, now).batch;
    }
  }

  /** Steps that publish and acknowledge nothing. */
  lemma QuietStepKeepsInv(s: State, t: State)
    requires Inv(s) && Accounted(t.raw) && s.raw.entries <= t.raw.entries
    requires t.raw.acked == s.raw.acked && t.ready == s.ready
    requires forall c <- t.batches :: forall m <- t.batches[c] :: Delivered(t.raw, m)
    ensures Inv(t)
  {
    forall i <- t.raw.acked ensures Published(t, i) {
      assert Published(s, i);
    }
    forall r <- t.ready ensures exists i :: 0 <= i < |t.raw.entries| && SameSignal(t.raw.entries[i], r) {
      var i :| 0 <= i < |s.raw.entries| && SameSignal(s.raw.entries[i], r);
      assert t.raw.entries[i] == s.raw.entries[i];
    }
  }

  lemma ReadKeepsInv(s: State, consumer: nat, now: int, claimOnly: bool)
    requires Inv(s)
    ensures Inv(Step(s, ReadBatch(consumer, now))) && Inv(Step(s, ReadLost(consumer, now, claimOnly)))
  {
    GetSignalsKeepsAccount(s.raw, consumer, now);
    if BatchOf(s, consumer) == [] { QuietStepKeepsInv(s, Step(s, ReadBatch(consumer, now))); }
    QuietStepKeepsInv(s, Step(s, ReadLost(consumer, now, claimOnly)));
  }

  lemma StepKeepsInv(s: State, a: Action)
    requires Inv(s)
    ensures Inv(Step(s, a))
  {
    match a {
      case ReadBatch(consumer, now) => ReadKeepsInv(s, consumer, now, true);
      case ReadLost(consumer, now, claimOnly) => ReadKeepsInv(s, consumer, now, claimOnly);
      case ProcessNext(consumer, attempt, publish, ackArrives) =>
        if BatchOf(s, consumer) != [] { ProcessKeepsInv(s, consumer, attempt, publish, ackArrives); }
      case _ => QuietStepKeepsInv(s, Step(s, a));
    }
  }

  /** What processing one signal adds to the ready stream. */
  lemma ReadyCopy(s: State, consumer: nat, a: Attempt, publish: Publish, ackArrives: bool)
    requires Inv(s) && BatchOf(s, consumer) != []
    ensures var m, t := BatchOf(s, consumer)[0], Process(s, consumer, a, publish, ackArrives);
            && Delivered(s.raw, m)
            && (publish == NotStored ==> t.ready == s.ready)
            && (publish != NotStored ==>
                  && |t.ready| == |s.ready| + 1 && t.ready[..|s.ready|] == s.ready
                  && SameSignal(s.raw.entries[m.id], t.ready[|s.ready|]))
  {
    assert BatchOf(s, consumer)[0] in s.batches[consumer];
  }

  lemma ProcessKeepsPublished(s: State, consumer: nat, a: Attempt, publish: Publish, ackArrives: bool, i: nat)
    requires Inv(s) && BatchOf(s, consumer) != [] && i in Process(s, consumer, a, publish, ackArrives).raw.acked
    ensures i < |s.raw.entries| && Published(Process(s, consumer, a, publish, ackArrives), i)
  {
    var t := Process(s, consumer, a, publish, ackArrives);
    ReadyCopy(s, consumer, a, publish, ackArrives);
    if i in s.raw.acked {
      assert Published(s, i);
      var k :| 0 <= k < |s.ready| && SameSignal(s.raw.entries[i], s.ready[k]);
      assert t.ready[k] == s.ready[k];
    } else {
      assert SameSignal(s.raw.entries[i], t.ready[|s.ready|]);
    }
  }

  lemma ProcessKeepsInv(s: State, consumer: nat, a: Attempt, publish: Publish, ackArrives: bool)
    requires Inv(s) && BatchOf(s, consumer) != []
    ensures Inv(Process(s, consumer, a, publish, ackArrives))
  {
    var t := Process(s, consumer, a, publish, ackArrives);
    ReadyCopy(s, consumer, a, publish, ackArrives);
    assert forall x <- BatchOf(s, consumer)[1..] :: x in s.batches[consumer];
    forall i <- t.raw.acked ensures Published(t, i) {
      ProcessKeepsPublished(s, consumer, a, publish, ackArrives, i);
    }
    forall r <- t.ready ensures exists i :: 0 <= i < |t.raw.entries| && SameSignal(t.raw.entries[i], r) {
      if r !in s.ready { assert SameSignal(s.raw.entries[BatchOf(s, consumer)[0].id], r); }
    }
  }

  lemma {:induction false} RunKeepsInv(s: State, actions: seq<Action>)
    requires Inv(s)
    ensures Inv(Run(s, actions))
  {
    if actions != [] {
      RunKeepsInv(s, actions[..|actions| - 1]);
      StepKeepsInv(Run(s, actions[..|actions| - 1]), actions[|actions| - 1]);
    }
  }

  /**
   * Publish before acknowledge. In every run, each raw signal that is not trimmed is undelivered, pending or
   * acknowledged, and an acknowledged one has reached the ready stream, unchanged but for candles and chart;
   * the ready stream never holds anything else.
   */
  lemma NothingIsLost(actions: seq<Action>, i: nat)
    ensures var s := Run(EMPTY, actions);
            i < |s.raw.entries| ==>
              && (i >= s.raw.trimmed ==> i >= s.raw.delivered || i in s.raw.pending || i in s.raw.acked)
              && !(i in s.raw.pending && i in s.raw.acked)
              && (i in s.raw.acked ==> exists k :: 0 <= k < |s.ready| && SameSignal(s.raw.entries[i], s.ready[k]))
    ensures var s := Run(EMPTY, actions);
            i < |s.ready| ==> exists j :: 0 <= j < |s.raw.entries| && SameSignal(s.raw.entries[j], s.ready[i])
  {
    RunKeepsInv(EMPTY, actions);
    var s := Run(EMPTY, actions);
    if i < |s.raw.entries| && i in s.raw.acked { assert Published(s, i); }
    if i < |s.ready| { assert s.ready[i] in s.ready; }
  }

  /** What arrives is appended, what is trimmed is gone, and a crash loses the batch in hand and nothing else. */
  lemma StepsDo(s: State, dto: Signal, count: nat, consumer: nat, now: int)
    ensures var t := Step(s, Produce(dto)); t == s.(raw := t.raw) && t.raw == s.raw.(entries := s.raw.entries + [dto])
    ensures var t := Step(s, Trim(count));
            && t == s.(raw := t.raw) && t.raw == s.raw.(trimmed := t.raw.trimmed)
            && t.raw.trimmed == if s.raw.trimmed <= count <= |s.raw.entries| then count else s.raw.trimmed
    ensures var t := Step(s, Crash(consumer));
            t == s.(batches := t.batches) && BatchOf(t, consumer) == []
              && forall c :: c != consumer ==> BatchOf(t, c) == BatchOf(s, c)
    ensures var t := Step(s, ReadBatch(consumer, now));
            && (BatchOf(s, consumer) != [] ==> t == s)
            && (BatchOf(s, consumer) == [] ==>
                  && BatchOf(t, consumer) == GetSignals(s.raw, consumer, now).batch
                  && t.raw == GetSignals(s.raw, consumer, now).stream)
    ensures var t := Step(s, ReadLost(consumer, now, true));
            t == s.(raw := t.raw) && t.raw == Claim(s.raw, IdleIds(s.raw, now), consumer, now)
    ensures var t := Step(s, ReadLost(consumer, now, false));
            t == s.(raw := t.raw) && t.raw == GetSignals(s.raw, consumer, now).stream
  {
  }

  // ----- charts -----

  /** The chart of a symbol that the cache holds for the attempt, if any. */
  predicate Remembers(cache: Cache, dto: Signal, a: Attempt, chart: int) {
    a.readable && dto.symbol in cache && cache[dto.symbol].chart == chart && a.readAt < cache[dto.symbol].expires
  }

  /** No chart can be had: it is not asked for, the signal is over 20 seconds old, or the limiter refuses. */
  predicate GoesWithout(dto: Signal, a: Attempt) {
    !dto.renderRequested || a.now - dto.timestamp > 20 || !a.granted
  }

  /** A chart takes two candles of six numbers. */
  ghost predicate TwoCandles(ohlc: seq<seq<int>>) {
    exists i, j :: 0 <= i < j < |ohlc| && |ohlc[i]| == 6 && |ohlc[j]| == 6
  }

  lemma {:induction false} CandlesAreComplete(ohlc: seq<seq<int>>)
    ensures Candles(ohlc) >= 1 <==> exists i :: 0 <= i < |ohlc| && |ohlc[i]| == 6
    ensures Candles(ohlc) >= 2 <==> TwoCandles(ohlc)
  {
    if ohlc != [] {
      var before, last := ohlc[..|ohlc| - 1], ohlc[|ohlc| - 1];
      CandlesAreComplete(before);
      if i :| 0 <= i < |before| && |before[i]| == 6 { assert |ohlc[i]| == 6; }
      if i, j :| 0 <= i < j < |before| && |before[i]| == 6 && |before[j]| == 6 {
        assert |ohlc[i]| == 6 && |ohlc[j]| == 6;
      }
      if i, j :| 0 <= i < j < |ohlc| && |ohlc[i]| == 6 && |ohlc[j]| == 6 { assert |before[i]| == 6; }
    }
  }

  /** Nothing could be drawn or sent: too few candles, or no message id came of it. */
  ghost predicate CannotDraw(dto: Signal, a: Attempt) {
    !TwoCandles(dto.ohlc) || a.harvested.None?
  }

  /**
   * What one processing step publishes: the signal without its candles, and with the chart remembered for the
   * symbol, or else the one drawn in this step; with none exactly if it must do without, or if none is
   * remembered and none could be drawn.
   */
  lemma PublishedChart(s: State, consumer: nat, a: Attempt, publish: Publish, ackArrives: bool)
    requires BatchOf(s, consumer) != [] && publish != NotStored
    ensures var dto, t := BatchOf(s, consumer)[0].dto, Step(s, ProcessNext(consumer, a, publish, ackArrives));
            && |t.ready| == |s.ready| + 1
            && var r := t.ready[|s.ready|];
               && r.ohlc == [] && SameSignal(dto, r)
               && (r.chart.None? <==> GoesWithout(dto, a)
                                      || (CannotDraw(dto, a) && forall c :: !Remembers(s.cache, dto, a, c)))
               && forall c :: r.chart == Some(c) ==>
                    Remembers(s.cache, dto, a, c)
                    || (a.harvested == Some(c) && forall d :: !Remembers(s.cache, dto, a, d))
  {
    var dto := BatchOf(s, consumer)[0].dto;
    CandlesAreComplete(dto.ohlc);
    if CachedChart(s.cache, dto, a).Some? {
      assert Remembers(s.cache, dto, a, s.cache[dto.symbol].chart);
    }
  }

  /** A chart is drawn exactly if the signal may have one, none is remembered, and drawing works. */
  ghost predicate DrawsOne(cache: Cache, dto: Signal, a: Attempt) {
    !GoesWithout(dto, a) && !CannotDraw(dto, a) && forall c :: !Remembers(cache, dto, a, c)
  }

  lemma DrawsExactly(cache: Cache, dto: Signal, a: Attempt)
    ensures Draws(cache, dto, a) <==> DrawsOne(cache, dto, a)
    ensures Draws(cache, dto, a) ==> Drawn(dto, a) == a.harvested
  {
    CandlesAreComplete(dto.ohlc);
    if CachedChart(cache, dto, a).Some? { assert Remembers(cache, dto, a, cache[dto.symbol].chart); }
  }

  /**
   * What else one step does: a chart that is drawn is remembered for three minutes, if that succeeds; and the signal is
   * acknowledged exactly if its copy was stored and the acknowledgement arrives.
   */
  lemma ProcessedExactly(s: State, consumer: nat, a: Attempt, publish: Publish, ackArrives: bool)
    requires BatchOf(s, consumer) != []
    ensures var m, t := BatchOf(s, consumer)[0], Step(s, ProcessNext(consumer, a, publish, ackArrives));
            && t.harvests == s.harvests + (if DrawsOne(s.cache, m.dto, a)
                 then [Harvest(m.dto.symbol, a.harvested.value, a.storedAt)] else [])
            && t.cache == (if DrawsOne(s.cache, m.dto, a) && a.stored
                 then s.cache[m.dto.symbol := Cached(a.harvested.value, a.storedAt + 180)] else s.cache)
            && (forall i :: i in t.raw.acked <==>
                  i in s.raw.acked || (i == m.id && i in s.raw.pending && publish == Stored && ackArrives))
            && BatchOf(t, consumer) == BatchOf(s, consumer)[1..]
  {
    DrawsExactly(s.cache, BatchOf(s, consumer)[0].dto, a);
  }

  /**
   * The chart was sent to the channel for a signal of that symbol, in this attempt or less than three minutes
   * earlier.
   */
  ghost predicate FromChannel(harvests: seq<Harvest>, symbol: string, chart: int, a: Attempt) {
    exists h <- harvests :: h.symbol == symbol && h.chart == chart
      && (a.harvested == Some(chart) || a.readAt < h.at + 180)
  }

  /** A ready entry, and the raw signal and the attempt it was made from. */
  ghost predicate IsMade(entries: seq<Signal>, harvests: seq<Harvest>, r: Signal, m: Making) {
    && m.id < |entries| && SameSignal(entries[m.id], r) && r.ohlc == []
    && (r.chart.Some? ==> !GoesWithout(entries[m.id], m.attempt)
                          && FromChannel(harvests, entries[m.id].symbol, r.chart.value, m.attempt))
    && (r.chart.None? ==> GoesWithout(entries[m.id], m.attempt) || CannotDraw(entries[m.id], m.attempt))
  }

  ghost predicate CacheIsFromChannel(cache: Cache, harvests: seq<Harvest>) {
    forall symbol <- cache ::
      exists h <- harvests :: h.symbol == symbol && cache[symbol] == Cached(h.chart, h.at + 180)
  }

  ghost predicate ChartsOk(s: State) {
    && |s.makings| == |s.ready|
    && CacheIsFromChannel(s.cache, s.harvests)
    && forall k: nat | k < |s.ready| :: IsMade(s.raw.entries, s.harvests, s.ready[k], s.makings[k])
  }

  lemma MadeStaysMade(entries: seq<Signal>, harvests: seq<Harvest>, r: Signal, m: Making, entries': seq<Signal>,
      harvests': seq<Harvest>)
    requires IsMade(entries, harvests, r, m) && entries <= entries' && harvests <= harvests'
    ensures IsMade(entries', harvests', r, m)
  {
    if r.chart.Some? {
      var h :| h in harvests && h.symbol == entries[m.id].symbol && h.chart == r.chart.value
        && (m.attempt.harvested == Some(h.chart) || m.attempt.readAt < h.at + 180);
      assert h in harvests';
    }
  }

  lemma CacheStaysFromChannel(s: State, consumer: nat, a: Attempt, publish: Publish, ackArrives: bool)
    requires BatchOf(s, consumer) != [] && CacheIsFromChannel(s.cache, s.harvests)
    ensures var t := Process(s, consumer, a, publish, ackArrives);
            s.harvests <= t.harvests && CacheIsFromChannel(t.cache, t.harvests)
  {
    var t, dto := Process(s, consumer, a, publish, ackArrives), BatchOf(s, consumer)[0].dto;
    forall symbol <- t.cache ensures exists h <- t.harvests ::
        h.symbol == symbol && t.cache[symbol] == Cached(h.chart, h.at + 180) {
      if symbol == dto.symbol && Draws(s.cache, dto, a) && a.stored {
        assert t.harvests[|s.harvests|] == Harvest(symbol, Drawn(dto, a).value, a.storedAt);
      } else {
        var h :| h in s.harvests && h.symbol == symbol && s.cache[symbol] == Cached(h.chart, h.at + 180);
        assert h in t.harvests;
      }
    }
  }

  lemma NewCopyIsMade(s: State, consumer: nat, a: Attempt, publish: Publish, ackArrives: bool)
    requires Inv(s) && ChartsOk(s) && BatchOf(s, consumer) != [] && publish != NotStored
    ensures var t := Process(s, consumer, a, publish, ackArrives);
            && |t.ready| == |s.ready| + 1
            && IsMade(t.raw.entries, t.harvests, t.ready[|s.ready|], Making(BatchOf(s, consumer)[0].id, a))
  {
    var t, m := Process(s, consumer, a, publish, ackArrives), BatchOf(s, consumer)[0];
    assert m in s.batches[consumer] && Delivered(s.raw, m);
    PublishedChart(s, consumer, a, publish, ackArrives);
    var r := t.ready[|s.ready|];
    if r.chart.Some? {
      var c := r.chart.value;
      if Remembers(s.cache, m.dto, a, c) {
        var h :| h in s.harvests && h.symbol == m.dto.symbol && s.cache[m.dto.symbol] == Cached(h.chart, h.at + 180);
        assert h in t.harvests;
      } else {
        assert t.harvests[|s.harvests|] == Harvest(m.dto.symbol, c, a.storedAt);
      }
    }
  }

  lemma ProcessKeepsCharts(s: State, consumer: nat, a: Attempt, publish: Publish, ackArrives: bool)
    requires Inv(s) && ChartsOk(s) && BatchOf(s, consumer) != []
    ensures ChartsOk(Process(s, consumer, a, publish, ackArrives))
  {
    var t := Process(s, consumer, a, publish, ackArrives);
    CacheStaysFromChannel(s, consumer, a, publish, ackArrives);
    if publish != NotStored { NewCopyIsMade(s, consumer, a, publish, ackArrives); }
    forall k: nat | k < |t.ready| ensures IsMade(t.raw.entries, t.harvests, t.ready[k], t.makings[k]) {
      if k < |s.ready| {
        MadeStaysMade(s.raw.entries, s.harvests, s.ready[k], s.makings[k], t.raw.entries, t.harvests);
      }
    }
  }

  lemma QuietKeepsCharts(s: State, a: Action)
    requires Inv(s) && ChartsOk(s) && !a.ProcessNext?
    ensures ChartsOk(Step(s, a))
  {
    var t := Step(s, a);
    if a.ReadBatch? || a.ReadLost? { GetSignalsKeepsAccount(s.raw, a.consumer, a.now); }
    forall k: nat | k < |t.ready| ensures IsMade(t.raw.entries, t.harvests, t.ready[k], t.makings[k]) {
      MadeStaysMade(s.raw.entries, s.harvests, s.ready[k], s.makings[k], t.raw.entries, t.harvests);
    }
  }

  lemma {:induction false} RunKeepsCharts(actions: seq<Action>)
    ensures Inv(Run(EMPTY, actions)) && ChartsOk(Run(EMPTY, actions))
  {
    RunKeepsInv(EMPTY, actions);
    if actions != [] {
      var before, a := Run(EMPTY, actions[..|actions| - 1]), actions[|actions| - 1];
      RunKeepsCharts(actions[..|actions| - 1]);
      if a.ProcessNext? {
        if BatchOf(before, a.consumer) != [] {
          ProcessKeepsCharts(before, a.consumer, a.attempt, a.publish, a.ackArrives);
        }
      } else {
        QuietKeepsCharts(before, a);
      }
    }
  }

  /**
   * In every run each ready entry is a raw signal without its candles. If it has a chart, that one was sent to
   * the channel for a signal of the same symbol, in the attempt itself or less than three minutes before the
   * cache was read, and the signal asked for one, was fresh, and passed the limiter. If it has none, it had to
   * do without, or no chart could be drawn for it.
   */
  lemma ChartsAreOfTheirSymbol(actions: seq<Action>, k: nat)
    ensures var s := Run(EMPTY, actions);
            k < |s.ready| ==> exists m: Making :: IsMade(s.raw.entries, s.harvests, s.ready[k], m)
  {
    RunKeepsCharts(actions);
    var s := Run(EMPTY, actions);
    if k < |s.ready| { assert IsMade(s.raw.entries, s.harvests, s.ready[k], s.makings[k]); }
  }
}
