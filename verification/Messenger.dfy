/**
 * The messenger between the ready stream and the targets: every target whose triggers hold is checked against the alert
 * history, which is written before the alert goes out; then the alerts are sent, and then the signal is acknowledged.
 * Any step may be the last one before a crash, and unacknowledged signals come again.
 */
module Messenger {
  import opened Rows
  import opened AntiSpam
  import Pipeline

  /**
   * A target looked at for signal `id`, in the given pass over a signal. `open` says whether the target may be sent to
   * at all: a subscriber, or a member of the channels.
   */
  datatype Visit = Visit(id: nat, pass: nat, check: Check, open: bool, alerted: bool)

  /**
   * The queue holds the alerts of the current pass that are still to be sent, by position in the log. The log, the
   * positions sent, and the signals of the finished passes are history.
   */
  datatype State = State(
    stream: Pipeline.Stream,
    batch: seq<Pipeline.Message>,
    queue: seq<nat>,
    sending: bool,
    history: Entries,
    clock: real,
    log: seq<Visit>,
    sent: set<nat>,
    pass: nat,
    finished: map<nat, nat>)

  datatype Action =
    | Publish(dto: Pipeline.Signal)
    | Trim(count: nat)
    | Read(consumer: nat, now: int)
    | ReadLost(consumer: nat, now: int, claimOnly: bool)
    | VisitTarget(check: Check, open: bool)
    | Send(k: nat)
    | Finish(ackArrives: bool)
    | Fail
    | Restart

  const EMPTY := State(Pipeline.Stream([], 0, 0, map[], {}), [], [], false, map[], 0.0, [], {}, 0, map[])

  /** The check concerns this signal and is later than everything before. */
  predicate IsCheckOf(s: State, check: Check, dto: Pipeline.Signal) {
    && check.key.symbol == dto.symbol && check.key.side == dto.side && check.sum == dto.sum
    && s.clock <= check.at <= check.readAt <= check.setAt
  }

  function VisitStep(s: State, check: Check, open: bool): State {
    if s.batch == [] || s.sending || !IsCheckOf(s, check, s.batch[0].dto) then s
    else
      var alerted := Alerts(s.history, check);
      s.(history := After(s.history, check), clock := check.setAt,
         log := s.log + [Visit(s.batch[0].id, s.pass, check, open, alerted)],
         queue := if alerted && open then s.queue + [|s.log|] else s.queue)
  }

  /** Alerts are sent in batches, in any order within a batch. */
  function SendStep(s: State, k: nat): State {
    if k >= |s.queue| then s
    else s.(sending := true, sent := s.sent + {s.queue[k]}, queue := s.queue[..k] + s.queue[k + 1..])
  }

  /** Once nothing is left to send the signal is acknowledged. */
  function FinishStep(s: State, ackArrives: bool): State {
    if s.batch == [] || s.queue != [] then s
    else
      s.(stream := if ackArrives then Pipeline.Ack(s.stream, s.batch[0].id) else s.stream,
         finished := s.finished[s.pass := s.batch[0].id],
         batch := s.batch[1..], sending := false, pass := s.pass + 1)
  }

  /** A failure gives up the current signal, a crash the whole batch. */
  function Abandon(s: State, rest: seq<Pipeline.Message>): State {
    s.(batch := rest, queue := [], sending := false, pass := s.pass + 1)
  }

  function ReadLostStep(s: State, consumer: nat, now: int, claimOnly: bool): State {
    s.(stream := if claimOnly then Pipeline.Claim(s.stream, Pipeline.IdleIds(s.stream, now), consumer, now)
        else Pipeline.GetSignals(s.stream, consumer, now).stream)
  }

  function Step(s: State, a: Action): State {
    match a
    case Publish(dto) => s.(stream := s.stream.(entries := s.stream.entries + [dto]))
    case Trim(count) =>
      if s.stream.trimmed <= count <= |s.stream.entries| then s.(stream := s.stream.(trimmed := count)) else s
    case Read(consumer, now) =>
      if s.batch != [] then s
      else
        var r := Pipeline.GetSignals(s.stream, consumer, now);
        s.(stream := r.stream, batch := r.batch)
    case ReadLost(consumer, now, claimOnly) => ReadLostStep(s, consumer, now, claimOnly)
    case VisitTarget(check, open) => VisitStep(s, check, open)
    case Send(k) => SendStep(s, k)
    case Finish(ackArrives) => FinishStep(s, ackArrives)
    case Fail => if s.batch == [] then s else Abandon(s, s.batch[1..])
    case Restart => Abandon(s, [])
  }

  function Run(s: State, actions: seq<Action>): State {
    if actions == [] then s else Step(Run(s, actions[..|actions| - 1]), actions[|actions| - 1])
  }

  // ----- the log -----

  function Checks(log: seq<Visit>): seq<Check> {
    if log == [] then [] else Checks(log[..|log| - 1]) + [log[|log| - 1].check]
  }

  /** The alerts of a key, in order. */
  function AlertsIn(log: seq<Visit>, key: Key): seq<Check> {
    if log == [] then []
    else
      var v := log[|log| - 1];
      AlertsIn(log[..|log| - 1], key) + if v.alerted && v.check.key == key then [v.check] else []
  }

  /** The alert of `a` is what kept `b` from alerting. */
  predicate Suppresses(a: Visit, b: Visit) {
    && a.alerted && a.check.key == b.check.key && Remembered(a.check, b.check)
    && (b.check.at < a.check.at + COOLDOWN || b.check.sum < a.check.sum * GROWTH)
  }

  ghost predicate Suppressed(log: seq<Visit>, k: nat)
    requires k < |log|
  {
    exists j :: 0 <= j < k && Suppresses(log[j], log[k])
  }

  // ----- what every run keeps -----

  ghost predicate VisitFits(stream: Pipeline.Stream, v: Visit) {
    && v.id < |stream.entries| && v.check.key.symbol == stream.entries[v.id].symbol
    && v.check.key.side == stream.entries[v.id].side && v.check.sum == stream.entries[v.id].sum
  }

  ghost predicate Written(log: seq<Visit>, key: Key, e: Entry) {
    exists j :: 0 <= j < |log| && log[j].alerted && log[j].check.stored && log[j].check.key == key
                && e == EntryOf(log[j].check)
  }

  /** The history is what the log has written, and the log tells why a visit did not alert. */
  ghost predicate LogFits(s: State) {
    && s.history == HistoryAfter(map[], Checks(s.log))
    && Sequential(Checks(s.log), 0.0) && 0.0 <= s.clock && (s.log != [] ==> s.log[|s.log| - 1].check.setAt <= s.clock)
    && (forall key :: AlertsIn(s.log, key) == AlertsOf(map[], Checks(s.log), key))
    && (forall key <- s.history :: Written(s.log, key, s.history[key]))
    && (forall k: nat | k < |s.log| :: s.log[k].alerted || Suppressed(s.log, k))
  }

  predicate Wants(v: Visit) { v.alerted && v.open }

  /** The visits of the current pass are about the current signal, and their alerts are queued or sent. */
  ghost predicate PassFits(s: State) {
    && (forall k <- s.queue :: k < |s.log| && Wants(s.log[k]) && s.log[k].pass == s.pass && k !in s.sent)
    && (forall i, j | 0 <= i < j < |s.queue| :: s.queue[i] != s.queue[j])
    && (forall k <- s.sent :: k < |s.log| && Wants(s.log[k]))
    && forall k: nat | k < |s.log| ::
         && s.log[k].pass <= s.pass
         && (s.log[k].pass == s.pass ==>
               && s.batch != [] && s.log[k].id == s.batch[0].id
               && (Wants(s.log[k]) ==> k in s.queue || k in s.sent))
  }

  /** The alerts of a finished pass have been sent. */
  ghost predicate FinishedFits(s: State) {
    && (forall n <- s.finished :: n < s.pass)
    && forall k: nat | k < |s.log| && s.log[k].pass in s.finished ::
         s.log[k].id == s.finished[s.log[k].pass] && (Wants(s.log[k]) ==> k in s.sent)
  }

  ghost predicate Inv(s: State) {
    && Pipeline.Accounted(s.stream)
    && (forall m <- s.batch :: Pipeline.Delivered(s.stream, m))
    && (forall v <- s.log :: VisitFits(s.stream, v))
    && LogFits(s) && PassFits(s) && FinishedFits(s)
    && (forall i <- s.stream.acked :: i in s.finished.Values)
  }

  /** Steps that only move the stream on. */
  lemma StreamStepKeepsInv(s: State, t: State)
    requires Inv(s) && t == s.(stream := t.stream, batch := t.batch)
    requires Pipeline.Accounted(t.stream) && s.stream.entries <= t.stream.entries && t.stream.acked == s.stream.acked
    requires (t.batch == s.batch && s.stream.delivered <= t.stream.delivered)
             || (s.batch == [] && forall m <- t.batch :: Pipeline.Delivered(t.stream, m))
    ensures Inv(t)
  {
    forall m <- t.batch ensures Pipeline.Delivered(t.stream, m) {
      if m in s.batch { assert Pipeline.Delivered(s.stream, m); }
    }
    forall v <- t.log ensures VisitFits(t.stream, v) { assert VisitFits(s.stream, v); }
  }

  lemma ReadKeepsInv(s: State, consumer: nat, now: int, claimOnly: bool)
    requires Inv(s)
    ensures Inv(Step(s, Read(consumer, now))) && Inv(Step(s, ReadLost(consumer, now, claimOnly)))
  {
    Pipeline.GetSignalsKeepsAccount(s.stream, consumer, now);
    StreamStepKeepsInv(s, Step(s, Read(consumer, now)));
    StreamStepKeepsInv(s, Step(s, ReadLost(consumer, now, claimOnly)));
  }

  lemma VisitIsLogged(s: State, check: Check, open: bool)
    requires LogFits(s) && s.batch != [] && !s.sending && IsCheckOf(s, check, s.batch[0].dto)
    ensures LogFits(VisitStep(s, check, open))
  {
    var t := VisitStep(s, check, open);
    var v := t.log[|s.log|];
    assert t.log[..|t.log| - 1] == s.log;
    Appended(map[], Checks(s.log), check);
    LastCheck(s.log);
    SequentialGrows(Checks(s.log), check, 0.0);
    forall key ensures AlertsIn(t.log, key) == AlertsOf(map[], Checks(t.log), key) {
      AppendedAlerts(map[], Checks(s.log), check, key);
    }
    forall key <- t.history ensures Written(t.log, key, t.history[key]) {
      if v.alerted && check.stored && key == check.key {
        assert t.log[|s.log|] == v;
      } else {
        assert Written(s.log, key, s.history[key]);
        var j :| 0 <= j < |s.log| && s.log[j].alerted && s.log[j].check.stored && s.log[j].check.key == key
                 && s.history[key] == EntryOf(s.log[j].check);
        assert t.log[j] == s.log[j];
      }
    }
    SuppressionIsLogged(s, v);
    forall k: nat | k < |t.log| ensures t.log[k].alerted || Suppressed(t.log, k) {
      if k < |s.log| {
        assert t.log[k] == s.log[k];
        if !s.log[k].alerted {
          assert Suppressed(s.log, k);
          var j :| 0 <= j < k && Suppresses(s.log[j], s.log[k]);
          assert t.log[j] == s.log[j];
        }
      }
    }
  }

  lemma SuppressionIsLogged(s: State, v: Visit)
    requires LogFits(s) && v.alerted == Alerts(s.history, v.check)
    ensures v.alerted || Suppressed(s.log + [v], |s.log|)
  {
    if !v.alerted {
      var key, log := v.check.key, s.log + [v];
      assert Written(s.log, key, s.history[key]);
      var j :| 0 <= j < |s.log| && s.log[j].alerted && s.log[j].check.stored && s.log[j].check.key == key
               && s.history[key] == EntryOf(s.log[j].check);
      assert log[j] == s.log[j] && Suppresses(log[j], log[|s.log|]);
    }
  }

  lemma LastCheck(log: seq<Visit>)
    ensures |Checks(log)| == |log|
    ensures log != [] ==> Checks(log)[|log| - 1] == log[|log| - 1].check
  {
  }

  lemma VisitKeepsInv(s: State, check: Check, open: bool)
    requires Inv(s)
    ensures Inv(VisitStep(s, check, open))
  {
    var t := VisitStep(s, check, open);
    if t != s {
      VisitIsLogged(s, check, open);
      assert Pipeline.Delivered(s.stream, s.batch[0]);
      forall k: nat | k < |t.log| ensures k < |s.log| ==> t.log[k] == s.log[k] {}
    }
  }

  lemma SendKeepsInv(s: State, k: nat)
    requires Inv(s)
    ensures Inv(SendStep(s, k))
  {
    if k < |s.queue| {
      assert s.queue == s.queue[..k] + [s.queue[k]] + s.queue[k + 1..];
    }
  }

  lemma FinishKeepsInv(s: State, ackArrives: bool)
    requires Inv(s)
    ensures Inv(FinishStep(s, ackArrives))
  {
    if s.batch != [] && s.queue == [] {
      var t := FinishStep(s, ackArrives);
      assert Pipeline.Delivered(s.stream, s.batch[0]);
      forall m <- t.batch ensures Pipeline.Delivered(t.stream, m) { assert m in s.batch; }
      assert t.finished[s.pass] == s.batch[0].id;
      forall i <- t.stream.acked ensures i in t.finished.Values {
        if i in s.stream.acked {
          var n :| n in s.finished && s.finished[n] == i;
          assert t.finished[n] == i;
        }
      }
    }
  }

  lemma AbandonKeepsInv(s: State, rest: seq<Pipeline.Message>)
    requires Inv(s) && forall m <- rest :: m in s.batch
    ensures Inv(Abandon(s, rest))
  {
  }

  lemma StepKeepsInv(s: State, a: Action)
    requires Inv(s)
    ensures Inv(Step(s, a))
  {
    match a {
      case Publish(_) => StreamStepKeepsInv(s, Step(s, a));
      case Trim(_) => StreamStepKeepsInv(s, Step(s, a));
      case Read(consumer, now) => ReadKeepsInv(s, consumer, now, true);
      case ReadLost(consumer, now, claimOnly) => ReadKeepsInv(s, consumer, now, claimOnly);
      case VisitTarget(check, open) => VisitKeepsInv(s, check, open);
      case Send(k) => SendKeepsInv(s, k);
      case Finish(ackArrives) => FinishKeepsInv(s, ackArrives);
      case Fail => if s.batch != [] { AbandonKeepsInv(s, s.batch[1..]); }
      case Restart => AbandonKeepsInv(s, []);
    }
  }

  lemma {:induction false} RunKeepsInv(s: State, actions: seq<Action>)
    requires Inv(s)
    ensures Inv(Run(s, actions))
  {
    if actions != [] {
      RunKeepsInv(s, actions[..|actions| - 1]);
      StepKeepsInv(Run(s, actions[..|actions| - 1]), actions[|actions| - 1]);
    }
  }

  lemma ReachableInv(actions: seq<Action>)
    ensures Inv(Run(EMPTY, actions))
  {
    RunKeepsInv(EMPTY, actions);
  }

  /** No alert is sent twice: what is sent leaves the queue, and was not sent before. */
  lemma SentOnce(actions: seq<Action>, k: nat)
    ensures var s := Run(EMPTY, actions);
            var t := Step(s, Send(k));
            k < |s.queue| ==>
              && s.queue[k] !in s.sent && t.sent == s.sent + {s.queue[k]}
              && s.queue[k] !in t.queue && (forall i <- s.queue :: i in t.queue || i == s.queue[k])
  {
    ReachableInv(actions);
    var s := Run(EMPTY, actions);
    if k < |s.queue| {
      var left := s.queue[..k] + s.queue[k + 1..];
      forall i | 0 <= i < |left| ensures left[i] != s.queue[k] {
        assert left[i] == s.queue[if i < k then i else i + 1];
      }
      assert s.queue == s.queue[..k] + [s.queue[k]] + s.queue[k + 1..];
    }
  }

  /**
   * The first alert sent ends the checking of targets; only the end of the pass begins it again, with the next
   * signal.
   */
  lemma PassesFollow(s: State, check: Check, open: bool, k: nat, ackArrives: bool)
    ensures k < |s.queue| ==> Step(s, Send(k)).sending && Step(s, Send(k)).batch == s.batch
    ensures s.sending ==> Step(s, VisitTarget(check, open)) == s
    ensures var t := Step(s, Finish(ackArrives));
            if s.batch == [] || s.queue != [] then t == s
            else
              && t.batch == s.batch[1..] && t.queue == [] && !t.sending && t.pass > s.pass
              && (forall i :: i in t.stream.acked <==>
                    i in s.stream.acked || (ackArrives && i == s.batch[0].id && i in s.stream.pending))
    ensures var t := Step(s, Fail); s.batch != [] ==> t.batch == s.batch[1..] && t.queue == [] && !t.sending
    ensures var t := Step(s, Restart); t.batch == [] && t.queue == [] && !t.sending && t.stream == s.stream
    ensures Step(s, Restart).sent == s.sent && Step(s, Restart).history == s.history
  {
  }

  /** What the stream does meanwhile is what the pipeline's stream does. */
  lemma StreamSteps(s: State, dto: Pipeline.Signal, count: nat, consumer: nat, now: int)
    ensures Step(s, Publish(dto)).stream == s.stream.(entries := s.stream.entries + [dto])
    ensures var t := Step(s, Trim(count)).stream;
            t == s.stream.(trimmed := if s.stream.trimmed <= count <= |s.stream.entries|
              then count else s.stream.trimmed)
    ensures var t := Step(s, Read(consumer, now));
            && (s.batch != [] ==> t == s)
            && (s.batch == [] ==>
                  && t.batch == Pipeline.GetSignals(s.stream, consumer, now).batch
                  && t.stream == Pipeline.GetSignals(s.stream, consumer, now).stream)
    ensures Step(s, ReadLost(consumer, now, false)).stream == Pipeline.GetSignals(s.stream, consumer, now).stream
    ensures Step(s, ReadLost(consumer, now, true)).stream
            == Pipeline.Claim(s.stream, Pipeline.IdleIds(s.stream, now), consumer, now)
  {
  }

  // ----- when an acknowledged signal has alerted -----

  /**
   * What became of a visit: its alert was sent, or the target may not be sent to, or an earlier alert suppressed
   * it.
   */
  ghost predicate Answered(s: State, k: nat)
    requires k < |s.log|
  {
    k in s.sent || (s.log[k].alerted && !s.log[k].open) || Suppressed(s.log, k)
  }

  ghost predicate FinishedPass(s: State, n: nat, i: nat) {
    n in s.finished && s.finished[n] == i
    && forall k: nat | k < |s.log| && s.log[k].pass == n :: s.log[k].id == i && Answered(s, k)
  }

  /**
   * In every run an acknowledged signal has had a finished pass: every target it was due to was sent the alert,
   * unless it may not be sent to, or an earlier alert still in the history came too shortly before or was too large.
   */
  lemma AcknowledgedIsAnswered(actions: seq<Action>, i: nat)
    ensures var s := Run(EMPTY, actions);
            i in s.stream.acked ==> exists n :: FinishedPass(s, n, i)
  {
    ReachableInv(actions);
    var s := Run(EMPTY, actions);
    if i in s.stream.acked {
      var n :| n in s.finished && s.finished[n] == i;
      assert FinishedPass(s, n, i);
    }
  }

  // ----- copies of a signal -----

  /** Every alert is written, and the next one of its key reads it within the hour. */
  ghost predicate EachRemembered(alerts: seq<Check>) {
    forall i, j | 0 <= i < j < |alerts| && j == i + 1 :: Remembered(alerts[i], alerts[j])
  }

  predicate AlertsFor(v: Visit, key: Key) { v.alerted && v.check.key == key }

  lemma {:induction false} AlertPosition(log: seq<Visit>, key: Key, k: nat)
    requires k < |log| && AlertsFor(log[k], key)
    ensures |AlertsIn(log[..k], key)| < |AlertsIn(log, key)|
    ensures AlertsIn(log, key)[|AlertsIn(log[..k], key)|] == log[k].check
    decreases |log|
  {
    var before := log[..|log| - 1];
    if k < |before| {
      AlertPosition(before, key, k);
      assert before[..k] == log[..k];
    }
  }

  lemma LaterAlertIsLarger(s: State, key: Key, k: nat, l: nat)
    requires LogFits(s) && EachRemembered(AlertsIn(s.log, key))
    requires k < l < |s.log| && AlertsFor(s.log[k], key) && AlertsFor(s.log[l], key) && s.log[k].check.sum > 0.0
    ensures s.log[k].check.sum < s.log[l].check.sum
  {
    var alerts := AlertsIn(s.log, key);
    assert s.log[..l][..k] == s.log[..k];
    AlertPosition(s.log, key, k);
    AlertPosition(s.log, key, l);
    AlertPosition(s.log[..l], key, k);
    var i, j := |AlertsIn(s.log[..k], key)|, |AlertsIn(s.log[..l], key)|;
    assert Close(alerts, i, j - i);
    CopiesAlertOnce(Checks(s.log), key, 0.0, i, j - i);
  }

  /** Of the copies of a signal with positive volume at most one alerts, if the alerts of the key are remembered. */
  lemma CopiesAlertOnceInARun(actions: seq<Action>, key: Key, k: nat, l: nat)
    requires k < |Run(EMPTY, actions).log| && l < |Run(EMPTY, actions).log|
    requires EachRemembered(AlertsIn(Run(EMPTY, actions).log, key))
    ensures var v, w := Run(EMPTY, actions).log[k], Run(EMPTY, actions).log[l];
            AlertsFor(v, key) && AlertsFor(w, key) && v.id == w.id && v.check.sum > 0.0 ==> k == l
  {
    ReachableInv(actions);
    var s := Run(EMPTY, actions);
    var v, w := s.log[k], s.log[l];
    assert VisitFits(s.stream, v) && VisitFits(s.stream, w);
    if AlertsFor(v, key) && AlertsFor(w, key) && v.id == w.id && v.check.sum > 0.0 {
      if k < l { LaterAlertIsLarger(s, key, k, l); }
      if l < k { LaterAlertIsLarger(s, key, l, k); }
    }
  }

  lemma {:induction false} AlertComesFrom(log: seq<Visit>, key: Key, i: nat) returns (k: nat)
    requires i < |AlertsIn(log, key)|
    ensures k < |log| && AlertsFor(log[k], key) && log[k].check == AlertsIn(log, key)[i]
    decreases |log|
  {
    var before := log[..|log| - 1];
    if i < |AlertsIn(before, key)| {
      k := AlertComesFrom(before, key, i);
    } else {
      k := |log| - 1;
    }
  }

  lemma {:induction false} WritesAreOrdered(log: seq<Visit>, i: nat, j: nat)
    requires Sequential(Checks(log), 0.0) && i <= j < |log|
    ensures log[i].check.setAt <= log[j].check.setAt
  {
    CheckAt(log, i);
    CheckAt(log, j);
    SequentialIsOrdered(Checks(log), 0.0, i, j);
  }

  lemma {:induction false} CheckAt(log: seq<Visit>, i: nat)
    requires i < |log|
    ensures |Checks(log)| == |log| && Checks(log)[i] == log[i].check
    decreases |log|
  {
    LastCheck(log);
    LastCheck(log[..|log| - 1]);
    if i < |log| - 1 { CheckAt(log[..|log| - 1], i); }
  }

  /**
   * Visit `f` is the first one of its key; the signal is the only one for it, and every visit comes within the
   * hour.
   */
  ghost predicate OnlyCopies(s: State, f: nat) {
    && f < |s.log| && s.log[f].check.sum > 0.0
    && forall k: nat | k < |s.log| && s.log[k].check.key == s.log[f].check.key ::
         && f <= k && s.log[k].id == s.log[f].id && s.log[k].check.stored && s.log[k].check.readable
         && s.log[k].check.readAt < s.log[f].check.setAt + KEEP
  }

  lemma OnlyCopiesAreRemembered(s: State, f: nat)
    requires Inv(s) && OnlyCopies(s, f)
    ensures EachRemembered(AlertsIn(s.log, s.log[f].check.key))
  {
    var key := s.log[f].check.key;
    var alerts := AlertsIn(s.log, key);
    forall i, j | 0 <= i < j < |alerts| && j == i + 1 ensures Remembered(alerts[i], alerts[j]) {
      var k := AlertComesFrom(s.log, key, i);
      var l := AlertComesFrom(s.log, key, j);
      WritesAreOrdered(s.log, f, k);
    }
  }

  /**
   * A signal may come any number of times: the first visit alerts and no other does. So the target is sent the alert
   * once or never, and never exactly if the pass of the first visit did not get to send it, whatever happens later.
   */
  lemma LostExactlyIfInterrupted(actions: seq<Action>, f: nat)
    requires OnlyCopies(Run(EMPTY, actions), f)
    ensures var s := Run(EMPTY, actions);
            && (forall k: nat | k < |s.log| && s.log[k].check.key == s.log[f].check.key :: s.log[k].alerted <==> k == f)
            && ((exists k <- s.sent :: k < |s.log| && s.log[k].check.key == s.log[f].check.key) <==> f in s.sent)
            && (s.log[f].pass in s.finished ==> (f in s.sent <==> s.log[f].open))
  {
    ReachableInv(actions);
    var s := Run(EMPTY, actions);
    var key := s.log[f].check.key;
    OnlyCopiesAreRemembered(s, f);
    assert s.log[f].alerted || Suppressed(s.log, f);
    forall k: nat | k < |s.log| && s.log[k].check.key == key ensures s.log[k].alerted <==> k == f {
      CopiesAlertOnceInARun(actions, key, f, k);
    }
  }

  /** An alert that its pass did not send is never sent. */
  lemma {:induction false} GivenUpIsNeverSent(actions: seq<Action>, more: seq<Action>, k: nat)
    requires var s := Run(EMPTY, actions);
             k < |s.log| && s.log[k].pass < s.pass
    ensures var s, t := Run(EMPTY, actions), Run(Run(EMPTY, actions), more);
            && Inv(t) && s.log <= t.log && s.pass <= t.pass
            && (k in t.sent <==> k in s.sent)
  {
    ReachableInv(actions);
    if more != [] {
      var t := Run(Run(EMPTY, actions), more[..|more| - 1]);
      GivenUpIsNeverSent(actions, more[..|more| - 1], k);
      assert t.log[k].pass < t.pass;
      StepSends(t, more[|more| - 1], k);
    }
  }

  lemma StepSends(s: State, a: Action, k: nat)
    requires Inv(s) && k < |s.log| && s.log[k].pass < s.pass
    ensures Inv(Step(s, a)) && s.log <= Step(s, a).log && s.pass <= Step(s, a).pass
    ensures k in Step(s, a).sent <==> k in s.sent
  {
    StepKeepsInv(s, a);
  }

  // ----- a run that loses an alert -----

  const SIGNAL := Pipeline.Signal(1, "BTC", "LONG", 50000.0, true, 0, "", [], None)
  const KEY := Key(7, "BTC", "LONG")
  const CHECK := Check(KEY, 0.0, 0.0, 0.001, 50000.0, true, true)
  const CHECK_AGAIN := Check(KEY, 40.0, 40.0, 40.001, 50000.0, true, true)

  function Streamed(delivered: nat, pending: map<nat, Pipeline.Delivery>, acked: set<nat>): Pipeline.Stream {
    Pipeline.Stream([SIGNAL], 0, delivered, pending, acked)
  }

  lemma FirstRead()
    ensures Pipeline.GetSignals(Streamed(0, map[], {}), 0, 0)
            == Pipeline.Read(Streamed(1, map[0 := Pipeline.Delivery(0, 0)], {}), [Pipeline.Message(0, SIGNAL)])
  {
    var s := Streamed(0, map[], {});
    assert Pipeline.Claim(s, [], 0, 0) == s;
    assert Pipeline.Positions(0, 1) == [0];
    var entry := Pipeline.Entry(0, Some(SIGNAL));
    assert Pipeline.Lookup(s, [0]) == [entry] by { assert [0][1..] == []; }
    assert Pipeline.Parsed([entry]) == [Pipeline.Message(0, SIGNAL)] by { assert [entry][..0] == []; }
  }

  lemma SecondRead()
    ensures Pipeline.GetSignals(Streamed(1, map[0 := Pipeline.Delivery(0, 0)], {}), 0, 40000)
            == Pipeline.Read(Streamed(1, map[0 := Pipeline.Delivery(0, 40000)], {}), [Pipeline.Message(0, SIGNAL)])
  {
    var s := Streamed(1, map[0 := Pipeline.Delivery(0, 0)], {});
    assert Pipeline.IdleIds(s, 40000) == [0];
    var claimed := Pipeline.Claim(s, [0], 0, 40000);
    assert claimed == Streamed(1, map[0 := Pipeline.Delivery(0, 40000)], {});
    var entry := Pipeline.Entry(0, Some(SIGNAL));
    assert Pipeline.Lookup(claimed, [0]) == [entry] by { assert [0][1..] == []; }
    assert Pipeline.Parsed([entry]) == [Pipeline.Message(0, SIGNAL)] by { assert [entry][..0] == []; }
  }

  ghost predicate Reachable(s: State) {
    exists actions :: Run(EMPTY, actions) == s
  }

  lemma ReachesNext(s: State, a: Action)
    requires Reachable(s)
    ensures Reachable(Step(s, a))
  {
    var actions :| Run(EMPTY, actions) == s;
    assert (actions + [a])[..|actions|] == actions;
    assert Run(EMPTY, actions + [a]) == Step(s, a);
  }

  /** The states of the run: the signal is published, read and checked, and then the messenger stops. */
  function Published(): State { EMPTY.(stream := Streamed(0, map[], {})) }
  function AtWork(): State {
    EMPTY.(stream := Streamed(1, map[0 := Pipeline.Delivery(0, 0)], {}), batch := [Pipeline.Message(0, SIGNAL)])
  }
  function Stopped(): State {
    EMPTY.(stream := Streamed(1, map[0 := Pipeline.Delivery(0, 0)], {}), history := map[KEY := EntryOf(CHECK)],
           clock := 0.001, log := [Visit(0, 0, CHECK, true, true)], pass := 1)
  }

  /** The signal is read and checked once more. */
  function Again(): State {
    Stopped().(stream := Streamed(1, map[0 := Pipeline.Delivery(0, 40000)], {}),
               batch := [Pipeline.Message(0, SIGNAL)])
  }
  function Suppressing(): State {
    Again().(clock := 40.001, log := [Visit(0, 0, CHECK, true, true), Visit(0, 1, CHECK_AGAIN, true, false)])
  }

  lemma FirstTime()
    ensures Step(EMPTY, Publish(SIGNAL)) == Published() && Step(Published(), Read(0, 0)) == AtWork()
  {
    FirstRead();
  }

  lemma StoppedAfterTheWrite()
    ensures Step(VisitStep(AtWork(), CHECK, true), Restart) == Stopped()
  {
    var s := VisitStep(AtWork(), CHECK, true);
    assert s.log == [Visit(0, 0, CHECK, true, true)] && s.history == map[KEY := EntryOf(CHECK)];
  }

  lemma ReadAgain()
    ensures Step(Stopped(), Read(0, 40000)) == Again()
  {
    SecondRead();
  }

  lemma SuppressedByItself()
    ensures VisitStep(Again(), CHECK_AGAIN, true) == Suppressing()
  {
    var s := VisitStep(Again(), CHECK_AGAIN, true);
    assert !Alerts(Again().history, CHECK_AGAIN);
    assert s.log == [Visit(0, 0, CHECK, true, true), Visit(0, 1, CHECK_AGAIN, true, false)];
  }

  /** Signal `i` is acknowledged; one of its visits alerted a target that may be sent to, and nothing was sent. */
  ghost predicate IsLost(s: State, i: nat) {
    i in s.stream.acked && s.sent == {} && exists k: nat :: k < |s.log| && s.log[k].id == i && Wants(s.log[k])
  }

  lemma SuppressedIsAcknowledged()
    ensures IsLost(FinishStep(Suppressing(), true), 0)
  {
    var t := FinishStep(Suppressing(), true);
    assert Wants(t.log[0]) && 0 in t.stream.acked;
  }

  lemma AtWorkIsReached()
    ensures Reachable(AtWork())
  {
    assert Run(EMPTY, []) == EMPTY;
    FirstTime();
    ReachesNext(EMPTY, Publish(SIGNAL));
    ReachesNext(Published(), Read(0, 0));
  }

  lemma StoppedIsReached()
    ensures Reachable(Stopped())
  {
    AtWorkIsReached();
    StoppedAfterTheWrite();
    ReachesNext(AtWork(), VisitTarget(CHECK, true));
    ReachesNext(VisitStep(AtWork(), CHECK, true), Restart);
  }

  lemma SuppressingIsReached()
    ensures Reachable(Suppressing())
  {
    StoppedIsReached();
    ReadAgain();
    SuppressedByItself();
    ReachesNext(Stopped(), Read(0, 40000));
    ReachesNext(Again(), VisitTarget(CHECK_AGAIN, true));
  }

  /** The messenger stops after the history write; the same signal comes again and is acknowledged without an alert. */
  lemma AlertIsLost()
    ensures exists s :: Reachable(s) && IsLost(s, 0)
  {
    SuppressingIsReached();
    ReachesNext(Suppressing(), Finish(true));
    SuppressedIsAcknowledged();
  }
}
