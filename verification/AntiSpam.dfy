/**
 * The alert history that keeps the messenger from repeating itself: per target, symbol and side it holds the last
 * alert for an hour, and a new alert needs a cooldown and a grown volume. One messenger handles signals in sequence.
 */
module AntiSpam {
  const COOLDOWN := 180.0
  const GROWTH := 1.5
  const KEEP := 3600.0

  datatype Key = Key(target: int, symbol: string, side: string)

  datatype Alert = Alert(time: real, sum: real)

  datatype Entry = Entry(last: Alert, expires: real)

  type Entries = map<Key, Entry>

  predicate IsSignalSpammy(last: Alert, current: Alert, cooldown: real, growth: real) {
    var cooldownElapsed := current.time - last.time >= cooldown;
    var grewEnough := current.sum >= last.sum * growth;
    !cooldownElapsed || !grewEnough
  }

  /**
   * A signal that passes a target's triggers: stamped `at`, the history read at `readAt` unless that fails, and if it
   * alerts, remembered at `setAt` unless the write fails.
   */
  datatype Check = Check(key: Key, at: real, readAt: real, setAt: real, sum: real, readable: bool, stored: bool)

  /** What the check finds: nothing if the key is missing or has expired, or if it cannot be read. */
  predicate Finds(h: Entries, e: Check) {
    e.readable && e.key in h && e.readAt < h[e.key].expires
  }

  predicate Alerts(h: Entries, e: Check) {
    Finds(h, e) ==> !IsSignalSpammy(h[e.key].last, Alert(e.at, e.sum), COOLDOWN, GROWTH)
  }

  function After(h: Entries, e: Check): Entries {
    if Alerts(h, e) && e.stored then h[e.key := Entry(Alert(e.at, e.sum), e.setAt + KEEP)] else h
  }

  class History {
    var entries: Entries

    constructor ()
      ensures entries == map[]
    {
      entries := map[];
    }

    /** Expired keys are gone; a write replaces the entry and its expiry. */
    method CheckAlert(e: Check) returns (alerts: bool)
      modifies this
      ensures alerts == Alerts(old(entries), e)
      ensures entries == After(old(entries), e)
    {
      if e.readable && e.key in entries && e.readAt < entries[e.key].expires {
        if IsSignalSpammy(entries[e.key].last, Alert(e.at, e.sum), COOLDOWN, GROWTH) { return false; }
      }
      if e.stored {
        entries := entries[e.key := Entry(Alert(e.at, e.sum), e.setAt + KEEP)];
      }
      return true;
    }
  }

  /**
   * After an alert that was written the next check of its key alerts exactly if it cannot read it, because the
   * read fails or an hour has passed, or if three minutes have passed and the volume has grown by half. Checks
   * of other keys, and those after an alert that was not written, decide as if it had not been.
   */
  lemma NextAlertsExactly(h: Entries, first: Check, next: Check)
    requires Alerts(h, first)
    ensures next.key == first.key && first.stored ==>
              (Alerts(After(h, first), next)
               <==> !next.readable || next.readAt >= first.setAt + 3600.0
                    || (next.at >= first.at + 180.0 && next.sum >= 1.5 * first.sum))
    ensures next.key != first.key || !first.stored ==> (Alerts(After(h, first), next) <==> Alerts(h, next))
  {
  }

  /** The checks of a run that alert for one key. */
  function AlertsOf(h: Entries, es: seq<Check>, key: Key): seq<Check>
    decreases |es|
  {
    if es == [] then []
    else
      (if es[0].key == key && Alerts(h, es[0]) then [es[0]] else [])
      + AlertsOf(After(h, es[0]), es[1..], key)
  }

  /** The clock does not go back. */
  predicate Sequential(es: seq<Check>, from: real)
    decreases |es|
  {
    es == []
    || (from <= es[0].at <= es[0].readAt <= es[0].setAt && Sequential(es[1..], es[0].setAt))
  }

  function HistoryAfter(h: Entries, es: seq<Check>): Entries
    decreases |es|
  {
    if es == [] then h else HistoryAfter(After(h, es[0]), es[1..])
  }

  lemma {:induction false} Appended(h: Entries, es: seq<Check>, e: Check)
    ensures HistoryAfter(h, es + [e]) == After(HistoryAfter(h, es), e)
    decreases |es|
  {
    if es == [] {
      assert (es + [e])[1..] == [];
    } else {
      assert (es + [e])[1..] == es[1..] + [e];
      Appended(After(h, es[0]), es[1..], e);
    }
  }

  lemma {:induction false} AppendedAlerts(h: Entries, es: seq<Check>, e: Check, key: Key)
    ensures AlertsOf(h, es + [e], key)
            == AlertsOf(h, es, key) + if e.key == key && Alerts(HistoryAfter(h, es), e) then [e] else []
    decreases |es|
  {
    if es == [] {
      assert (es + [e])[1..] == [];
    } else {
      assert (es + [e])[1..] == es[1..] + [e];
      AppendedAlerts(After(h, es[0]), es[1..], e, key);
    }
  }

  lemma {:induction false} SequentialGrows(es: seq<Check>, e: Check, from: real)
    requires Sequential(es, from) && (if es == [] then from else es[|es| - 1].setAt) <= e.at <= e.readAt <= e.setAt
    ensures Sequential(es + [e], from)
    decreases |es|
  {
    if es == [] {
      assert (es + [e])[1..] == [];
    } else {
      assert (es + [e])[1..] == es[1..] + [e];
      SequentialGrows(es[1..], e, es[0].setAt);
    }
  }

  lemma {:induction false} SequentialIsOrdered(es: seq<Check>, from: real, i: nat, j: nat)
    requires Sequential(es, from) && i <= j < |es|
    ensures from <= es[i].setAt <= es[j].setAt
    decreases |es|
  {
    if i > 0 {
      SequentialIsOrdered(es[1..], es[0].setAt, i - 1, j - 1);
    } else if j > 0 {
      SequentialIsOrdered(es[1..], es[0].setAt, 0, j - 1);
    }
  }

  function ChecksOf(es: seq<Check>, key: Key): seq<Check> {
    if es == [] then [] else (if es[0].key == key then [es[0]] else []) + ChecksOf(es[1..], key)
  }

  /** The alert `a` is written, and `b` reads it: less than an hour lies between that write and that read. */
  predicate Remembered(a: Check, b: Check) {
    a.stored && b.readable && b.readAt < a.setAt + KEEP
  }

  /** Two alerts in a row of one key: far enough apart and grown, or the first one forgotten. */
  predicate Follows(a: Check, b: Check) {
    Remembered(a, b) ==> b.at >= a.at + COOLDOWN && b.sum >= a.sum * GROWTH
  }

  ghost predicate Paced(alerts: seq<Check>) {
    forall i, j | 0 <= i < j < |alerts| && j == i + 1 :: Follows(alerts[i], alerts[j])
  }

  /** The entry that an alerting check leaves behind. */
  function EntryOf(e: Check): Entry { Entry(Alert(e.at, e.sum), e.setAt + KEEP) }

  /** `last` is the latest alert of the key, if there was one; its entry is there if it could be written. */
  lemma {:induction false} PacedAfter(h: Entries, es: seq<Check>, key: Key, from: real, last: seq<Check>)
    requires Sequential(es, from) && |last| <= 1
    requires last != [] && last[0].stored ==> key in h && h[key] == EntryOf(last[0])
    ensures Paced(last + AlertsOf(h, es, key))
    decreases |es|
  {
    if es != [] {
      var e := es[0];
      var rest := AlertsOf(After(h, e), es[1..], key);
      if e.key == key && Alerts(h, e) {
        PacedAfter(After(h, e), es[1..], key, e.setAt, [e]);
        assert AlertsOf(h, es, key) == [e] + rest;
        PacedCons(e, rest, last);
      } else {
        PacedAfter(After(h, e), es[1..], key, e.setAt, last);
        assert AlertsOf(h, es, key) == rest;
      }
    }
  }

  lemma PacedCons(now: Check, rest: seq<Check>, before: seq<Check>)
    requires Paced([now] + rest) && |before| <= 1
    requires before != [] ==> Follows(before[0], now)
    ensures Paced(before + ([now] + rest))
  {
    var tail, all := [now] + rest, before + ([now] + rest);
    forall i, j | 0 <= i < j < |all| && j == i + 1 ensures Follows(all[i], all[j]) {
      if i >= |before| { assert all[i] == tail[i - |before|] && all[j] == tail[j - |before|]; }
    }
  }

  /** In a stretch of alerts each one still finds its predecessor in the history. */
  ghost predicate Close(alerts: seq<Check>, i: nat, k: nat) {
    i + k < |alerts| && forall j, l | i <= j < l <= i + k && l == j + 1 :: Remembered(alerts[j], alerts[l])
  }

  function Pow(b: real, k: nat): real { if k == 0 then 1.0 else b * Pow(b, k - 1) }

  lemma {:induction false} StretchGrows(alerts: seq<Check>, i: nat, k: nat)
    requires Paced(alerts) && Close(alerts, i, k)
    ensures alerts[i + k].at >= alerts[i].at + COOLDOWN * k as real
    ensures alerts[i + k].sum >= Pow(GROWTH, k) * alerts[i].sum
    decreases k
  {
    if k > 0 {
      StretchGrows(alerts, i, k - 1);
      assert Follows(alerts[i + k - 1], alerts[i + k]);
      assert GROWTH * (Pow(GROWTH, k - 1) * alerts[i].sum) == Pow(GROWTH, k) * alerts[i].sum;
    }
  }

  lemma {:induction false} PowAtLeast(k: nat)
    requires k > 0
    ensures Pow(GROWTH, k) >= GROWTH
    decreases k
  {
    if k > 1 { PowAtLeast(k - 1); }
  }

  lemma RunIsPaced(es: seq<Check>, key: Key, from: real)
    requires Sequential(es, from)
    ensures Paced(AlertsOf(map[], es, key))
  {
    PacedAfter(map[], es, key, from, []);
    assert [] + AlertsOf(map[], es, key) == AlertsOf(map[], es, key);
  }

  /**
   * Over any run of the messenger: while each alert of a target, symbol and side is written, and read by the next one
   * less than an hour later, the k-th later one is stamped at least 180 k seconds later and has at least 1.5^k times
   * the volume. Whether the reads and writes of other keys succeed makes no difference.
   */
  lemma LaterAlertsAreLaterAndLarger(es: seq<Check>, key: Key, from: real, i: nat, k: nat)
    requires Sequential(es, from) && Close(AlertsOf(map[], es, key), i, k)
    ensures var alerts := AlertsOf(map[], es, key);
            && alerts[i + k].at >= alerts[i].at + 180.0 * k as real
            && alerts[i + k].sum >= Pow(1.5, k) * alerts[i].sum
  {
    RunIsPaced(es, key, from);
    StretchGrows(AlertsOf(map[], es, key), i, k);
  }

  /** So copies of one positive signal, delivered again and again, alert a target once in such a stretch. */
  lemma CopiesAlertOnce(es: seq<Check>, key: Key, from: real, i: nat, k: nat)
    requires Sequential(es, from) && Close(AlertsOf(map[], es, key), i, k)
    requires k > 0 && AlertsOf(map[], es, key)[i].sum > 0.0
    ensures AlertsOf(map[], es, key)[i + k].sum > AlertsOf(map[], es, key)[i].sum
  {
    LaterAlertsAreLaterAndLarger(es, key, from, i, k);
    PowAtLeast(k);
    var sum := AlertsOf(map[], es, key)[i].sum;
    assert Pow(GROWTH, k) * sum >= GROWTH * sum;
  }

  /**
   * When exactly the same signal alerts again: the entry has expired or cannot be read, or the cooldown is over and the
   * volume is not positive. An alert raised by open interest alone may have no volume, so its copies do repeat.
   */
  lemma CopyAlertsAgainExactlyWhen(h: Entries, e: Check)
    requires e.key in h && e.sum == h[e.key].last.sum
    ensures Alerts(h, e) <==>
              !e.readable || e.readAt >= h[e.key].expires || (e.at - h[e.key].last.time >= 180.0 && e.sum <= 0.0)
  {
  }

  /**
   * The stamps alone do not decide: the key may expire between a check's stamp and its read, and then a copy stamped
   * less than an hour after the first alert is sent again.
   */
  lemma StampsDoNotDecide(key: Key)
    ensures var first := Check(key, 0.0, 0.0, 0.001, 1000.0, true, true);
            var copy := Check(key, 3599.9995, 3600.002, 3600.003, 1000.0, true, true);
            && Sequential([first, copy], 0.0) && copy.at - first.at < KEEP
            && AlertsOf(map[], [first, copy], key) == [first, copy]
  {
    var first := Check(key, 0.0, 0.0, 0.001, 1000.0, true, true);
    var copy := Check(key, 3599.9995, 3600.002, 3600.003, 1000.0, true, true);
    var es := [first, copy];
    assert es[1..] == [copy] && [copy][1..] == [];
    assert Sequential([copy], 0.001);
    var h := After(map[], first);
    assert h == map[key := EntryOf(first)] && Alerts(h, copy);
    assert AlertsOf(h, [copy], key) == [copy];
  }

  /** Targets, symbols and sides do not influence each other: a key's alerts depend on its own checks only. */
  lemma {:induction false} KeysAreIndependent(h: Entries, g: Entries, es: seq<Check>, key: Key)
    requires (key in h <==> key in g) && (key in h ==> h[key] == g[key])
    ensures AlertsOf(h, es, key) == AlertsOf(g, ChecksOf(es, key), key)
    decreases |es|
  {
    if es != [] {
      if es[0].key == key {
        assert ChecksOf(es, key)[1..] == ChecksOf(es[1..], key);
        KeysAreIndependent(After(h, es[0]), After(g, es[0]), es[1..], key);
      } else {
        KeysAreIndependent(After(h, es[0]), g, es[1..], key);
        assert ChecksOf(es, key) == ChecksOf(es[1..], key);
        assert AlertsOf(h, es, key) == AlertsOf(After(h, es[0]), es[1..], key);
      }
    }
  }
}
