/** The polling worker: how often it looks at an open invoice, and when it closes one. */
module PaymentWorker {
  import opened Rows
  import opened Payments
  import opened Books

  /** When an unpaid invoice runs out: never once a screenshot, or part of a manual payment, has arrived. */
  function Deadline(inv: Invoice): Option<int> {
    match inv.provider
    case MANUAL => if inv.status == PENDING && inv.screenshot.None? then Some(inv.createdAt + 24 * 3600) else None
    case CACTUS => inv.expiresAt
    case _ => Some(inv.createdAt + 2 * 3600)
  }

  /** What the worker decides about an invoice: it expires it from its deadline on and never before. */
  lemma WorkerExpiresAtDeadline(inv: Invoice, now: int)
    ensures WorkerDecision(inv, now).Expire?
            <==> (inv.status == PENDING || inv.status == PARTIAL) && Deadline(inv).Some? && now >= Deadline(inv).value
    ensures (inv.status == PENDING || inv.status == PARTIAL) && inv.provider != MANUAL
              && !WorkerDecision(inv, now).Expire?
            ==> WorkerDecision(inv, now).Poll? && 0 < WorkerDecision(inv, now).seconds <= 180
  {
  }

  /** The invoices that a pass selects. */
  predicate Selected(inv: Invoice) {
    if inv.provider == MANUAL then inv.status == PENDING && inv.screenshot.None?
    else inv.status == PENDING || inv.status == PARTIAL
  }

  /**
   * One pass of the worker, as it concerns one invoice: it begins `at` and finds `row`; should the invoice be due, it
   * is looked at later, at `look`, as it is by then. Afterwards its entry in the timetable may be gone, because it
   * was settled or the worker restarted.
   */
  datatype Pass = Pass(at: int, row: Invoice, look: int, current: Invoice, cleared: bool)

  predicate Due(next: Option<int>, p: Pass) {
    Selected(p.row) && (next.None? || next.value <= p.at)
  }

  /** When the invoice is to be looked at again, `None` for at once. */
  function Timetable(passes: seq<Pass>): Option<int> {
    if passes == [] then None
    else
      var before, p := Timetable(passes[..|passes| - 1]), passes[|passes| - 1];
      if p.cleared then None
      else if !Due(before, p) then before
      else
        var d := WorkerDecision(p.current, p.look);
        if d.Wait? || d.Poll? then Some(p.look + d.seconds) else None
  }

  predicate LooksAt(passes: seq<Pass>, k: nat) {
    k < |passes| && Due(Timetable(passes[..k]), passes[k])
  }

  /** The passes follow one another; what they find are rows of one invoice. */
  ghost predicate PassesOf(inv: Invoice, passes: seq<Pass>) {
    && (forall p <- passes :: p.at <= p.look && SameContract(inv, p.row) && SameContract(inv, p.current))
    && (forall j, k | 0 <= j < k < |passes| :: passes[j].look <= passes[k].at)
  }

  predicate OpenIn(p: Pass) { Selected(p.row) && Selected(p.current) }

  /** How long the worker leaves an invoice alone after a look: manual ones half an hour, young ones half a minute. */
  function Patience(inv: Invoice, look: int): int {
    if inv.provider == MANUAL then 1800 else if look - inv.createdAt < 900 then 30 else 180
  }

  /** Nothing but open invoices are rescheduled, and after exactly that time. */
  lemma RescheduledExactly(inv: Invoice, now: int)
    ensures WorkerDecision(inv, now).Wait? || WorkerDecision(inv, now).Poll?
            <==> Selected(inv) && !(Deadline(inv).Some? && now >= Deadline(inv).value)
    ensures WorkerDecision(inv, now).Wait? ==> inv.provider == MANUAL
    ensures WorkerDecision(inv, now).Poll? ==> inv.provider != MANUAL
    ensures WorkerDecision(inv, now).Wait? || WorkerDecision(inv, now).Poll? ==>
              WorkerDecision(inv, now).seconds == Patience(inv, now)
  {
  }

  /** The entry stems from the last look, and the timetable was not cleared since. */
  ghost predicate LastLook(passes: seq<Pass>, j: nat) {
    && LooksAt(passes, j)
    && forall k: nat | j <= k < |passes| :: !passes[k].cleared && (k > j ==> !LooksAt(passes, k))
  }

  /** If there is an entry, it is the last look plus the worker's patience. */
  lemma {:induction false} EntryIsRecent(inv: Invoice, passes: seq<Pass>)
    requires PassesOf(inv, passes)
    ensures var next := Timetable(passes);
            next.Some? ==>
              exists j: nat :: LastLook(passes, j) && next.value == passes[j].look + Patience(inv, passes[j].look)
    decreases |passes|
  {
    if passes != [] && Timetable(passes).Some? {
      var before, k := passes[..|passes| - 1], |passes| - 1;
      EntryIsRecent(inv, before);
      if Due(Timetable(before), passes[k]) {
        assert SameContract(inv, passes[k].current);
        RescheduledExactly(passes[k].current, passes[k].look);
        assert LastLook(passes, k);
      } else {
        var j: nat :| LastLook(before, j)
          && Timetable(before).value == before[j].look + Patience(inv, before[j].look);
        LastLookStays(passes, j);
      }
    }
  }

  lemma LastLookStays(passes: seq<Pass>, j: nat)
    requires passes != [] && LastLook(passes[..|passes| - 1], j)
    requires !passes[|passes| - 1].cleared && !LooksAt(passes, |passes| - 1)
    ensures LastLook(passes, j)
  {
    var before := passes[..|passes| - 1];
    assert before[..j] == passes[..j];
    forall k: nat | j <= k < |passes| ensures !passes[k].cleared && (k > j ==> !LooksAt(passes, k)) {
      if k < |before| { assert before[k] == passes[k] && before[..k] == passes[..k]; }
    }
  }

  /** The invoice was open and not over when it was looked at last. */
  predicate FoundOpen(inv: Invoice, p: Pass) {
    Selected(p.current) && !(Deadline(inv).Some? && p.look >= Deadline(inv).value)
  }

  lemma EntryAtLook(inv: Invoice, passes: seq<Pass>)
    requires passes != [] && PassesOf(inv, passes) && Selected(inv)
    requires var j := |passes| - 1; LooksAt(passes, j) && !passes[j].cleared && FoundOpen(inv, passes[j])
    ensures var look := passes[|passes| - 1].look; Timetable(passes) == Some(look + Patience(inv, look))
  {
    var p := passes[|passes| - 1];
    assert SameContract(inv, p.current);
    RescheduledExactly(p.current, p.look);
  }

  lemma {:induction false} EntryAfterLook(inv: Invoice, passes: seq<Pass>, j: nat)
    requires PassesOf(inv, passes) && LastLook(passes, j) && FoundOpen(inv, passes[j]) && Selected(inv)
    ensures Timetable(passes) == Some(passes[j].look + Patience(inv, passes[j].look))
    decreases |passes|
  {
    if j == |passes| - 1 {
      EntryAtLook(inv, passes);
    } else {
      var before := passes[..|passes| - 1];
      LastLookBefore(passes, j);
      PassesBefore(inv, passes);
      EntryAfterLook(inv, before, j);
      EntryStays(passes);
    }
  }

  lemma PassesBefore(inv: Invoice, passes: seq<Pass>)
    requires passes != [] && PassesOf(inv, passes)
    ensures PassesOf(inv, passes[..|passes| - 1])
  {
  }

  lemma EntryStays(passes: seq<Pass>)
    requires passes != [] && !passes[|passes| - 1].cleared && !LooksAt(passes, |passes| - 1)
    ensures Timetable(passes) == Timetable(passes[..|passes| - 1])
  {
  }

  lemma LastLookBefore(passes: seq<Pass>, j: nat)
    requires LastLook(passes, j) && j < |passes| - 1
    ensures LastLook(passes[..|passes| - 1], j)
    ensures !passes[|passes| - 1].cleared && !LooksAt(passes, |passes| - 1)
  {
    var before := passes[..|passes| - 1];
    assert before[..j] == passes[..j];
    forall k: nat | j <= k < |before| ensures !before[k].cleared && (k > j ==> !LooksAt(before, k)) {
      assert before[..k] == passes[..k] && before[k] == passes[k];
    }
  }

  /**
   * The first pass that finds the invoice open looks at it, and so does the first one after the timetable was
   * cleared.
   */
  lemma LooksAtOnce(passes: seq<Pass>, k: nat)
    requires k < |passes| && Selected(passes[k].row)
    requires k == 0 || passes[k - 1].cleared
    ensures LooksAt(passes, k)
  {
  }

  /**
   * After a look that found the invoice open, the next pass to look at it is exactly the first one that begins when the
   * worker's patience is over, unless the timetable is cleared before.
   */
  lemma PassesLookExactly(inv: Invoice, passes: seq<Pass>, j: nat, k: nat)
    requires PassesOf(inv, passes) && j < k < |passes| && Selected(inv) && Selected(passes[k].row)
    requires LastLook(passes[..k], j) && FoundOpen(inv, passes[j])
    ensures LooksAt(passes, k) <==> passes[k].at >= passes[j].look + Patience(inv, passes[j].look)
  {
    EntryAfterLook(inv, passes[..k], j);
  }

  /** In any case a pass looks, unless the last look was less than the worker's patience ago. */
  lemma PassesLookInTime(inv: Invoice, passes: seq<Pass>, k: nat)
    requires PassesOf(inv, passes) && k < |passes| && Selected(passes[k].row)
    ensures LooksAt(passes, k) || exists j: nat ::
              && j < k && LooksAt(passes, j) && !passes[j].cleared
              && passes[k].at < passes[j].look + Patience(inv, passes[j].look)
  {
    var before := passes[..k];
    EntryIsRecent(inv, before);
    if !LooksAt(passes, k) {
      var i: nat :| LastLook(before, i) && Timetable(before).value == before[i].look + Patience(inv, before[i].look);
      assert before[..i] == passes[..i] && LooksAt(passes, i) && before[i] == passes[i];
    }
  }

  /** So if passes begin at most `gap` apart, an invoice that stays open is never left alone for longer than this. */
  lemma LooksAreFrequent(inv: Invoice, passes: seq<Pass>, k: nat, gap: nat)
    requires PassesOf(inv, passes) && 0 < k && k + 1 < |passes|
    requires forall i, j | 0 <= i < j < |passes| && j == i + 1 :: passes[j].at <= passes[i].at + gap
    requires Selected(passes[k - 1].row)
    ensures exists j: nat ::
              j < k && LooksAt(passes, j) && passes[k].look <= passes[j].look + Patience(inv, passes[j].look) + 2 * gap
  {
    PassesLookInTime(inv, passes, k - 1);
    var i, l := k - 1, k + 1;
    assert passes[k].at <= passes[i].at + gap && passes[l].at <= passes[k].at + gap;
  }

  /** The worker closes the invoice in this pass. */
  predicate ExpiresIn(passes: seq<Pass>, k: nat) {
    LooksAt(passes, k) && WorkerDecision(passes[k].current, passes[k].look).Expire?
  }

  /**
   * No pass expires an invoice before its deadline; and once a pass begins its patience after the deadline or later,
   * that pass or an earlier one has expired the invoice, or has found that somebody else has settled it.
   */
  lemma WorkerExpiresInTime(inv: Invoice, passes: seq<Pass>, k: nat)
    requires PassesOf(inv, passes) && k < |passes| && Selected(inv)
    ensures ExpiresIn(passes, k) ==> Deadline(inv).Some? && passes[k].look >= Deadline(inv).value
    ensures Deadline(inv).Some?
              && passes[k].at >= Deadline(inv).value + (if inv.provider == MANUAL then 1800 else 180) ==>
              exists m: nat :: m <= k && (ExpiresIn(passes, m) || !OpenIn(passes[m]))
  {
    assert SameContract(inv, passes[k].current);
    WorkerExpiresAtDeadline(passes[k].current, passes[k].look);
    if Selected(passes[k].row) {
      PassesLookInTime(inv, passes, k);
      if !LooksAt(passes, k) {
        var j: nat :| j < k && LooksAt(passes, j) && passes[k].at < passes[j].look + Patience(inv, passes[j].look);
        assert SameContract(inv, passes[j].current);
        WorkerExpiresAtDeadline(passes[j].current, passes[j].look);
      }
    }
  }
}
