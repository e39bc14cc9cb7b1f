/**
 * The status and the recorded amount of an invoice over the runs of the protocol, where reads and writes of a handler
 * are apart: exactly which steps lose PAID, and exactly which make a row fall behind its deposits.
 */
module StatusRuns {
  import opened Rows
  import opened Ledger
  import opened Payments
  import opened Books
  import opened Protocol
  import opened Safety
  import opened Guarantees
  import opened Lifecycle

  // ----- the steps in question -----

  predicate IsLate(t: Task) { t.Uploading? || t.Rejecting? || t.Expiring? }

  /** A handler that read invoice `e` earlier writes it now: an upload, a rejection or an expiry. */
  predicate LateOn(s: State, a: Action, e: string) {
    a.LateWrite? && a.id in s.tasks && IsLate(s.tasks[a.id]) && s.tasks[a.id].ext == e
  }

  /** A CACTUS answer worth less than the invoice is applied to `e`: the gateway did not accept. */
  predicate RefusalOn(s: State, a: Action, e: string) {
    && a.Apply? && a.id in s.tasks && s.tasks[a.id].Holding? && s.tasks[a.id].ext == e
    && e in s.db.invoices && s.db.invoices[e].provider == CACTUS
    && JobAmount(s.tasks[a.id].job) < s.db.invoices[e].expected
  }

  predicate IsPaid(db: Db, e: string) { e in db.invoices && db.invoices[e].status == PAID }

  // ----- applying a job -----

  /** The row that applying a job leaves behind. */
  function JobRow(inv: Invoice, job: Job): Invoice {
    match job
    case Update(snap) => UpdatedRow(inv, snap)
    case Approval(admin, amount) => if AlreadyApproved(inv, amount) then inv else ApprovedRow(inv, admin, amount)
  }

  /** The row is written and the amount is booked; nothing is booked elsewhere. */
  ghost predicate WritesAndBooks(db: Db, after: Db, ext: string, row: Invoice, missing: int)
    requires ext in db.invoices
  {
    && after.invoices == db.invoices[ext := row] && OthersUntouched(db, after, ext)
    && ext in after.invoices && row.userId == db.invoices[ext].userId
    && Deposits(after.ledger, ext) == Deposits(db.ledger, ext) + missing
    && Counted(after, ext) == Counted(db, ext) + missing
  }

  lemma SettleWritesAndBooks(db: Db, ext: string, row: Invoice, effective: int, note: Note, tariffs: Tariffs, now: int)
    requires Sound(db) && ext in db.invoices && SameContract(db.invoices[ext], row) && NoteFor(note, ext)
               && row.userId in db.users
    ensures WritesAndBooks(db, Settle(db, ext, row, effective, note, tariffs, now).db, ext, row,
                           Max(effective - Counted(db, ext), 0))
  {
    SettleEffect(db, ext, row, effective, note, tariffs, now);
    SettleCounts(db, ext, row, effective, note, tariffs, now);
  }

  lemma PerformWritesRow(db: Db, ext: string, job: Job, tariffs: Tariffs, now: int)
    requires Sound(db) && ext in db.invoices && JobOk(job, db.invoices[ext])
    ensures var inv := db.invoices[ext];
            var missing := if Repeats(inv, job)
              then 0 else Max(EffectiveFor(inv, JobAmount(job)) - Counted(db, ext), 0);
            WritesAndBooks(db, Perform(db, ext, job, tariffs, now).db, ext, JobRow(inv, job), missing)
  {
    var inv := db.invoices[ext];
    assert InvoiceOk(db, ext, inv);
    match job {
      case Update(snap) =>
        var note := ProviderDeposit(inv.provider, ext, snap.status);
        SettleWritesAndBooks(db, ext, UpdatedRow(inv, snap), EffectiveFor(inv, snap.amount), note, tariffs, now);
      case Approval(admin, amount) =>
        if AlreadyApproved(inv, amount) {
          assert db.invoices[ext := inv] == db.invoices;
        } else {
          var row, note := ApprovedRow(inv, admin, amount), ManualDeposit(ext, admin);
          SettleWritesAndBooks(db, ext, row, EffectiveFor(inv, amount), note, tariffs, now);
        }
    }
  }

  lemma JobRowPaid(inv: Invoice, job: Job)
    requires PaidByAmount(inv) && JobOk(job, inv)
    ensures PaidByAmount(JobRow(inv, job))
    ensures inv.status == PAID ==>
              (JobRow(inv, job).status == PAID <==> !(inv.provider == CACTUS && JobAmount(job) < inv.expected))
  {
    match job {
      case Update(snap) =>
        if inv.provider != CACTUS { RowStaysPaid(inv, UpdatedRow(inv, snap), snap.amount, snap.status); }
      case Approval(admin, amount) =>
        if !AlreadyApproved(inv, amount) { RowStaysPaid(inv, ApprovedRow(inv, admin, amount), amount, "manual"); }
    }
  }

  // ----- PAID, step by step -----

  lemma ApplyWritesJobRow(s: State, id: nat)
    requires Inv(s) && AllPaidByAmount(s.db) && id in s.tasks && s.tasks[id].Holding?
    ensures var t := s.tasks[id];
            && t.ext in s.db.invoices && JobOk(t.job, s.db.invoices[t.ext]) && PaidByAmount(s.db.invoices[t.ext])
            && ApplyStep(s, id).db.invoices == s.db.invoices[t.ext := JobRow(s.db.invoices[t.ext], t.job)]
  {
    var t := s.tasks[id];
    assert TaskOk(s, t);
    PerformWritesRow(s.db, t.ext, t.job, s.tariffs, s.clock);
  }

  lemma ApplyKeepsPaidByAmount(s: State, id: nat)
    requires Inv(s) && AllPaidByAmount(s.db)
    ensures AllPaidByAmount(ApplyStep(s, id).db)
    ensures forall e :: IsPaid(s.db, e) ==> (IsPaid(ApplyStep(s, id).db, e) <==> !RefusalOn(s, Apply(id), e))
  {
    if id in s.tasks && s.tasks[id].Holding? {
      ApplyWritesJobRow(s, id);
      JobRowPaid(s.db.invoices[s.tasks[id].ext], s.tasks[id].job);
    }
  }

  lemma LateWriteUnpays(s: State, id: nat)
    requires AllPaidByAmount(s.db)
    ensures AllPaidByAmount(LateWriteStep(s, id).db)
    ensures forall e :: IsPaid(s.db, e) ==> (IsPaid(LateWriteStep(s, id).db, e) <==> !LateOn(s, LateWrite(id), e))
  {
  }

  /** An invoice that a step adds has seen nothing yet and is not paid. */
  lemma NewRowsAreUnpaid(s: State, a: Action, e: string)
    requires Inv(s) && !a.Apply? && !a.LateWrite?
    requires e in Step(s, a).db.invoices && e !in s.db.invoices
    ensures var t := Step(s, a);
            && t.db.invoices[e].status != PAID && t.db.invoices[e].expected > 0
            && t.db.invoices[e].actual == 0 && Deposits(t.db.ledger, e) == 0 <= Counted(t.db, e)
  {
    var t := Step(s, a);
    OtherStepsKeepRows(s, a);
    StepKeepsInv(s, a);
    assert InvoiceOk(t.db, e, t.db.invoices[e]);
    assert FundedIn(t.db, e, Seen(t, e));
    assert Seen(t, e) == [];
    CountedExactly(t.db, e);
  }

  lemma OtherStepsKeepPaid(s: State, a: Action)
    requires Inv(s) && AllPaidByAmount(s.db) && !a.Apply? && !a.LateWrite?
    ensures AllPaidByAmount(Step(s, a).db)
    ensures forall e :: IsPaid(s.db, e) ==> IsPaid(Step(s, a).db, e)
  {
    OtherStepsKeepRows(s, a);
    var t := Step(s, a);
    forall e <- t.db.invoices ensures PaidByAmount(t.db.invoices[e]) {
      if e !in s.db.invoices { NewRowsAreUnpaid(s, a, e); }
    }
  }

  lemma StepKeepsPaidByAmount(s: State, a: Action)
    requires Inv(s) && AllPaidByAmount(s.db)
    ensures AllPaidByAmount(Step(s, a).db)
    ensures forall e :: IsPaid(s.db, e) ==> (IsPaid(Step(s, a).db, e) <==> !LateOn(s, a, e) && !RefusalOn(s, a, e))
  {
    match a {
      case Apply(id) => ApplyKeepsPaidByAmount(s, id);
      case LateWrite(id) => LateWriteUnpays(s, id);
      case _ => OtherStepsKeepPaid(s, a);
    }
  }

  // ----- PAID, over runs -----

  lemma {:induction false} RunKeepsPaidByAmount(run: seq<State>)
    requires FromStart(run)
    ensures AllPaidByAmount(Last(run).db)
    decreases |run|
  {
    if |run| > 1 {
      var before := run[..|run| - 1];
      ExecutionSplits(run);
      RunKeepsPaidByAmount(before);
      ReachableInv(before);
      var a :| Last(run) == Step(Last(before), a);
      StepKeepsPaidByAmount(Last(before), a);
    } else {
      forall e <- run[0].db.invoices ensures PaidByAmount(run[0].db.invoices[e]) {
        assert InvoiceOk(run[0].db, e, run[0].db.invoices[e]);
      }
    }
  }

  /**
   * At the end of any run, whatever was read when: a step leaves a PAID invoice PAID if and only if it is neither the
   * late write of an upload, a rejection or an expiry of that invoice, nor, for CACTUS alone, the application of an
   * answer that is worth less than the invoice.
   */
  lemma UnpaidExactlyBy(run: seq<State>, a: Action, e: string)
    requires FromStart(run) && IsPaid(Last(run).db, e)
    ensures IsPaid(Step(Last(run), a).db, e) <==> !LateOn(Last(run), a, e) && !RefusalOn(Last(run), a, e)
  {
    RunKeepsPaidByAmount(run);
    ReachableInv(run);
    StepKeepsPaidByAmount(Last(run), a);
  }

  /** Some such step leads from `s` to `t`. */
  ghost predicate Unpays(s: State, t: State, e: string) {
    IsPaid(s.db, e) && exists a :: t == Step(s, a) && (LateOn(s, a, e) || RefusalOn(s, a, e))
  }

  ghost predicate UnpaidAt(run: seq<State>, k: nat, e: string) {
    k + 1 < |run| && Unpays(run[k], run[k + 1], e)
  }

  lemma OnlyTheseUnpay(run: seq<State>, t: State, e: string)
    requires FromStart(run) && Next(Last(run), t) && IsPaid(Last(run).db, e) && !IsPaid(t.db, e)
    ensures Unpays(Last(run), t, e)
  {
    var a :| t == Step(Last(run), a);
    UnpaidExactlyBy(run, a, e);
  }

  /** Once PAID an invoice is PAID at the end of the run, unless such a step came in between. */
  lemma {:induction false} PaidUntilDisturbed(run: seq<State>, i: nat, e: string)
    requires FromStart(run) && i < |run| && IsPaid(run[i].db, e)
    ensures IsPaid(Last(run).db, e) || exists k :: i <= k < |run| && UnpaidAt(run, k, e)
    decreases |run|
  {
    if i < |run| - 1 {
      var before := run[..|run| - 1];
      ExecutionSplits(run);
      PaidUntilDisturbed(before, i, e);
      if !IsPaid(Last(before).db, e) {
        var k :| i <= k < |before| && UnpaidAt(before, k, e);
        assert before[k] == run[k] && before[k + 1] == run[k + 1];
        assert UnpaidAt(run, k, e);
      } else if !IsPaid(Last(run).db, e) {
        OnlyTheseUnpay(before, Last(run), e);
        assert UnpaidAt(run, |run| - 2, e);
      }
    }
  }

  // ----- the recorded amount -----

  /** An upload that read less, tolerance included, than has been deposited by now writes what it read. */
  ghost predicate StaleUploadOn(s: State, a: Action, e: string) {
    && LateOn(s, a, e) && s.tasks[a.id].Uploading?
    && e in s.db.invoices && s.db.invoices[e].expected > 50
    && Effective(s.tasks[a.id].actual, s.db.invoices[e].expected) < Deposits(s.db.ledger, e)
  }

  lemma ApplyKeepsRecord(s: State, id: nat, e: string)
    requires Inv(s) && Records(s.db, e)
    ensures Records(ApplyStep(s, id).db, e)
  {
    if id in s.tasks && s.tasks[id].Holding? {
      var t := s.tasks[id];
      assert TaskOk(s, t);
      PerformWritesRow(s.db, t.ext, t.job, s.tariffs, s.clock);
      var inv := s.db.invoices[t.ext];
      if t.ext != e {
        ApplyKeepsInv(s, id);
        CountedGrows(s.db, ApplyStep(s, id).db, e);
      } else if !Repeats(inv, t.job) {
        SettledRowRecords(inv, JobRow(inv, t.job), Deposits(s.db.ledger, e), Counted(s.db, e), JobAmount(t.job));
      }
    }
  }

  lemma LateWriteAndRecord(s: State, id: nat, e: string)
    requires Inv(s) && Records(s.db, e)
    ensures Records(LateWriteStep(s, id).db, e) <==> !StaleUploadOn(s, LateWrite(id), e)
  {
    if LateOn(s, LateWrite(id), e) {
      var t, inv := s.tasks[id], s.db.invoices[e];
      assert TaskOk(s, t) && FundedIn(s.db, e, Seen(s, e));
      if t.Uploading? { EffectiveIsMonotone(t.actual, Top(Seen(s, e)), inv.expected); }
    }
  }

  lemma GrantBooksElsewhere(db: Db, uid: nat, hours: nat, text: string, now: int)
    requires uid in db.users
    ensures BooksElsewhere(db, GrantBonus(db, uid, hours, text, now))
  {
    var t := Transaction(uid, 0, BONUS, BonusNote(text));
    Append(db.ledger, t);
    assert GrantBonus(db, uid, hours, text, now).ledger == db.ledger + [t];
  }

  lemma CommunityBooksElsewhere(db: Db, uid: nat, hours: nat, text: string, now: int)
    ensures BooksElsewhere(db, CommunityBonus(db, uid, hours, text, now))
  {
    if uid in db.users {
      GrantBooksElsewhere(db.(users := db.users[uid := db.users[uid].(communityBonusUsed := true)]), uid, hours, text,
        now);
    }
  }

  lemma TrialBooksElsewhere(db: Db, uid: nat, hours: nat, text: string, now: int)
    ensures BooksElsewhere(db, ActivateTrial(db, uid, hours, text, now))
  {
    if uid in db.users {
      GrantBooksElsewhere(db.(users := db.users[uid := db.users[uid].(trialUsed := true)]), uid, hours, text, now);
    }
  }

  lemma BonusesBookElsewhere(s: State, a: Action)
    requires a.JoinCommunity? || a.StartTrial?
    ensures BooksElsewhere(s.db, Step(s, a).db)
  {
    CommunityBooksElsewhere(s.db, a.uid, a.hours, a.text, s.clock);
    TrialBooksElsewhere(s.db, a.uid, a.hours, a.text, s.clock);
  }

  lemma BouncerBooksElsewhere(s: State, uid: nat, price: int, bonus: int, delay: nat)
    requires Sound(s.db)
    ensures BooksElsewhere(s.db, BouncerStep(s, uid, price, bonus, delay).db)
  {
    BouncerStepBounces(s, uid, price, bonus, delay);
    ChargeAndActivateKeepsBooks(s.db, uid, RENEWAL_DAYS, price, AutoRenewal, bonus, s.clock + delay);
  }

  /** Every step but a late write or an application books nothing for any invoice. */
  lemma RestBooksElsewhere(s: State, a: Action)
    requires Inv(s) && !a.Apply? && !a.LateWrite?
    ensures var t := Step(s, a);
            s.db.ledger <= t.db.ledger && forall e :: Deposits(t.db.ledger, e) == Deposits(s.db.ledger, e)
  {
    if IsTaskStep(a) {
      TaskStepsKeepRows(s, a);
    } else if a.BouncerVisit? {
      BouncerBooksElsewhere(s, a.uid, a.price, a.bonus, a.delay);
    } else if a.BuyFromBalance? {
      ChargeAndActivateKeepsBooks(s.db, a.uid, a.plan, PriceOf(s.tariffs, a.plan), Purchase(a.plan), a.bonus, s.clock);
    } else if a.JoinCommunity? || a.StartTrial? {
      BonusesBookElsewhere(s, a);
    }
  }

  lemma RestKeepsRecord(s: State, a: Action, e: string)
    requires Inv(s) && Records(s.db, e) && !a.Apply? && !a.LateWrite?
    ensures Records(Step(s, a).db, e)
  {
    OtherStepsKeepRows(s, a);
    RestBooksElsewhere(s, a);
    StepKeepsInv(s, a);
    CountedGrows(s.db, Step(s, a).db, e);
  }

  /** A step keeps the row in agreement with its deposits if and only if it is no stale upload of that invoice. */
  lemma StepKeepsRecordExactly(s: State, a: Action, e: string)
    requires Inv(s) && Records(s.db, e)
    ensures Records(Step(s, a).db, e) <==> !StaleUploadOn(s, a, e)
  {
    match a {
      case Apply(id) => ApplyKeepsRecord(s, id, e);
      case LateWrite(id) => LateWriteAndRecord(s, id, e);
      case _ => RestKeepsRecord(s, a, e);
    }
  }

  ghost predicate Overwrites(s: State, t: State, e: string) {
    exists a :: t == Step(s, a) && StaleUploadOn(s, a, e)
  }

  ghost predicate StaleAt(run: seq<State>, k: nat, e: string) {
    k + 1 < |run| && Overwrites(run[k], run[k + 1], e)
  }

  lemma FreshInvoiceRecords(s: State, a: Action, e: string)
    requires Inv(s) && e !in s.db.invoices && e in Step(s, a).db.invoices
    ensures Records(Step(s, a).db, e)
  {
    if a.Apply? {
      ApplyAddsNoRow(s, a.id);
    } else if !a.LateWrite? {
      NewRowsAreUnpaid(s, a, e);
    }
  }

  lemma ApplyAddsNoRow(s: State, id: nat)
    requires Inv(s)
    ensures ApplyStep(s, id).db.invoices.Keys == s.db.invoices.Keys
  {
    if id in s.tasks && s.tasks[id].Holding? {
      var t := s.tasks[id];
      assert TaskOk(s, t);
      PerformWritesRow(s.db, t.ext, t.job, s.tariffs, s.clock);
    }
  }

  /** A step after which the row is in agreement, unless it was not before, or the step is a stale upload. */
  lemma RecordMoves(run: seq<State>, e: string)
    requires FromStart(run) && |run| > 1 && e in Last(run).db.invoices
    requires e in Last(run[..|run| - 1]).db.invoices ==> Records(Last(run[..|run| - 1]).db, e)
    ensures Records(Last(run).db, e) || StaleAt(run, |run| - 2, e)
  {
    var before := run[..|run| - 1];
    ExecutionSplits(run);
    ReachableInv(before);
    var a :| Last(run) == Step(Last(before), a);
    if e in Last(before).db.invoices {
      StepKeepsRecordExactly(Last(before), a, e);
    } else {
      FreshInvoiceRecords(Last(before), a, e);
    }
  }

  lemma {:induction false} RecordsUnlessStale(run: seq<State>, e: string)
    requires FromStart(run) && e in Last(run).db.invoices
    ensures Records(Last(run).db, e) || exists k :: 0 <= k < |run| && StaleAt(run, k, e)
    decreases |run|
  {
    if |run| > 1 {
      var before := run[..|run| - 1];
      ExecutionSplits(run);
      if e in Last(before).db.invoices { RecordsUnlessStale(before, e); }
      if e in Last(before).db.invoices && !Records(Last(before).db, e) {
        var k :| 0 <= k < |before| && StaleAt(before, k, e);
        assert before[k] == run[k] && before[k + 1] == run[k + 1];
        assert StaleAt(run, k, e);
      } else {
        RecordMoves(run, e);
      }
    }
  }

  /**
   * In every run the amount on the row of an invoice outside CACTUS, above the tolerance, lies between its deposits
   * and what the search counts, and is the deposits if the search finds no deposit of another invoice, unless an
   * upload that had read the row earlier has overwritten it.
   */
  lemma RecordedUnlessStale(run: seq<State>, e: string)
    requires FromStart(run) && e in Last(run).db.invoices
    ensures (Records(Last(run).db, e) && Agrees(Last(run).db, e)) || exists k :: 0 <= k < |run| && StaleAt(run, k, e)
  {
    RecordsUnlessStale(run, e);
    ReachableInv(run);
    if Records(Last(run).db, e) { RecordsAgree(Last(run).db, e); }
  }

  /** And then the row says too little, never more than the search counts. */
  lemma RowNeverExceedsCredit(run: seq<State>, e: string)
    requires FromStart(run)
    ensures var t := Last(run);
            e in t.db.invoices && t.db.invoices[e].provider != CACTUS && t.db.invoices[e].expected > 50 ==>
              var recorded := Effective(t.db.invoices[e].actual, t.db.invoices[e].expected);
              recorded <= Counted(t.db, e) && (Clean(t.db, e) ==> recorded <= Deposits(t.db.ledger, e))
  {
    ReachableInv(run);
    var t := Last(run);
    if e in t.db.invoices {
      var inv := t.db.invoices[e];
      assert FundedIn(t.db, e, Seen(t, e));
      EffectiveIsMonotone(inv.actual, Top(Seen(t, e)), inv.expected);
      CountedExactly(t.db, e);
    }
  }
}
