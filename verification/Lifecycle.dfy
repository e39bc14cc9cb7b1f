/** The life of an invoice when every handler call is one step: its status, its record, its deposits. */
module Lifecycle {
  import opened Rows
  import opened Text
  import opened Ledger
  import opened Payments
  import opened Books
  import opened Effects
  import opened Safety

  /** A handler call that runs from its read to its commit without interference. */
  datatype Call =
    | Check(ext: string, reply: Option<Reply>)
    | Confirm(ext: string, admin: nat, amount: int)
    | Upload(ext: string, screenshot: string)
    | Reject(ext: string, admin: nat, reason: string)
    | ExpiryPass(ext: string)

  datatype Event = Event(call: Call, tariffs: Tariffs, now: int)

  function Handle(db: Db, ev: Event): Db {
    var ext := ev.call.ext;
    if ext !in db.invoices then db
    else
      var inv := db.invoices[ext];
      match ev.call
      case Check(_, reply) =>
        var snap := TakeSnapshot(inv, reply, ev.tariffs);
        if snap.None? then db else ApplyUpdate(db, ext, snap.value, ev.tariffs, ev.now).db
      case Confirm(_, admin, amount) => ApplyApproval(db, ext, admin, amount, ev.tariffs, ev.now).db
      case Upload(_, screenshot) =>
        if UploadAllowed(inv) then SetInvoice(db, ext, UploadedRow(inv, inv.actual, screenshot)) else db
      case Reject(_, admin, reason) =>
        if RejectAllowed(inv) then SetInvoice(db, ext, RejectedRow(inv, admin, reason)) else db
      case ExpiryPass(_) =>
        if WorkerDecision(inv, ev.now).Expire? then SetInvoice(db, ext, inv.(status := EXPIRED)) else db
  }

  function HandleAll(db: Db, events: seq<Event>): Db {
    if events == [] then db else Handle(HandleAll(db, events[..|events| - 1]), events[|events| - 1])
  }

  // ----- what one call leaves alone -----

  /** The books stay sound, and no invoice but `ext` changes its row or its bookings. */
  ghost predicate OnlyTouches(db: Db, after: Db, ext: string) {
    && Sound(after) && OthersUntouched(db, after, ext)
    && after.invoices.Keys == db.invoices.Keys
    && forall e <- db.invoices | e != ext :: after.invoices[e] == db.invoices[e]
  }

  lemma CheckTouches(db: Db, ext: string, reply: Option<Reply>, tariffs: Tariffs, now: int)
    requires Sound(db) && ext in db.invoices
    ensures OnlyTouches(db, Handle(db, Event(Check(ext, reply), tariffs, now)), ext)
  {
    var inv := db.invoices[ext];
    assert InvoiceOk(db, ext, inv);
    var snap := TakeSnapshot(inv, reply, tariffs);
    if snap.Some? {
      var row, note := UpdatedRow(inv, snap.value), ProviderDeposit(inv.provider, ext, snap.value.status);
      SettleEffect(db, ext, row, EffectiveFor(inv, snap.value.amount), note, tariffs, now);
    }
  }

  lemma ConfirmTouches(db: Db, ext: string, admin: nat, amount: int, tariffs: Tariffs, now: int)
    requires Sound(db) && ext in db.invoices
    ensures OnlyTouches(db, Handle(db, Event(Confirm(ext, admin, amount), tariffs, now)), ext)
  {
    var inv := db.invoices[ext];
    assert InvoiceOk(db, ext, inv);
    if amount > 0 && inv.provider == MANUAL && !AlreadyApproved(inv, amount) {
      var row := ApprovedRow(inv, admin, amount);
      SettleEffect(db, ext, row, Effective(row.actual, inv.expected), ManualDeposit(ext, admin), tariffs, now);
    }
  }

  lemma RowTouches(db: Db, ext: string, row: Invoice)
    requires Sound(db) && ext in db.invoices && SameContract(db.invoices[ext], row)
    ensures OnlyTouches(db, SetInvoice(db, ext, row), ext)
  {
    SetInvoiceKeepsSound(db, ext, row);
  }

  lemma HandleTouches(db: Db, ev: Event)
    requires Sound(db)
    ensures OnlyTouches(db, Handle(db, ev), ev.call.ext)
  {
    var ext := ev.call.ext;
    if ext in db.invoices {
      var inv := db.invoices[ext];
      match ev.call {
        case Check(_, reply) => CheckTouches(db, ext, reply, ev.tariffs, ev.now);
        case Confirm(_, admin, amount) => ConfirmTouches(db, ext, admin, amount, ev.tariffs, ev.now);
        case Upload(_, screenshot) => RowTouches(db, ext, UploadedRow(inv, inv.actual, screenshot));
        case Reject(_, admin, reason) => RowTouches(db, ext, RejectedRow(inv, admin, reason));
        case ExpiryPass(_) => RowTouches(db, ext, inv.(status := EXPIRED));
      }
    }
  }

  // ----- PAID is absorbing -----

  /** A settlement writes its row, or, had the charge query failed, nothing. */
  lemma SettleWritesRow(db: Db, ext: string, row: Invoice, effective: int, note: Note, tariffs: Tariffs, now: int)
    requires row.userId in db.users
    ensures var after := Settle(db, ext, row, effective, note, tariffs, now).db;
            after.invoices == db.invoices[ext := row] || after == db
  {
    var saved := SetInvoice(Credit(db, ext, row.userId, effective, note), ext, row);
    assert saved.invoices == db.invoices[ext := row];
    if row.status == PAID && WantsSubscription(row.payload) {
      var dto := SettledUpdate(row, effective, effective - Credited(db.ledger, row.userId, ext),
        saved.users[row.userId].balance);
      FulfilLeavesInvoices(db, saved, ext, row.userId, row.payload.days.value, tariffs, now, dto);
    }
  }

  lemma FulfilLeavesInvoices(before: Db, db: Db, ext: string, uid: nat, days: int, tariffs: Tariffs, now: int,
      dto: PaymentUpdate)
    requires uid in db.users
    ensures var after := Fulfil(before, db, ext, uid, days, tariffs, now, dto).db;
              after.invoices == db.invoices || after == before
  {
  }

  /** Outside CACTUS, PAID is backed by the recorded amount itself. */
  predicate PaidByAmount(inv: Invoice) {
    inv.expected > 0 && (inv.status == PAID && inv.provider != CACTUS
      ==> Effective(inv.actual, inv.expected) >= inv.expected)
  }

  ghost predicate AllPaidByAmount(db: Db) {
    forall e <- db.invoices :: PaidByAmount(db.invoices[e])
  }

  /** One call keeps every PAID invoice outside CACTUS paid. */
  lemma CallKeepsPaid(db: Db, ev: Event)
    requires AllPaidByAmount(db)
    ensures AllPaidByAmount(Handle(db, ev))
    ensures forall e <- db.invoices :: db.invoices[e].status == PAID && db.invoices[e].provider != CACTUS ==>
              e in Handle(db, ev).invoices && Handle(db, ev).invoices[e].status == PAID
                && Handle(db, ev).invoices[e].provider != CACTUS
  {
    var ext := ev.call.ext;
    if ext in db.invoices && db.invoices[ext].userId in db.users {
      var inv := db.invoices[ext];
      assert PaidByAmount(inv);
      match ev.call {
        case Check(_, reply) =>
          var snap := TakeSnapshot(inv, reply, ev.tariffs);
          if snap.Some? {
            SettleWritesRow(db, ext, UpdatedRow(inv, snap.value), EffectiveFor(inv, snap.value.amount),
                            ProviderDeposit(inv.provider, ext, snap.value.status), ev.tariffs, ev.now);
            RowStaysPaid(inv, UpdatedRow(inv, snap.value), snap.value.amount, snap.value.status);
          }
        case Confirm(_, admin, amount) =>
          if inv.provider == MANUAL && amount > 0 && !AlreadyApproved(inv, amount) {
            var row := ApprovedRow(inv, admin, amount);
            SettleWritesRow(db, ext, row, Effective(row.actual, inv.expected), ManualDeposit(ext, admin), ev.tariffs,
              ev.now);
            RowStaysPaid(inv, row, amount, "manual");
          }
        case _ =>
      }
    }
  }

  lemma RowStaysPaid(inv: Invoice, row: Invoice, amount: int, status: string)
    requires PaidByAmount(inv) && SameContract(inv, row)
    requires row.actual == ResolvedAmount(inv, amount)
               && row.status == ResolveStatus(status, EffectiveFor(inv, amount), inv.expected)
    ensures PaidByAmount(row)
    ensures inv.status == PAID && inv.provider != CACTUS ==> row.status == PAID
  {
    if inv.provider != CACTUS {
      EffectiveIsMonotone(inv.actual, row.actual, inv.expected);
    }
  }

  /** PAID is absorbing outside CACTUS, over every sequence of checks, approvals, uploads, rejections and expiries. */
  lemma {:induction false} PaidIsAbsorbing(db: Db, events: seq<Event>, e: string)
    requires AllPaidByAmount(db)
    requires e in db.invoices && db.invoices[e].status == PAID && db.invoices[e].provider != CACTUS
    ensures var after := HandleAll(db, events);
            AllPaidByAmount(after) && e in after.invoices && after.invoices[e].status == PAID
              && after.invoices[e].provider != CACTUS
  {
    if events != [] {
      PaidIsAbsorbing(db, events[..|events| - 1], e);
      CallKeepsPaid(HandleAll(db, events[..|events| - 1]), events[|events| - 1]);
    }
  }

  // ----- what one check is worth -----

  /**
   * The price noted when the invoice was opened; else, if it is for a plan with a price, that; else the amount
   * asked.
   */
  function AgreedPrice(inv: Invoice, tariffs: Tariffs): int {
    if inv.payload.price.GetOr(0) > 0 then inv.payload.price.GetOr(0)
    else if PlanDays(inv) != 0 && PlanPrice(inv, tariffs) > 0 then PlanPrice(inv, tariffs)
    else inv.expected
  }

  /** What an answer of the gateway says was paid. */
  function Reported(inv: Invoice, reply: Reply, tariffs: Tariffs): int {
    match inv.provider
    case CRYPTOMUS => reply.amount
    case CRYPTOPAY => if Lower(reply.status) == "paid" then inv.expected else 0
    case CACTUS => if Lower(reply.status) == "accept" then AgreedPrice(inv, tariffs) else 0
    case MANUAL => 0
  }

  /** The answer to an acceptance is "paid"; any other is passed on in small letters. */
  ghost predicate PassesOn(inv: Invoice, reply: Reply, status: string) {
    if inv.provider == CACTUS && SameWord(reply.status, "accept") then status == "paid"
    else |status| == |reply.status| && SameWord(reply.status, status) && forall c <- status :: !('A' <= c <= 'Z')
  }

  /** What is taken from a gateway's answer, before any lock is held. Manual invoices have no gateway. */
  lemma SnapshotExactly(inv: Invoice, reply: Reply, tariffs: Tariffs)
    ensures TakeSnapshot(inv, None, tariffs) == None
    ensures TakeSnapshot(inv, Some(reply), tariffs).None? <==> inv.provider == MANUAL
    ensures inv.provider != MANUAL ==>
              var snap := TakeSnapshot(inv, Some(reply), tariffs).value;
              && PassesOn(inv, reply, snap.status)
              && snap.amount == (match inv.provider
                   case CRYPTOMUS => reply.amount
                   case CRYPTOPAY => if SameWord(reply.status, "paid") then inv.expected else inv.actual
                   case _ => if SameWord(reply.status, "accept") then AgreedPrice(inv, tariffs) else 0)
              && snap.native == (match inv.provider
                   case CACTUS => if SameWord(reply.status, "accept") then reply.amount else 0
                   case _ => snap.amount)
  {
    LowerIs(reply.status, "accept");
    LowerIs(reply.status, "paid");
    LowerAt(reply.status);
  }

  /** A gateway that reports totals never takes back what it reported before, and its totals enjoy the tolerance. */
  function Worth(inv: Invoice, reply: Reply, tariffs: Tariffs): int {
    var reported := Reported(inv, reply, tariffs);
    if inv.provider == CACTUS then reported else Effective(Max(reported, inv.actual), inv.expected)
  }

  /** Each status and when it is the right one; money that has arrived is never forgotten by expiry. */
  predicate StatusFits(status: Status, worth: int, expected: int, gaveUp: bool) {
    && (status == PAID <==> worth >= expected)
    && (status == PARTIAL <==> 0 < worth < expected)
    && (status == EXPIRED <==> worth <= 0 && gaveUp)
    && (status == PENDING <==> worth <= 0 && !gaveUp)
  }

  lemma CheckSettles(db: Db, e: string, reply: Reply, tariffs: Tariffs, now: int)
    requires Sound(db) && e in db.invoices && db.invoices[e].provider != MANUAL
    requires db.invoices[e].actual >= 0 && db.invoices[e].userId in db.users
    ensures var inv := db.invoices[e];
            var after := Handle(db, Event(Check(e, Some(reply)), tariffs, now));
            && Deposits(after.ledger, e)
               == Deposits(db.ledger, e) + Max(Worth(inv, reply, tariffs) - Counted(db, e), 0)
            && e in after.invoices && OthersUntouched(db, after, e)
            && StatusFits(after.invoices[e].status, Worth(inv, reply, tariffs), inv.expected,
                          IsExpiredStatus(Lower(reply.status)))
  {
    var inv := db.invoices[e];
    assert InvoiceOk(db, e, inv);
    var snap := TakeSnapshot(inv, Some(reply), tariffs).value;
    assert EffectiveFor(inv, snap.amount) == Worth(inv, reply, tariffs);
    assert 'I' !in snap.status;
    SettleEffect(db, e, UpdatedRow(inv, snap), Worth(inv, reply, tariffs),
      ProviderDeposit(inv.provider, e, snap.status), tariffs, now);
  }

  /** One check tops the deposits up to what the answer is worth, less strays, and sets the status accordingly. */
  lemma CheckCreditsWhatIsReported(db: Db, e: string, reply: Reply, tariffs: Tariffs, now: int)
    requires Sound(db) && e in db.invoices && db.invoices[e].provider != MANUAL
    requires db.invoices[e].actual >= 0 && db.invoices[e].userId in db.users
    ensures var inv := db.invoices[e];
            var after := Handle(db, Event(Check(e, Some(reply)), tariffs, now));
            && ToppedUp(db, e, Worth(inv, reply, tariffs), Deposits(after.ledger, e))
            && e in after.invoices && OthersUntouched(db, after, e)
            && StatusFits(after.invoices[e].status, Worth(inv, reply, tariffs), inv.expected,
                          IsExpiredStatus(Lower(reply.status)))
  {
    CheckSettles(db, e, reply, tariffs, now);
    var after := Handle(db, Event(Check(e, Some(reply)), tariffs, now));
    MissingTopsUp(db, e, Worth(db.invoices[e], reply, tariffs), Deposits(after.ledger, e));
  }

  // ----- uploads and rejections -----

  /** An invoice whose owner waits for an admin: a screenshot is stored, no review is recorded. */
  predicate AwaitsReview(inv: Invoice, screenshot: string) {
    inv.status == WAITING_ADMIN && inv.screenshot == Some(screenshot) && inv.approvedBy.None? && inv.rejection.None?
  }

  /**
   * An upload is accepted from an invoice that is pending or partly paid; then there is no second one, and the worker
   * neither polls nor expires the invoice, until an admin decides. A rejection, for whatever reason, lets the owner
   * upload once more. Amounts, owner and intent stay as they are.
   */
  lemma ReviewCycle(db: Db, e: string, screenshot: string, admin: nat, reason: string, tariffs: Tariffs, now: int)
    requires e in db.invoices && db.invoices[e].provider == MANUAL
    requires db.invoices[e].status == PENDING || db.invoices[e].status == PARTIAL
    ensures var inv := db.invoices[e];
            var uploaded := Handle(db, Event(Upload(e, screenshot), tariffs, now));
            var rejected := Handle(uploaded, Event(Reject(e, admin, reason), tariffs, now));
            && uploaded.users == db.users && uploaded.ledger == db.ledger
            && e in uploaded.invoices && AwaitsReview(uploaded.invoices[e], screenshot)
            && (forall later: string :: Handle(uploaded, Event(Upload(e, later), tariffs, now)) == uploaded)
            && (forall t: int :: Handle(uploaded, Event(ExpiryPass(e), tariffs, t)) == uploaded)
            && rejected == db.(invoices := db.invoices[e := inv.(status := PENDING, screenshot := None,
                 approvedBy := Some(admin), rejection := Some(reason))])
            && (forall later: string ::
                  AwaitsReview(Handle(rejected, Event(Upload(e, later), tariffs, now)).invoices[e], later))
  {
    var inv := db.invoices[e];
    var uploaded := UploadedRow(inv, inv.actual, screenshot);
    assert db.invoices[e := uploaded][e := RejectedRow(uploaded, admin, reason)]
      == db.invoices[e := RejectedRow(uploaded, admin, reason)];
  }

  /** No other status and no other provider accepts a screenshot, and nothing that is paid is rejected. */
  lemma ReviewIsRefused(db: Db, e: string, screenshot: string, admin: nat, reason: string, tariffs: Tariffs, now: int)
    requires e in db.invoices
    ensures Handle(db, Event(Upload(e, screenshot), tariffs, now)) == db <==>
              !(db.invoices[e].provider == MANUAL
                && (db.invoices[e].status == PENDING || db.invoices[e].status == PARTIAL))
    ensures db.invoices[e].provider != MANUAL || db.invoices[e].status == PAID ==>
              Handle(db, Event(Reject(e, admin, reason), tariffs, now)) == db
  {
    if UploadAllowed(db.invoices[e]) {
      assert Handle(db, Event(Upload(e, screenshot), tariffs, now)).invoices[e].status == WAITING_ADMIN;
    }
  }

  // ----- CACTUS: the status follows the last answer -----

  /** A CACTUS invoice as the shop opens it. */
  ghost predicate ShopCactus(db: Db, e: string) {
    && e in db.invoices && db.invoices[e].provider == CACTUS && db.invoices[e].expected > 0
    && db.invoices[e].payload.price == Some(db.invoices[e].expected)
  }

  predicate Accepted(reply: Reply) {
    Lower(reply.status) == "accept"
  }

  /** Checking a CACTUS invoice leaves it PAID exactly when the gateway accepted, whatever it was before. */
  lemma CactusStatusIsLastAnswer(db: Db, e: string, reply: Reply, tariffs: Tariffs, now: int)
    requires Sound(db) && ShopCactus(db, e)
    ensures var after := Handle(db, Event(Check(e, Some(reply)), tariffs, now));
            && Sound(after) && ShopCactus(after, e)
            && (after.invoices[e].status == PAID <==> Accepted(reply))
  {
    var inv := db.invoices[e];
    assert InvoiceOk(db, e, inv);
    var snap := TakeSnapshot(inv, Some(reply), tariffs).value;
    SnapshotIsGood(inv.(actual := 0), Some(reply), tariffs);
    SettleEffect(db, e, UpdatedRow(inv, snap), EffectiveFor(inv, snap.amount),
      ProviderDeposit(CACTUS, e, snap.status), tariffs, now);
  }

  /** An answer of the gateway about invoice `e`. */
  predicate Answers(ev: Event, e: string) {
    ev.call.Check? && ev.call.ext == e && ev.call.reply.Some?
  }

  /** No other call changes a PAID CACTUS invoice in any way, and none pays an unpaid one. */
  lemma OnlyAnswersMoveCactus(db: Db, ev: Event, e: string)
    requires Sound(db) && ShopCactus(db, e) && !Answers(ev, e)
    ensures var after := Handle(db, ev);
            && ShopCactus(after, e)
            && (after.invoices[e].status == PAID <==> db.invoices[e].status == PAID)
            && (db.invoices[e].status == PAID ==> after.invoices[e] == db.invoices[e])
  {
    HandleTouches(db, ev);
  }

  /** Whether the last answer about `e` was an acceptance; `None` if there was no answer. */
  function LastAnswer(events: seq<Event>, e: string): Option<bool> {
    if events == [] then None
    else
      var last := events[|events| - 1];
      if Answers(last, e) then Some(Accepted(last.call.reply.value)) else LastAnswer(events[..|events| - 1], e)
  }

  /**
   * Over every sequence of calls a CACTUS invoice is PAID exactly if the gateway's last answer about it was an
   * acceptance, or if it was PAID and nothing was answered. So PAID stays until a refusal is applied.
   */
  lemma {:induction false} CactusIsPaidExactly(db: Db, events: seq<Event>, e: string)
    requires Sound(db) && ShopCactus(db, e)
    ensures var after := HandleAll(db, events);
            && Sound(after) && ShopCactus(after, e)
            && (after.invoices[e].status == PAID <==> LastAnswer(events, e).GetOr(db.invoices[e].status == PAID))
  {
    if events != [] {
      var before, last := HandleAll(db, events[..|events| - 1]), events[|events| - 1];
      CactusIsPaidExactly(db, events[..|events| - 1], e);
      HandleTouches(before, last);
      if Answers(last, e) {
        CactusStatusIsLastAnswer(before, e, last.call.reply.value, last.tariffs, last.now);
        assert last == Event(Check(e, Some(last.call.reply.value)), last.tariffs, last.now);
      } else {
        OnlyAnswersMoveCactus(before, last, e);
      }
    }
  }

  // ----- the recorded amount is what was credited -----

  /** The amount on the row, up to the tolerance, lies between the deposits and what the search counts. */
  predicate RowRecords(inv: Invoice, deposits: int, counted: int) {
    inv.provider != CACTUS && inv.expected > 50 ==> deposits <= Effective(inv.actual, inv.expected) <= counted
  }

  ghost predicate Records(db: Db, e: string) {
    e in db.invoices && RowRecords(db.invoices[e], Deposits(db.ledger, e), Counted(db, e))
  }

  /**
   * The deposits are the amount on the row, up to the tolerance, unless the search finds deposits of another
   * invoice.
   */
  ghost predicate Agrees(db: Db, e: string)
    requires e in db.invoices
  {
    var inv := db.invoices[e];
    Clean(db, e) && inv.provider != CACTUS && inv.expected > 50 ==>
      Deposits(db.ledger, e) == Effective(inv.actual, inv.expected)
  }

  lemma RecordsAgree(db: Db, e: string)
    requires Sound(db) && Records(db, e)
    ensures Agrees(db, e)
  {
    CountedExactly(db, e);
  }

  lemma SettledRowRecords(inv: Invoice, row: Invoice, deposits: int, counted: int, a: int)
    requires RowRecords(inv, deposits, counted) && SameContract(inv, row) && row.actual == ResolvedAmount(inv, a)
    ensures var effective := EffectiveFor(inv, a);
            RowRecords(row, deposits + Max(effective - counted, 0), Max(counted, effective))
  {
    if inv.provider != CACTUS { EffectiveIsMonotone(inv.actual, row.actual, inv.expected); }
  }

  lemma CheckKeepsRecord(db: Db, e: string, reply: Option<Reply>, tariffs: Tariffs, now: int)
    requires Sound(db) && Records(db, e)
    ensures Records(Handle(db, Event(Check(e, reply), tariffs, now)), e)
  {
    var inv := db.invoices[e];
    assert InvoiceOk(db, e, inv);
    var snap := TakeSnapshot(inv, reply, tariffs);
    if snap.Some? {
      var row, note := UpdatedRow(inv, snap.value), ProviderDeposit(inv.provider, e, snap.value.status);
      SettledRowRecords(inv, row, Deposits(db.ledger, e), Counted(db, e), snap.value.amount);
      SettleCounts(db, e, row, EffectiveFor(inv, snap.value.amount), note, tariffs, now);
      SettleEffect(db, e, row, EffectiveFor(inv, snap.value.amount), note, tariffs, now);
    }
  }

  lemma ConfirmKeepsRecord(db: Db, e: string, admin: nat, amount: int, tariffs: Tariffs, now: int)
    requires Sound(db) && Records(db, e)
    ensures Records(Handle(db, Event(Confirm(e, admin, amount), tariffs, now)), e)
  {
    var inv := db.invoices[e];
    assert InvoiceOk(db, e, inv);
    if amount > 0 && inv.provider == MANUAL && !AlreadyApproved(inv, amount) {
      var row, note := ApprovedRow(inv, admin, amount), ManualDeposit(e, admin);
      SettledRowRecords(inv, row, Deposits(db.ledger, e), Counted(db, e), amount);
      SettleCounts(db, e, row, EffectiveFor(inv, amount), note, tariffs, now);
      SettleEffect(db, e, row, EffectiveFor(inv, amount), note, tariffs, now);
    }
  }

  lemma CallKeepsRecord(db: Db, ev: Event, e: string)
    requires Sound(db) && Records(db, e)
    ensures Records(Handle(db, ev), e)
  {
    if ev.call.ext != e {
      HandleTouches(db, ev);
      CountedGrows(db, Handle(db, ev), e);
    } else {
      match ev.call {
        case Check(_, reply) => CheckKeepsRecord(db, e, reply, ev.tariffs, ev.now);
        case Confirm(_, admin, amount) => ConfirmKeepsRecord(db, e, admin, amount, ev.tariffs, ev.now);
        case _ =>
      }
    }
  }

  /**
   * Over every sequence of calls the row's own amount, up to the tolerance, stays between the deposits and what the
   * search counts; so it stays equal to the deposits, if the search finds no deposit of another invoice.
   */
  lemma {:induction false} RecordedIsCredited(db: Db, events: seq<Event>, e: string)
    requires Sound(db) && Records(db, e)
    ensures var after := HandleAll(db, events);
            Sound(after) && Records(after, e) && Agrees(after, e)
  {
    if events != [] {
      var before, last := HandleAll(db, events[..|events| - 1]), events[|events| - 1];
      RecordedIsCredited(db, events[..|events| - 1], e);
      HandleTouches(before, last);
      CallKeepsRecord(before, last, e);
    }
    RecordsAgree(HandleAll(db, events), e);
  }
}
