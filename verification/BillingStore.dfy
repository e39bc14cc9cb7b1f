/** The billing services on mutable tables, statement by statement, proved equal to the functions of `Payments`. */
module BillingStore {
  import opened Rows
  import opened Ledger
  import opened Payments
  import opened Books
  import opened Protocol
  import opened Safety
  import opened Effects

  /** A review by an admin stamps the row and clears an earlier rejection. */
  function Reviewed(inv: Invoice, review: Option<nat>): Invoice {
    if review.Some? then inv.(approvedBy := review, rejection := None) else inv
  }

  /** On sound books a payment update credits what is missing, charges at most once, and touches no other invoice. */
  lemma UpdateSettles(db: Db, ext: string, snap: Snapshot, tariffs: Tariffs, now: int)
    requires Sound(db) && 'I' !in snap.status
    ensures var after := ApplyUpdate(db, ext, snap, tariffs, now).db;
            && Sound(after) && OthersUntouched(db, after, ext)
            && (ext in db.invoices ==>
                  && Deposits(after.ledger, ext)
                     == Deposits(db.ledger, ext)
                       + Max(EffectiveFor(db.invoices[ext], snap.amount) - Counted(db, ext), 0)
                  && Charges(after.ledger, ext) <= 1)
  {
    if ext in db.invoices {
      var inv := db.invoices[ext];
      assert InvoiceOk(db, ext, inv);
      var note := ProviderDeposit(inv.provider, ext, snap.status);
      SettleEffect(db, ext, UpdatedRow(inv, snap), EffectiveFor(inv, snap.amount), note, tariffs, now);
      assert ext in ApplyUpdate(db, ext, snap, tariffs, now).db.invoices;
    }
  }

  lemma ApprovalSettles(db: Db, ext: string, admin: nat, amount: int, tariffs: Tariffs, now: int)
    requires Sound(db)
    ensures var after := ApplyApproval(db, ext, admin, amount, tariffs, now).db;
            && Sound(after) && OthersUntouched(db, after, ext)
            && (ext in db.invoices ==> Charges(after.ledger, ext) <= 1)
  {
    if ext in db.invoices {
      var inv := db.invoices[ext];
      assert InvoiceOk(db, ext, inv) && Charges(db.ledger, ext) <= 1;
      if amount > 0 && inv.provider == MANUAL && !AlreadyApproved(inv, amount) {
        var row := ApprovedRow(inv, admin, amount);
        SettleEffect(db, ext, row, Effective(row.actual, inv.expected), ManualDeposit(ext, admin), tariffs, now);
        assert ext in ApplyApproval(db, ext, admin, amount, tariffs, now).db.invoices;
      }
    }
  }

  /** The tables of one database session. */
  class Store {
    var users: map<nat, User>
    var invoices: map<string, Invoice>
    var ledger: seq<Transaction>

    ghost function Contents(): Db
      reads this
    {
      Db(users, invoices, ledger)
    }

    constructor (db: Db)
      ensures Contents() == db
    {
      users, invoices, ledger := db.users, db.invoices, db.ledger;
    }

    // ----- billing_service -----

    method AdjustUserBalance(uid: nat, amount: int, kind: TxKind, note: Note) returns (balance: Option<int>)
      modifies this
      ensures balance.Some? <==> uid in old(users)
      ensures balance.Some? ==>
                && users == old(users)[uid := old(users)[uid].(balance := balance.value)]
                && balance.value == old(users)[uid].balance + amount
                && ledger == old(ledger) + [Transaction(uid, amount, kind, note)] && invoices == old(invoices)
      ensures balance.None? ==> Contents() == old(Contents())
    {
      if uid !in users { return None; }
      var user := users[uid];
      users := users[uid := user.(balance := user.balance + amount)];
      ledger := ledger + [Transaction(uid, amount, kind, note)];
      return Some(users[uid].balance);
    }

    method ExtendUserSubscription(uid: nat, seconds: int, now: int) returns (newEnd: Option<int>)
      modifies this
      ensures newEnd.Some? <==> uid in old(users)
      ensures newEnd.Some? ==>
                && users == old(users)[uid := old(users)[uid].(subscriptionEnd := newEnd)]
                && ledger == old(ledger) && invoices == old(invoices)
      ensures newEnd.Some? ==>
                var end := old(users)[uid].subscriptionEnd;
                newEnd.value == (if end.Some? && end.value > now then end.value else now) + seconds
      ensures newEnd.None? ==> Contents() == old(Contents())
    {
      if uid !in users { return None; }
      var user := users[uid];
      var currentEnd := now;
      if user.subscriptionEnd.Some? && user.subscriptionEnd.value > now {
        currentEnd := user.subscriptionEnd.value;
      }
      users := users[uid := user.(subscriptionEnd := Some(currentEnd + seconds))];
      return Some(currentEnd + seconds);
    }

    method UpdateInvoiceRecord(ext: string, actual: int, status: Status, native: Option<int>) returns (found: bool)
      modifies this
      ensures found <==> ext in old(invoices)
      ensures found ==> Contents() == SetInvoice(old(Contents()), ext,
                          old(invoices)[ext].(actual := actual, status := status,
                            actualNative := native.GetOr(old(invoices)[ext].actualNative)))
      ensures !found ==> Contents() == old(Contents())
    {
      if ext !in invoices { return false; }
      var inv := invoices[ext];
      inv := inv.(actual := actual, status := status);
      if native.Some? {
        inv := inv.(actualNative := native.value);
      }
      invoices := invoices[ext := inv];
      return true;
    }

    method UpdateInvoiceReviewMetadata(ext: string, approvedBy: Option<nat>, screenshot: Option<string>,
        rejection: Option<string>) returns (found: bool)
      modifies this
      ensures found <==> ext in old(invoices)
      ensures found ==> Contents() == SetInvoice(old(Contents()), ext,
                          old(invoices)[ext].(approvedBy := approvedBy, screenshot := screenshot,
                            rejection := rejection))
      ensures !found ==> Contents() == old(Contents())
    {
      if ext !in invoices { return false; }
      invoices := invoices[ext := invoices[ext].(approvedBy := approvedBy, screenshot := screenshot,
        rejection := rejection)];
      return true;
    }

    method ResetInvoiceForRetry(ext: string) returns (found: bool)
      modifies this
      ensures found <==> ext in old(invoices)
      ensures found ==>
                Contents() == SetInvoice(old(Contents()), ext,
                  old(invoices)[ext].(status := PENDING, screenshot := None, approvedBy := None))
      ensures !found ==> Contents() == old(Contents())
    {
      if ext !in invoices { return false; }
      invoices := invoices[ext := invoices[ext].(status := PENDING, screenshot := None, approvedBy := None)];
      return true;
    }

    method CreateInvoice(uid: nat, p: Provider, days: int, hex: string, tariffs: Tariffs, now: int,
        expiresAt: Option<int>) returns (created: bool)
      modifies this
      ensures Contents() == OpenInvoice(old(Contents()), uid, p, days, hex, tariffs, now, expiresAt)
      ensures created <==> Contents() != old(Contents())
      ensures created <==>
                && uid in old(users) && days in tariffs && tariffs[days] != 0
                && old(users)[uid].balance < tariffs[days] && ShopId(p, uid, hex) !in old(invoices)
      ensures created ==>
                var ext, price := ShopId(p, uid, hex), tariffs[days] - old(users)[uid].balance;
                && ext !in old(invoices) && price > 0 && users == old(users) && ledger == old(ledger)
                && invoices == old(invoices)[ext := Invoice(uid, p, price, 0, 0,
                     Payload(Some("sub"), Some(days), Some(price)), PENDING, now, expiresAt, None, None, None)]
      ensures Sound(old(Contents())) && HexTail(hex) ==> Sound(Contents())
    {
      if Sound(Contents()) && HexTail(hex) {
        OpenKeepsSound(Contents(), uid, p, days, hex, tariffs, now, expiresAt);
      }
      if uid !in users || days !in tariffs || tariffs[days] == 0 { return false; }
      var price, balance := tariffs[days], users[uid].balance;
      if balance >= price { return false; }
      var ext := ShopId(p, uid, hex);
      if ext in invoices { return false; }
      var row := Invoice(uid, p, price - balance, 0, 0, Payload(Some("sub"), Some(days), Some(price - balance)),
        PENDING, now, expiresAt, None, None, None);
      invoices := invoices[ext := row];
      assert ext !in old(invoices);
      return true;
    }

    method ActivateSubscriptionLogic(uid: nat, days: int, bonus: int, now: int) returns (newEnd: Option<int>)
      modifies this
      ensures newEnd.Some? <==> uid in old(users)
      ensures newEnd.Some? ==> Contents() == Reward(Extend(old(Contents()), uid, days * DAY, now), uid, bonus)
      ensures newEnd.None? ==> Contents() == old(Contents())
    {
      if uid !in users { return None; }
      newEnd := ExtendUserSubscription(uid, days * DAY, now);
      var referrer := users[uid].referrer;
      if referrer.Some? && bonus > 0 && referrer.value in users {
        var r := users[referrer.value];
        users := users[referrer.value := r.(balance := r.balance + bonus)];
        ledger := ledger + [Transaction(referrer.value, bonus, REWARD, ReferralReward(uid))];
      }
    }

    method ChargeAndActivateSubscription(uid: nat, days: int, price: int, note: Note, bonus: int, now: int)
        returns (newEnd: Option<int>)
      modifies this
      ensures Contents() == ChargeAndActivate(old(Contents()), uid, days, price, note, bonus, now)
      ensures newEnd.Some? <==> CanPay(old(Contents()), uid, price)
    {
      if uid !in users || users[uid].balance < price { return None; }
      var balance := AdjustUserBalance(uid, -price, WITHDRAW, note);
      newEnd := ActivateSubscriptionLogic(uid, days, bonus, now);
    }

    method PurchaseSubscription(uid: nat, days: nat, price: int, bonus: int, now: int) returns (newEnd: Option<int>)
      modifies this
      ensures Contents() == ChargeAndActivate(old(Contents()), uid, days, price, Purchase(days), bonus, now)
      ensures newEnd.Some? <==> uid in old(users) && old(users)[uid].balance >= price
      ensures newEnd.Some? ==> IsBought(old(Contents()), Contents(), uid, days, price, Purchase(days), bonus, now)
      ensures Sound(old(Contents())) ==> Sound(Contents()) && BooksElsewhere(old(Contents()), Contents())
    {
      PurchaseEffect(Contents(), uid, days, price, Purchase(days), bonus, now);
      if Sound(Contents()) {
        ChargeAndActivateKeepsBooks(Contents(), uid, days, price, Purchase(days), bonus, now);
      }
      newEnd := ChargeAndActivateSubscription(uid, days, price, Purchase(days), bonus, now);
    }

    method ApplyCommunityBonus(uid: nat, hours: nat, text: string, now: int) returns (newEnd: Option<int>)
      modifies this
      ensures Contents() == CommunityBonus(old(Contents()), uid, hours, text, now)
      ensures newEnd.Some? <==> uid in old(users) && !old(users)[uid].communityBonusUsed
      ensures newEnd.Some? ==>
                IsGranted(old(Contents()), Contents(), uid, old(users)[uid].(communityBonusUsed := true), hours, text,
                  now)
                && newEnd == users[uid].subscriptionEnd
    {
      BonusEffect(Contents(), uid, hours, text, now);
      if uid !in users || users[uid].communityBonusUsed { return None; }
      users := users[uid := users[uid].(communityBonusUsed := true)];
      newEnd := ExtendUserSubscription(uid, hours * 3600, now);
      ledger := ledger + [Transaction(uid, 0, BONUS, BonusNote(text))];
      assert users == old(users)[uid := users[uid]];
      assert users[uid] == users[uid].(balance := users[uid].balance + 0);
    }

    // ----- billing_processor -----

    /** Credits the missing amount and writes the invoice row; the first half of both processors. */
    method CreditAndSave(ext: string, effective: int, actual: int, status: Status, native: Option<int>,
        review: Option<nat>, note: Note) returns (dto: PaymentUpdate)
      requires ext in invoices && invoices[ext].userId in users
      modifies this
      ensures var inv := old(invoices)[ext];
              var row := Reviewed(inv.(actual := actual, status := status,
                actualNative := native.GetOr(inv.actualNative)), review);
              && Contents() == SetInvoice(Credit(old(Contents()), ext, inv.userId, effective, note), ext, row)
              && inv.userId in users
              && dto == SettledUpdate(row, effective, effective - Credited(old(ledger), inv.userId, ext),
                users[inv.userId].balance)
    {
      var inv := invoices[ext];
      var uid := inv.userId;
      var delta := effective - Credited(ledger, uid, ext);
      dto := PaymentUpdate(status == PAID, 0, false, users[uid].balance, None,
                           StatusProblem(status), actual, inv.expected, Some(status),
                           Max(inv.expected - effective, 0), inv.payload.action, inv.payload.days);
      if delta > 0 {
        var balance := AdjustUserBalance(uid, delta, DEPOSIT, note);
        dto := dto.(delta := delta, newBalance := balance.value);
      }
      assert Contents() == Credit(old(Contents()), ext, uid, effective, note);
      SaveInvoice(ext, actual, status, native, review);
    }

    method SaveInvoice(ext: string, actual: int, status: Status, native: Option<int>, review: Option<nat>)
      requires ext in invoices
      modifies this
      ensures var inv := old(invoices)[ext];
              Contents() == SetInvoice(old(Contents()), ext,
                              Reviewed(inv.(actual := actual, status := status,
                                actualNative := native.GetOr(inv.actualNative)), review))
    {
      var found := UpdateInvoiceRecord(ext, actual, status, native);
      if review.Some? {
        found := UpdateInvoiceReviewMetadata(ext, review, invoices[ext].screenshot, None);
      }
    }

    /** Activates what the invoice was opened for; the second half. `before` is what a rollback restores. */
    method FulfilIntent(ext: string, uid: nat, days: int, tariffs: Tariffs, now: int, saved: PaymentUpdate, before: Db)
        returns (dto: PaymentUpdate)
      requires uid in users
      modifies this
      ensures Outcome(Contents(), dto) == Fulfil(before, old(Contents()), ext, uid, days, tariffs, now, saved)
    {
      dto := saved;
      var rows := ChargeRows(ledger, uid, ext);
      if rows > 1 {
        users, invoices, ledger := before.users, before.invoices, before.ledger;
        return Failed(UnexpectedError, None);
      }
      if rows == 1 {
        return dto.(subActivated := true, newEnd := users[uid].subscriptionEnd);
      }
      var price := PriceOf(tariffs, days);
      if price <= 0 {
        dto := dto.(problem := Some(SubscriptionPriceNotFound));
      } else if dto.newBalance < price {
        dto := dto.(problem := Some(InsufficientBalance), needed := Max(price - dto.newBalance, 0));
      } else {
        var newEnd := ExtendUserSubscription(uid, days * DAY, now);
        var balance := AdjustUserBalance(uid, -price, WITHDRAW, DirectPay(ext));
        dto := dto.(subActivated := true, newEnd := newEnd, newBalance := balance.value);
      }
    }

    /** The statements both processors share once the invoice and the user are locked. */
    method SettleAndFulfil(ext: string, effective: int, actual: int, status: Status, native: Option<int>,
        review: Option<nat>, note: Note, tariffs: Tariffs, now: int) returns (dto: PaymentUpdate)
      requires ext in invoices && invoices[ext].userId in users
      modifies this
      ensures var inv := old(invoices)[ext];
              var row := Reviewed(inv.(actual := actual, status := status,
                actualNative := native.GetOr(inv.actualNative)), review);
              Outcome(Contents(), dto) == Settle(old(Contents()), ext, row, effective, note, tariffs, now)
    {
      var before, inv := Db(users, invoices, ledger), invoices[ext];
      dto := CreditAndSave(ext, effective, actual, status, native, review, note);
      if status == PAID && WantsSubscription(inv.payload) {
        dto := FulfilIntent(ext, inv.userId, inv.payload.days.value, tariffs, now, dto, before);
      }
    }

    method ProcessPaymentUpdate(ext: string, snap: Snapshot, tariffs: Tariffs, now: int) returns (dto: PaymentUpdate)
      modifies this
      ensures Outcome(Contents(), dto) == ApplyUpdate(old(Contents()), ext, snap, tariffs, now)
      ensures Sound(old(Contents())) && 'I' !in snap.status ==>
                Sound(Contents()) && OthersUntouched(old(Contents()), Contents(), ext)
      ensures Sound(old(Contents())) && 'I' !in snap.status && ext in old(invoices) ==>
                && Deposits(ledger, ext) == old(Deposits(ledger, ext))
                     + Max(EffectiveFor(old(invoices)[ext], snap.amount) - Counted(old(Contents()), ext), 0)
                && Charges(ledger, ext) <= 1
      ensures Sound(old(Contents())) && 'I' !in snap.status && ext in old(invoices) ==>
                && ext in invoices && IsChecked(old(invoices)[ext], invoices[ext], snap)
                && IsProcessed(old(Contents()), Outcome(Contents(), dto), ext,
                    ProviderDeposit(old(invoices)[ext].provider, ext, snap.status), tariffs, now)
    {
      if Sound(Contents()) && 'I' !in snap.status {
        UpdateSettles(Contents(), ext, snap, tariffs, now);
        UpdateEffect(Contents(), ext, snap, tariffs, now);
      }
      if ext !in invoices { return Failed(InvoiceNotFound, None); }
      var inv := invoices[ext];
      if inv.userId !in users { return Refused(inv, UserNotFound); }
      var resolved, effective := snap.amount, snap.amount;
      var native := None;
      if inv.provider == CACTUS {
        native := Some(snap.native);
      } else {
        resolved := Max(snap.amount, inv.actual);
        effective := Effective(resolved, inv.expected);
      }
      var target := ResolveStatus(snap.status, effective, inv.expected);
      dto := SettleAndFulfil(ext, effective, resolved, target, native, None,
        ProviderDeposit(inv.provider, ext, snap.status), tariffs, now);
    }

    method ProcessManualApproval(ext: string, admin: nat, amount: int, tariffs: Tariffs, now: int)
        returns (dto: PaymentUpdate)
      modifies this
      ensures Outcome(Contents(), dto) == ApplyApproval(old(Contents()), ext, admin, amount, tariffs, now)
      ensures Sound(old(Contents())) ==> Sound(Contents()) && OthersUntouched(old(Contents()), Contents(), ext)
      ensures Sound(old(Contents())) && ext in old(invoices) ==> Charges(ledger, ext) <= 1
      ensures Sound(old(Contents())) && ext in old(invoices) && old(invoices)[ext].provider == MANUAL && amount > 0
              && !(old(invoices)[ext].status == PAID && amount <= old(invoices)[ext].actual) ==>
                && ext in invoices && IsApproved(old(invoices)[ext], invoices[ext], admin, amount)
                && IsProcessed(old(Contents()), Outcome(Contents(), dto), ext, ManualDeposit(ext, admin), tariffs, now)
    {
      if Sound(Contents()) {
        ApprovalSettles(Contents(), ext, admin, amount, tariffs, now);
        ApprovalEffect(Contents(), ext, admin, amount, tariffs, now);
      }
      if amount <= 0 { return Failed(InvalidManualAmount, Some(PENDING)); }
      if ext !in invoices { return Failed(InvoiceNotFound, None); }
      var inv := invoices[ext];
      if inv.userId !in users { return Refused(inv, UserNotFound); }
      if inv.provider != MANUAL {
        return Refused(inv, ManualProviderMismatch).(newBalance := users[inv.userId].balance);
      }
      if inv.status == PAID && amount <= inv.actual {
        return RepeatedApproval(Db(users, invoices, ledger), ext, inv);
      }
      var resolved := if amount < inv.actual then inv.actual else amount;
      var effective := Effective(resolved, inv.expected);
      var target := ResolveStatus("manual", effective, inv.expected);
      dto := SettleAndFulfil(ext, effective, resolved, target, None, Some(admin), ManualDeposit(ext, admin), tariffs,
        now);
    }

    // ----- handlers and workers -----

    /** The screenshot handler, run without interference. */
    method SubmitScreenshot(ext: string, uid: nat, screenshot: string) returns (accepted: bool)
      modifies this
      ensures accepted <==>
                ext in old(invoices) && old(invoices)[ext].userId == uid && UploadAllowed(old(invoices)[ext])
      ensures accepted ==>
                Contents() == SetInvoice(old(Contents()), ext,
                  UploadedRow(old(invoices)[ext], old(invoices)[ext].actual, screenshot))
      ensures accepted ==>
                invoices == old(invoices)[ext := old(invoices)[ext].(status := WAITING_ADMIN,
                  screenshot := Some(screenshot), approvedBy := None, rejection := None)]
      ensures !accepted ==> Contents() == old(Contents())
    {
      if ext !in invoices || invoices[ext].userId != uid || !UploadAllowed(invoices[ext]) { return false; }
      accepted := UpdateInvoiceRecord(ext, invoices[ext].actual, WAITING_ADMIN, None);
      accepted := UpdateInvoiceReviewMetadata(ext, None, Some(screenshot), None);
    }

    /** The rejection handler, run without interference. */
    method RejectPayment(ext: string, admin: nat, reason: string) returns (rejected: bool)
      modifies this
      ensures rejected <==> ext in old(invoices) && RejectAllowed(old(invoices)[ext])
      ensures rejected ==>
                Contents() == SetInvoice(old(Contents()), ext, RejectedRow(old(invoices)[ext], admin, reason))
      ensures rejected ==>
                invoices == old(invoices)[ext := old(invoices)[ext].(status := PENDING, screenshot := None,
                  approvedBy := Some(admin), rejection := Some(reason))]
      ensures !rejected ==> Contents() == old(Contents())
    {
      if ext !in invoices || invoices[ext].provider != MANUAL || invoices[ext].status == PAID { return false; }
      rejected := ResetInvoiceForRetry(ext);
      rejected := UpdateInvoiceReviewMetadata(ext, Some(admin), None, Some(reason));
    }

    method DegradeUserToFreeTier(uid: nat) returns (found: bool)
      modifies this
      ensures found <==> uid in old(users)
      ensures found ==> Contents() == Degrade(old(Contents()), uid)
      ensures !found ==> Contents() == old(Contents())
    {
      if uid !in users { return false; }
      users := users[uid := users[uid].(subscriptionEnd := None)];
      return true;
    }

    method HandleAutoRenewal(uid: nat, price: int, bonus: int, now: int, later: int) returns (renewed: bool)
      requires uid in users
      modifies this
      ensures renewed <==> Renews(old(users)[uid], price, now)
      ensures Contents() == if renewed
                            then ChargeAndActivate(old(Contents()), uid, RENEWAL_DAYS, price, AutoRenewal, bonus, later)
                            else old(Contents())
    {
      var user := users[uid];
      if user.subscriptionEnd.None? { return false; }
      var left := user.subscriptionEnd.value - now;
      if !(0 <= left <= RENEWAL_WINDOW) || !user.autoRenewal { return false; }
      if user.balance >= price {
        var newEnd := ChargeAndActivateSubscription(uid, RENEWAL_DAYS, price, AutoRenewal, bonus, later);
        return newEnd.Some?;
      }
      return false;
    }

    /** One user of a bouncer pass. */
    method VisitUser(uid: nat, price: int, bonus: int, now: int, later: int)
      modifies this
      ensures Contents() == Bounce(old(Contents()), uid, price, bonus, now, later)
      ensures uid in old(users) && Renews(old(users)[uid], price, now) ==>
                IsBought(old(Contents()), Contents(), uid, 30, price, AutoRenewal, bonus, later)
      ensures uid in old(users) && !Renews(old(users)[uid], price, now) ==>
                var u := old(users)[uid];
                var ends := u.subscriptionEnd.Some? && u.subscriptionEnd.value <= now;
                && users == old(users)[uid := u.(subscriptionEnd := if ends then None else u.subscriptionEnd)]
                && ledger == old(ledger) && invoices == old(invoices)
    {
      VisitEffect(Contents(), uid, price, bonus, now, later);
      if uid !in users || users[uid].subscriptionEnd.None? { return; }
      var renewed := HandleAutoRenewal(uid, price, bonus, now, later);
      if !renewed && users[uid].subscriptionEnd.value <= now {
        var found := DegradeUserToFreeTier(uid);
      }
    }

    /** The switch in the wallet. */
    method ToggleAutoRenewal(uid: nat) returns (found: bool)
      modifies this
      ensures found <==> uid in old(users)
      ensures found ==>
                Contents() == SetAutoRenewal(old(Contents()), uid, !old(users)[uid].autoRenewal)
                && users[uid].autoRenewal == !old(users)[uid].autoRenewal
      ensures !found ==> Contents() == old(Contents())
    {
      if uid !in users { return false; }
      users := users[uid := users[uid].(autoRenewal := !users[uid].autoRenewal)];
      return true;
    }

    method GetOrCreateUser(uid: nat, referrer: Option<nat>)
      modifies this
      ensures Contents() == Register(old(Contents()), uid, referrer)
      ensures uid in users && forall v <- old(users) :: v in users && users[v] == old(users)[v]
      ensures uid !in old(users) ==>
                forall r :: users[uid].referrer == Some(r) <==>
                  referrer == Some(r) && r != 0 && r != uid && r in old(users)
    {
      if uid in users { return; }
      var valid := None;
      if referrer.Some? && referrer.value != 0 && referrer.value != uid {
        if referrer.value in users { valid := referrer; }
      }
      users := users[uid := User(0, None, valid, true, false, false)];
    }
  }

  // ----- invoice reuse -----

  const REUSE_LIMIT := 20

  predicate Reusable(inv: Invoice, days: int, amount: int, now: int) {
    && inv.expiresAt.Some? && inv.expiresAt.value > now
    && inv.payload == Payload(Some("sub"), Some(days), Some(amount))
  }

  predicate IsCandidate(inv: Invoice, uid: nat) {
    inv.userId == uid && inv.provider == CACTUS && inv.status == PENDING && inv.expiresAt.Some?
  }

  /** The rows the query selects, in the order in which it visits them, at most `limit` of them. */
  function Candidates(rows: seq<Invoice>, uid: nat, limit: nat): (r: seq<Invoice>)
    ensures |r| <= limit && forall inv <- r :: inv in rows && IsCandidate(inv, uid)
  {
    if rows == [] || limit == 0 then []
    else if IsCandidate(rows[0], uid) then [rows[0]] + Candidates(rows[1..], uid, limit - 1)
    else Candidates(rows[1..], uid, limit)
  }

  /** Newest first. */
  ghost predicate NewestFirst(rows: seq<Invoice>) {
    forall i, j | 0 <= i < j < |rows| :: rows[i].createdAt >= rows[j].createdAt
  }

  lemma {:induction false} CandidatesStaySorted(rows: seq<Invoice>, uid: nat, limit: nat)
    requires NewestFirst(rows)
    ensures NewestFirst(Candidates(rows, uid, limit))
    decreases |rows|
  {
    if rows != [] && limit > 0 {
      var rest := Candidates(rows[1..], uid, if IsCandidate(rows[0], uid) then limit - 1 else limit);
      CandidatesStaySorted(rows[1..], uid, if IsCandidate(rows[0], uid) then limit - 1 else limit);
      forall k | 0 <= k < |rest| ensures rows[0].createdAt >= rest[k].createdAt {
        assert rest[k] in rows[1..];
      }
    }
  }

  /**
   * `rows` are all invoices, newest first. Found is the newest of the user's last twenty pending CACTUS invoices that
   * asks for the same plan and amount and has not run out; there is none exactly if none of them fits.
   */
  method FindActiveCactusInvoice(rows: seq<Invoice>, uid: nat, days: int, amount: int, now: int)
      returns (found: Option<Invoice>)
    requires NewestFirst(rows)
    ensures var candidates := Candidates(rows, uid, REUSE_LIMIT);
            && (found.Some? <==> exists inv <- candidates :: Reusable(inv, days, amount, now))
            && (found.Some? ==>
                  && found.value in candidates && Reusable(found.value, days, amount, now)
                  && forall inv <- candidates :: Reusable(inv, days, amount, now) ==>
                    inv.createdAt <= found.value.createdAt)
  {
    var candidates := Candidates(rows, uid, REUSE_LIMIT);
    CandidatesStaySorted(rows, uid, REUSE_LIMIT);
    for i := 0 to |candidates|
      invariant forall k :: 0 <= k < i ==> !Reusable(candidates[k], days, amount, now)
    {
      var inv := candidates[i];
      if inv.expiresAt.None? || inv.expiresAt.value <= now { continue; }
      if inv.payload.action != Some("sub") { continue; }
      if inv.payload.days != Some(days) { continue; }
      if inv.payload.price != Some(amount) { continue; }
      assert inv in candidates && Reusable(inv, days, amount, now);
      forall other <- candidates | Reusable(other, days, amount, now) ensures other.createdAt <= inv.createdAt {
        var k :| 0 <= k < |candidates| && candidates[k] == other;
        assert k >= i;
      }
      return Some(inv);
    }
    assert forall k :: 0 <= k < |candidates| ==> !Reusable(candidates[k], days, amount, now);
    return None;
  }

  // ----- the polling worker -----

  predicate SettledAnswer(dto: PaymentUpdate) {
    || (dto.subActivated && dto.newEnd.Some?)
    || (dto.delta <= 0 && (dto.status == Some(EXPIRED) || dto.status == Some(PAID))
        && !(dto.action == Some("sub") && dto.isPaid && !dto.subActivated))
  }

  /** The worker's private timetable. */
  class PaymentManager {
    var nextPollAt: map<string, int>

    constructor ()
      ensures nextPollAt == map[]
    {
      nextPollAt := map[];
    }

    /** Looks at one invoice; the result says whether the provider must be asked. */
    method ProcessInvoice(store: Store, ext: string, now: int) returns (poll: bool)
      modifies this, store
      ensures ext !in old(store.invoices) ==>
                !poll && store.Contents() == old(store.Contents()) && nextPollAt == old(nextPollAt)
      ensures ext in old(store.invoices) ==>
                var inv := old(store.invoices)[ext];
                var d := WorkerDecision(inv, now);
                && (poll <==> d.Poll?)
                && store.Contents() == (if d.Expire?
                  then SetInvoice(old(store.Contents()), ext, inv.(status := EXPIRED)) else old(store.Contents()))
                && nextPollAt == (if d.Wait? || d.Poll? then old(nextPollAt)[ext := now + d.seconds]
                                 else old(nextPollAt) - {ext})
    {
      if ext !in store.invoices { return false; }
      var inv := store.invoices[ext];
      if inv.status != PENDING && inv.status != PARTIAL {
        nextPollAt := nextPollAt - {ext};
        return false;
      }
      var age := now - inv.createdAt;
      if inv.provider == MANUAL {
        if inv.status != PENDING || inv.screenshot.Some? {
          nextPollAt := nextPollAt - {ext};
          return false;
        }
        if age >= MANUAL_EXPIRE {
          store.invoices := store.invoices[ext := inv.(status := EXPIRED)];
          nextPollAt := nextPollAt - {ext};
          return false;
        }
        nextPollAt := nextPollAt[ext := now + 1800];
        return false;
      }
      var expired :=
        if inv.provider == CACTUS then inv.expiresAt.Some? && now >= inv.expiresAt.value else age >= INVOICE_EXPIRE;
      if expired {
        store.invoices := store.invoices[ext := inv.(status := EXPIRED)];
        nextPollAt := nextPollAt - {ext};
        return false;
      }
      nextPollAt := nextPollAt[ext := now + if age < FAST_POLL_UNTIL then 30 else 180];
      return true;
    }

    /**
     * The timetable once the provider was asked: a settled invoice is forgotten, except that one whose plan could not
     * be charged, or that was credited just now without a plan, keeps its entry until the next look at it.
     */
    method ForgetSettled(ext: string, dto: PaymentUpdate)
      modifies this
      ensures nextPollAt == if SettledAnswer(dto) then old(nextPollAt) - {ext} else old(nextPollAt)
      ensures ext in old(nextPollAt) ==>
                (ext !in nextPollAt <==>
                  if dto.subActivated then dto.newEnd.Some?
                    || (dto.delta <= 0 && dto.status in {Some(PAID), Some(EXPIRED)})
                  else dto.delta <= 0 && dto.status in {Some(PAID), Some(EXPIRED)}
                       && !(dto.isPaid && dto.action == Some("sub")))
    {
      if dto.subActivated && dto.newEnd.Some? {
        nextPollAt := nextPollAt - {ext};
      } else if dto.action == Some("sub") && dto.isPaid && !dto.subActivated {
      } else if dto.delta > 0 {
      } else if dto.status == Some(EXPIRED) || dto.status == Some(PAID) {
        nextPollAt := nextPollAt - {ext};
      }
    }
  }

  // ----- the Redis lock -----

  datatype LockResult = ACQUIRED(token: nat) | BUSY | ERROR

  class LockTable {
    var locks: map<nat, Lock>

    constructor ()
      ensures locks == map[]
    {
      locks := map[];
    }

    /** `token` is the fresh token drawn for this call. */
    method AcquireLock(uid: nat, token: nat, ttl: nat, now: int, redisUp: bool) returns (r: LockResult)
      modifies this
      ensures r == if !redisUp then ERROR else if Live(old(locks), uid, now) then BUSY else ACQUIRED(token)
      ensures locks == if redisUp then SetLock(old(locks), uid, token, ttl, now) else old(locks)
      ensures r.ACQUIRED? ==> !Live(old(locks), uid, now) && forall t :: Live(locks, uid, t) <==> t < now + ttl
    {
      if !redisUp { return ERROR; }
      if uid in locks && now < locks[uid].expiry { return BUSY; }
      locks := locks[uid := Lock(token, now + ttl)];
      return ACQUIRED(token);
    }

    method ReleaseLock(uid: nat, token: nat, now: int, redisUp: bool) returns (deleted: bool)
      modifies this
      ensures deleted <==> redisUp && Live(old(locks), uid, now) && old(locks)[uid].token == token
      ensures locks == if redisUp then Unlock(old(locks), uid, token, now) else old(locks)
      ensures forall u, t :: Live(locks, u, t) <==> Live(old(locks), u, t) && !(deleted && u == uid)
    {
      if redisUp && uid in locks && now < locks[uid].expiry && locks[uid].token == token {
        locks := locks - {uid};
        return true;
      }
      return false;
    }
  }
}
