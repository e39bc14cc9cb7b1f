/**
 * What the billing operations do, told on rows and ledger entries alone: which ends move by how much, which balances
 * change, what an invoice says afterwards, and what the caller is answered. The functions of `Payments` that compute
 * all this are not mentioned.
 */
module Effects {
  import opened Rows
  import opened Text
  import opened Ledger
  import opened Payments
  import opened Books

  // ----- purchases and renewals -----

  /** Everything that paying `days` days from the balance changes. */
  ghost predicate IsBought(db: Db, after: Db, uid: nat, days: int, price: int, note: Note, bonus: int, now: int)
    requires uid in db.users
  {
    var u := db.users[uid];
    var rewarded := u.referrer.Some? && u.referrer.value in db.users && bonus > 0;
    && after.invoices == db.invoices
    && after.users.Keys == db.users.Keys
    && after.ledger == db.ledger + [Transaction(uid, -price, WITHDRAW, note)]
         + (if rewarded then [Transaction(u.referrer.value, bonus, REWARD, ReferralReward(uid))] else [])
    && forall v <- db.users ::
         var end := if v == uid then Some(now + TimeLeft(u.subscriptionEnd, now) + days * 86400)
                    else db.users[v].subscriptionEnd;
         var paid := if v == uid then price else 0;
         var gained := if rewarded && v == u.referrer.value then bonus else 0;
         after.users[v] == db.users[v].(balance := db.users[v].balance - paid + gained, subscriptionEnd := end)
  }

  /** A purchase goes through exactly if the balance covers the price, and otherwise changes nothing. */
  lemma PurchaseEffect(db: Db, uid: nat, days: int, price: int, note: Note, bonus: int, now: int)
    ensures var after := ChargeAndActivate(db, uid, days, price, note, bonus, now);
            if uid in db.users && db.users[uid].balance >= price
            then IsBought(db, after, uid, days, price, note, bonus, now)
            else after == db
  {
  }

  /** The time a user has left grows by exactly the days bought; an end in the past counts as nothing left. */
  lemma BoughtTimeIsAdded(db: Db, after: Db, uid: nat, days: nat, price: int, note: Note, bonus: int, now: int)
    requires uid in db.users && IsBought(db, after, uid, days, price, note, bonus, now)
    ensures uid in after.users
    ensures TimeLeft(after.users[uid].subscriptionEnd, now)
              == TimeLeft(db.users[uid].subscriptionEnd, now) + days * 86400
  {
  }

  /** The reward is 15% to the nearest cent: exact where that is a whole number of cents, else the one or the other. */
  lemma RewardIsFifteenPercent(price: int, bonus: int)
    ensures price % 20 == 0 ==> (IsReferralBonus(price, bonus) <==> bonus == price / 20 * 3)
    ensures IsReferralBonus(price, bonus) <==>
              2 * (100 * bonus - 15 * price) <= 100 && 2 * (15 * price - 100 * bonus) <= 100
  {
  }

  /** Whether a visit renews: the user wants it, the end is at most an hour away and not past, the balance suffices. */
  predicate Renews(u: User, price: int, now: int) {
    && u.autoRenewal
    && u.subscriptionEnd.Some?
    && 0 <= u.subscriptionEnd.value - now <= 3600
    && u.balance >= price
  }

  /** A visit renews for 30 days, or takes an end away that is reached, or changes nothing. */
  lemma VisitEffect(db: Db, uid: nat, price: int, bonus: int, now: int, later: int)
    ensures var after := Bounce(db, uid, price, bonus, now, later);
            if uid !in db.users then after == db
            else
              var u := db.users[uid];
              if Renews(u, price, now) then IsBought(db, after, uid, 30, price, AutoRenewal, bonus, later)
              else if u.subscriptionEnd.Some? && u.subscriptionEnd.value <= now
              then after == db.(users := db.users[uid := u.(subscriptionEnd := None)])
              else after == db
  {
    PurchaseEffect(db, uid, 30, price, AutoRenewal, bonus, later);
  }

  /**
   * The price is taken if and only if the user wants renewal, is within the last hour and can pay; the subscription is
   * removed if and only if it has ended and was not renewed.
   */
  lemma VisitTakesExactly(db: Db, uid: nat, price: int, bonus: int, now: int, later: int)
    requires uid in db.users && db.users[uid].referrer != Some(uid) && price > 0
    ensures var u, after := db.users[uid], Bounce(db, uid, price, bonus, now, later);
            && uid in after.users
            && after.users[uid].balance == u.balance - (if Renews(u, price, now) then price else 0)
            && (u.subscriptionEnd.Some? ==>
                  (after.users[uid].subscriptionEnd.None?
                   <==> !Renews(u, price, now) && u.subscriptionEnd.value <= now))
  {
    VisitEffect(db, uid, price, bonus, now, later);
  }

  // ----- orders -----

  /** An order opens an invoice exactly if the plan has a price that the balance does not cover and the id is new. */
  lemma OrderEffect(db: Db, uid: nat, p: Provider, days: int, hex: string, tariffs: Tariffs, now: int,
      expiresAt: Option<int>)
    ensures var after := OpenInvoice(db, uid, p, days, hex, tariffs, now, expiresAt);
            var ext, price := ShopId(p, uid, hex), if days in tariffs then tariffs[days] else 0;
            if uid in db.users && price != 0 && db.users[uid].balance < price && ext !in db.invoices then
              var due := price - db.users[uid].balance;
              && after.users == db.users && after.ledger == db.ledger
              && after.invoices == db.invoices[ext := Invoice(uid, p, due, 0, 0,
                   Payload(Some("sub"), Some(days), Some(due)), PENDING, now, expiresAt, None, None, None)]
            else after == db
  {
  }

  // ----- free periods, registration -----

  /** A free period of `hours` hours, granted to a row in which a flag has been set. */
  ghost predicate IsGranted(db: Db, after: Db, uid: nat, flagged: User, hours: int, text: string, now: int)
    requires uid in db.users
  {
    var end := now + TimeLeft(db.users[uid].subscriptionEnd, now) + hours * 3600;
    && after.users == db.users[uid := flagged.(subscriptionEnd := Some(end))]
    && after.ledger == db.ledger + [Transaction(uid, 0, BONUS, BonusNote(text))]
    && after.invoices == db.invoices
  }

  /** Each bonus is granted exactly if its flag is not set, and sets it; the second time nothing happens. */
  lemma BonusEffect(db: Db, uid: nat, hours: nat, text: string, now: int)
    ensures var after := CommunityBonus(db, uid, hours, text, now);
            if uid in db.users && !db.users[uid].communityBonusUsed
            then IsGranted(db, after, uid, db.users[uid].(communityBonusUsed := true), hours, text, now)
            else after == db
    ensures var after := ActivateTrial(db, uid, hours, text, now);
            if uid in db.users && !db.users[uid].trialUsed
            then IsGranted(db, after, uid, db.users[uid].(trialUsed := true), hours, text, now)
            else after == db
  {
    if uid in db.users {
      var u := db.users[uid];
      Granted(db, uid, u.(communityBonusUsed := true), hours, text, now);
      Granted(db, uid, u.(trialUsed := true), hours, text, now);
    }
  }

  lemma Granted(db: Db, uid: nat, flagged: User, hours: nat, text: string, now: int)
    requires uid in db.users && flagged.subscriptionEnd == db.users[uid].subscriptionEnd
    ensures IsGranted(db, GrantBonus(db.(users := db.users[uid := flagged]), uid, hours, text, now), uid, flagged,
              hours,
                      text, now)
  {
    var u := flagged.(subscriptionEnd := Some(now + TimeLeft(flagged.subscriptionEnd, now) + hours * 3600));
    assert u.(balance := u.balance + 0) == u;
    Overwrite(db.users, uid, flagged, u);
    assert Extend(db.(users := db.users[uid := flagged]), uid, hours * 3600, now).users == db.users[uid := u];
    Overwrite(db.users, uid, u, u);
  }

  /** A new user starts with nothing but, perhaps, a referrer who exists and is somebody else; an old row stays. */
  lemma RegistrationEffect(db: Db, uid: nat, referrer: Option<nat>)
    ensures var after := Register(db, uid, referrer);
            && after.invoices == db.invoices && after.ledger == db.ledger
            && uid in after.users
            && (forall v <- db.users :: v in after.users && after.users[v] == db.users[v])
            && (forall v <- after.users :: v in db.users || v == uid)
            && (uid !in db.users ==>
                  var u := after.users[uid];
                  && u.balance == 0 && u.subscriptionEnd.None? && u.autoRenewal && !u.trialUsed && !u.communityBonusUsed
                  && forall r :: u.referrer == Some(r) <==>
                       referrer == Some(r) && r != 0 && r != uid && r in db.users)
  {
  }

  // ----- what an invoice says afterwards -----

  /** A provider gives an invoice up in exactly six words. */
  lemma GivenUpExactly(s: string)
    ensures IsExpiredStatus(s) <==>
              || Says(s, "expired") || Says(s, "cancel") || Says(s, "cancelled")
              || Says(s, "deleted") || Says(s, "fail") || Says(s, "system_fail")
  {
    NormalisedSays(s, "expired");
    NormalisedSays(s, "cancel");
    NormalisedSays(s, "cancelled");
    NormalisedSays(s, "deleted");
    NormalisedSays(s, "fail");
    NormalisedSays(s, "system_fail");
  }

  // ----- what the caller of a payment check or an approval is answered -----

  /** The answer repeats what is stored by then: row, balance, end and booking. */
  ghost predicate TellsWhatIsStored(dto: PaymentUpdate, db: Db, after: Db, ext: string)
    requires ext in after.invoices && after.invoices[ext].userId in after.users
  {
    var row, owner := after.invoices[ext], after.users[after.invoices[ext].userId];
    && (dto.isPaid <==> row.status == PAID)
    && dto.status == Some(row.status)
    && dto.actual == row.actual
    && dto.expected == row.expected
    && dto.action == row.payload.action
    && dto.days == row.payload.days
    && dto.newBalance == owner.balance
    && dto.delta == Deposits(after.ledger, ext) - Deposits(db.ledger, ext)
    && dto.newEnd == (if dto.subActivated then owner.subscriptionEnd else None)
  }

  /** A paid invoice for a plan that is not charged. */
  ghost predicate AwaitsPlan(db: Db, ext: string)
    requires ext in db.invoices
  {
    var row := db.invoices[ext];
    && row.status == PAID && row.payload.action == Some("sub")
    && row.payload.days.Some? && row.payload.days.value != 0
    && Charges(db.ledger, ext) == 0
  }

  /** The plan's price today; a plan without one costs nothing. */
  function PlanPrice(row: Invoice, tariffs: Tariffs): int {
    if row.payload.days.Some? && row.payload.days.value in tariffs then tariffs[row.payload.days.value] else 0
  }

  /**
   * The problem answered fits the state left behind: one for each status but PAID, and for a paid invoice whose plan is
   * not charged, that the plan has no price or that the balance is short, by the amount said.
   */
  ghost predicate NamesTheProblem(dto: PaymentUpdate, after: Db, ext: string, tariffs: Tariffs)
    requires ext in after.invoices && after.invoices[ext].userId in after.users
  {
    var row, balance := after.invoices[ext], after.users[after.invoices[ext].userId].balance;
    var price, awaits := PlanPrice(row, tariffs), AwaitsPlan(after, ext);
    && (dto.problem == Some(PartialPayment) <==> row.status == PARTIAL)
    && (dto.problem == Some(PaymentPending) <==> row.status == PENDING)
    && (dto.problem == Some(InvoiceExpired) <==> row.status == EXPIRED)
    && (dto.problem == Some(SubscriptionPriceNotFound) <==> awaits && price <= 0)
    && (dto.problem == Some(InsufficientBalance) <==> awaits && 0 < price)
    && (dto.problem == None <==> row.status == PAID && !awaits)
    && (awaits && 0 < price ==> balance < price && dto.needed == price - balance)
    && (row.status != PAID ==> dto.needed == Max(row.expected - row.actual, 0))
    && (row.status == PAID && !(awaits && 0 < price) ==> dto.needed == 0)
    && (dto.subActivated <==> row.status == PAID && row.payload.action == Some("sub") && row.payload.days.Some?
                              && row.payload.days.value != 0 && !awaits)
  }

  /** Nothing was done: not paid, nothing credited or activated, and the reason. */
  predicate IsRefusal(dto: PaymentUpdate, problem: Problem, status: Option<Status>) {
    && !dto.isPaid && dto.delta == 0 && !dto.subActivated && dto.newEnd.None?
    && dto.problem == Some(problem) && dto.status == status
    && dto.needed == 0 && dto.action.None? && dto.days.None?
  }

  /** And nothing is known of an invoice or a user. */
  predicate IsBlankRefusal(dto: PaymentUpdate, problem: Problem, status: Option<Status>) {
    IsRefusal(dto, problem, status) && dto.actual == 0 && dto.expected == 0 && dto.newBalance == 0
  }

  /** The refusal says what the invoice is like. */
  predicate IsRefusalOf(dto: PaymentUpdate, inv: Invoice, problem: Problem) {
    IsRefusal(dto, problem, Some(inv.status)) && dto.actual == inv.actual && dto.expected == inv.expected
  }

  lemma AnswerOfSettling(db: Db, ext: string, row: Invoice, effective: int, note: Note, tariffs: Tariffs, now: int)
    requires Sound(db) && ext in db.invoices && SameContract(db.invoices[ext], row) && NoteFor(note, ext)
               && row.userId in db.users && row.status != WAITING_ADMIN
    requires if row.status == PAID then effective >= row.expected else effective == row.actual
    ensures var o := Settle(db, ext, row, effective, note, tariffs, now);
            && ext in o.db.invoices && o.db.invoices[ext] == row && row.userId in o.db.users
            && TellsWhatIsStored(o.update, db, o.db, ext) && NamesTheProblem(o.update, o.db, ext, tariffs)
  {
    SettleEffect(db, ext, row, effective, note, tariffs, now);
    SettleIs(db, ext, row, effective, note, tariffs, now);
    CreditEffect(db, ext, row, effective, note);
    if row.status == PAID && WantsSubscription(row.payload) {
      ChargeRowsAreExact(Saved(db, ext, row, effective, note), ext);
    }
  }

  // ----- what is booked -----

  function PlanDays(row: Invoice): int { row.payload.days.GetOr(0) }

  /** Whether a settlement charges the plan: paid, not charged before, priced, and covered with what is credited. */
  ghost predicate ChargesPlan(db: Db, ext: string, row: Invoice, credit: int, tariffs: Tariffs)
    requires row.userId in db.users
  {
    && row.status == PAID && row.payload.action == Some("sub") && PlanDays(row) != 0
    && Charges(db.ledger, ext) == 0
    && 0 < PlanPrice(row, tariffs) <= db.users[row.userId].balance + credit
  }

  /** The entries and the owner's row after crediting `credit` and charging the plan if that is due. */
  ghost predicate IsBooked(db: Db, after: Db, ext: string, row: Invoice, credit: int, note: Note, tariffs: Tariffs,
      now: int)
    requires row.userId in db.users
  {
    var uid, price := row.userId, PlanPrice(row, tariffs);
    var u, charges := db.users[uid], ChargesPlan(db, ext, row, credit, tariffs);
    && after.invoices == db.invoices[ext := row]
    && after.ledger == db.ledger + (if credit > 0 then [Transaction(uid, credit, DEPOSIT, note)] else [])
         + (if charges then [Transaction(uid, -price, WITHDRAW, DirectPay(ext))] else [])
    && after.users == db.users[uid := u.(
         balance := u.balance + credit - (if charges then price else 0),
         subscriptionEnd :=
           if charges then Some(now + TimeLeft(u.subscriptionEnd, now) + PlanDays(row) * 86400)
           else u.subscriptionEnd)]
  }

  lemma ChargesWhenDue(db: Db, ext: string, row: Invoice, effective: int, tariffs: Tariffs)
    requires row.userId in db.users
    ensures var credit := Missing(db, ext, row.userId, effective);
            ChargesPlan(db, ext, row, credit, tariffs) <==> WillCharge(db, ext, row, effective, tariffs)
    ensures WantsSubscription(row.payload) ==>
              row.payload.days.value == PlanDays(row)
                && PriceOf(tariffs, row.payload.days.value) == PlanPrice(row, tariffs)
  {
  }

  lemma FulfilledEntries(before: Db, db: Db, ext: string, uid: nat, days: int, tariffs: Tariffs, now: int,
      dto: PaymentUpdate)
    requires Sound(db) && ext in db.invoices && db.invoices[ext].userId == uid && uid in db.users
    requires dto.newBalance == db.users[uid].balance && !dto.subActivated && dto.problem != Some(UnexpectedError)
    ensures Fulfil(before, db, ext, uid, days, tariffs, now, dto).db.ledger
            == db.ledger + if WillFulfil(db, ext, uid, days, tariffs)
                           then [Transaction(uid, -PriceOf(tariffs, days), WITHDRAW, DirectPay(ext))] else []
  {
    FulfilCharges(before, db, ext, uid, days, tariffs, now, dto);
  }

  lemma CreditedEntries(db: Db, ext: string, row: Invoice, effective: int, note: Note)
    requires row.userId in db.users
    ensures var credit := Missing(db, ext, row.userId, effective);
            Saved(db, ext, row, effective, note).ledger
            == db.ledger + if credit > 0 then [Transaction(row.userId, credit, DEPOSIT, note)] else []
  {
  }

  lemma SavedIsSound(db: Db, ext: string, row: Invoice, effective: int, note: Note)
    requires Sound(db) && ext in db.invoices && SameContract(db.invoices[ext], row) && NoteFor(note, ext)
               && row.userId in db.users
    ensures Sound(Saved(db, ext, row, effective, note))
  {
    CreditKeepsSound(db, ext, row.userId, effective, note);
    SetInvoiceKeepsSound(Credit(db, ext, row.userId, effective, note), ext, row);
  }

  /** The entries a settlement adds. */
  lemma SettledEntries(db: Db, ext: string, row: Invoice, effective: int, note: Note, tariffs: Tariffs, now: int)
    requires Sound(db) && ext in db.invoices && SameContract(db.invoices[ext], row) && NoteFor(note, ext)
               && row.userId in db.users
    ensures var credit := Missing(db, ext, row.userId, effective);
            Settle(db, ext, row, effective, note, tariffs, now).db.ledger
            == db.ledger + (if credit > 0 then [Transaction(row.userId, credit, DEPOSIT, note)] else [])
               + (if WillCharge(db, ext, row, effective, tariffs)
                  then [Transaction(row.userId, -PlanPrice(row, tariffs), WITHDRAW, DirectPay(ext))] else [])
  {
    SettleIs(db, ext, row, effective, note, tariffs, now);
    CreditedEntries(db, ext, row, effective, note);
    if row.status == PAID && WantsSubscription(row.payload) {
      PlanEntries(db, ext, row, effective, note, tariffs, now);
    }
  }

  lemma PlanEntries(db: Db, ext: string, row: Invoice, effective: int, note: Note, tariffs: Tariffs, now: int)
    requires Sound(db) && ext in db.invoices && SameContract(db.invoices[ext], row) && NoteFor(note, ext)
               && row.userId in db.users && row.status == PAID && WantsSubscription(row.payload)
    ensures var saved, dto := Saved(db, ext, row, effective, note), SavedUpdate(db, ext, row, effective, note);
            Fulfil(db, saved, ext, row.userId, row.payload.days.value, tariffs, now, dto).db.ledger
            == saved.ledger + if WillCharge(db, ext, row, effective, tariffs)
                              then [Transaction(row.userId, -PlanPrice(row, tariffs), WITHDRAW, DirectPay(ext))] else []
  {
    SavedIsSound(db, ext, row, effective, note);
    ChargesWhenDue(db, ext, row, effective, tariffs);
    assert WillFulfil(Saved(db, ext, row, effective, note), ext, row.userId, row.payload.days.value, tariffs)
      <==> WillCharge(db, ext, row, effective, tariffs) by {
      ChargesAreDue(db, ext, row, effective, note, tariffs, now);
    }
    FulfilledEntries(db, Saved(db, ext, row, effective, note), ext, row.userId, row.payload.days.value, tariffs, now,
      SavedUpdate(db, ext, row, effective, note));
  }

  /** The owner's row after a settlement, on its fields. */
  lemma SettledOwner(db: Db, ext: string, row: Invoice, effective: int, tariffs: Tariffs, now: int)
    requires row.userId in db.users
    ensures var credit := Missing(db, ext, row.userId, effective);
            var u, charges := db.users[row.userId], ChargesPlan(db, ext, row, credit, tariffs);
            && (charges <==> WillCharge(db, ext, row, effective, tariffs))
            && SettledUser(db, ext, row, effective, tariffs, now)
               == u.(balance := u.balance + credit - (if charges then PlanPrice(row, tariffs) else 0),
                     subscriptionEnd :=
                       if charges then Some(now + TimeLeft(u.subscriptionEnd, now) + PlanDays(row) * 86400)
                       else u.subscriptionEnd)
  {
    ChargesWhenDue(db, ext, row, effective, tariffs);
  }

  lemma SettledBooks(db: Db, ext: string, row: Invoice, effective: int, note: Note, tariffs: Tariffs, now: int)
    requires Sound(db) && ext in db.invoices && SameContract(db.invoices[ext], row) && NoteFor(note, ext)
               && row.userId in db.users
    ensures IsBooked(db, Settle(db, ext, row, effective, note, tariffs, now).db, ext, row,
                     Missing(db, ext, row.userId, effective), note, tariffs, now)
  {
    SettledEntries(db, ext, row, effective, note, tariffs, now);
    SettledOwner(db, ext, row, effective, tariffs, now);
    assert var o := Settle(db, ext, row, effective, note, tariffs, now);
      && o.db.invoices == db.invoices[ext := row]
      && o.db.users == db.users[row.userId := SettledUser(db, ext, row, effective, tariffs, now)] by {
      SettleEffect(db, ext, row, effective, note, tariffs, now);
    }
  }

  // ----- checks and approvals -----

  /** Outside CACTUS half a dollar may be missing. */
  function PaidFrom(inv: Invoice): int { if inv.provider == CACTUS then inv.expected else inv.expected - 50 }

  /** The amount on the row decides the status, and tells unpaid invoices that are given up from others. */
  predicate StatusFollows(inv: Invoice, row: Invoice, givenUp: bool) {
    && (row.status == PAID <==> row.actual >= PaidFrom(inv))
    && (row.status == PARTIAL <==> 0 < row.actual < PaidFrom(inv))
    && (row.status == EXPIRED <==> row.actual <= 0 && row.actual < PaidFrom(inv) && givenUp)
    && (row.status == PENDING <==> row.actual <= 0 && row.actual < PaidFrom(inv) && !givenUp)
  }

  /** A paid invoice is worth its amount at least. */
  function WorthOf(row: Invoice): int { if row.status == PAID then Max(row.actual, row.expected) else row.actual }

  /** Only amounts and the status change: outside CACTUS the amount never falls, for CACTUS the last answer counts. */
  predicate IsChecked(inv: Invoice, row: Invoice, snap: Snapshot) {
    && StatusFollows(inv, row, IsExpiredStatus(snap.status))
    && row == (if inv.provider == CACTUS
         then inv.(actual := snap.amount, actualNative := snap.native, status := row.status)
         else inv.(actual := Max(snap.amount, inv.actual), status := row.status))
  }

  lemma CheckedRow(inv: Invoice, snap: Snapshot)
    requires inv.expected > 0
    ensures var row := UpdatedRow(inv, snap);
            && IsChecked(inv, row, snap) && SameContract(inv, row)
            && EffectiveFor(inv, snap.amount) == WorthOf(row)
            && (row.status == PAID ==> WorthOf(row) >= row.expected)
  {
  }

  /** The review is recorded, an earlier rejection is forgotten, and the amount never falls. */
  predicate IsApproved(inv: Invoice, row: Invoice, admin: nat, amount: int) {
    && StatusFollows(inv, row, false)
    && row == inv.(actual := Max(amount, inv.actual), status := row.status, approvedBy := Some(admin),
      rejection := None)
  }

  lemma ApprovedRowIs(inv: Invoice, admin: nat, amount: int)
    requires inv.expected > 0 && amount > 0 && inv.provider == MANUAL
    ensures var row := ApprovedRow(inv, admin, amount);
            && IsApproved(inv, row, admin, amount) && SameContract(inv, row)
            && Effective(row.actual, inv.expected) == WorthOf(row)
            && (row.status == PAID ==> WorthOf(row) >= row.expected)
  {
    ManualIsNotGivenUp();
  }

  lemma ManualIsNotGivenUp()
    ensures !IsExpiredStatus("manual")
  {
    assert Strip("manual") == "manual";
    LowerAt("manual");
    assert Lower("manual") == "manual";
  }

  /** What was done to invoice `ext`, and that the answer is about it. */
  ghost predicate IsProcessed(db: Db, o: Outcome, ext: string, note: Note, tariffs: Tariffs, now: int)
    requires ext in db.invoices
  {
    && ext in o.db.invoices
    && var row := o.db.invoices[ext];
       && row.userId in db.users && row.userId in o.db.users
       && IsBooked(db, o.db, ext, row, Max(WorthOf(row) - Counted(db, ext), 0), note, tariffs, now)
       && TellsWhatIsStored(o.update, db, o.db, ext) && NamesTheProblem(o.update, o.db, ext, tariffs)
  }

  lemma SettlingProcesses(db: Db, ext: string, row: Invoice, note: Note, tariffs: Tariffs, now: int)
    requires Sound(db) && ext in db.invoices && SameContract(db.invoices[ext], row) && NoteFor(note, ext)
    requires row.status != WAITING_ADMIN && (row.status == PAID ==> WorthOf(row) >= row.expected)
    ensures row.userId in db.users
    ensures var o := Settle(db, ext, row, WorthOf(row), note, tariffs, now);
            IsProcessed(db, o, ext, note, tariffs, now) && o.db.invoices[ext] == row
  {
    assert InvoiceOk(db, ext, db.invoices[ext]);
    SettledBooks(db, ext, row, WorthOf(row), note, tariffs, now);
    AnswerOfSettling(db, ext, row, WorthOf(row), note, tariffs, now);
  }

  /** A payment check, from the rows before to the rows and the answer afterwards. */
  lemma UpdateEffect(db: Db, ext: string, snap: Snapshot, tariffs: Tariffs, now: int)
    requires Sound(db) && 'I' !in snap.status
    ensures var o := ApplyUpdate(db, ext, snap, tariffs, now);
            if ext !in db.invoices then o.db == db && IsBlankRefusal(o.update, InvoiceNotFound, None)
            else
              && IsProcessed(db, o, ext, ProviderDeposit(db.invoices[ext].provider, ext, snap.status), tariffs, now)
              && IsChecked(db.invoices[ext], o.db.invoices[ext], snap)
  {
    if ext in db.invoices {
      var inv := db.invoices[ext];
      assert InvoiceOk(db, ext, inv);
      CheckedRow(inv, snap);
      SettlingProcesses(db, ext, UpdatedRow(inv, snap), ProviderDeposit(inv.provider, ext, snap.status), tariffs, now);
    }
  }

  /** An invoice whose owner is gone is refused, whatever the books are like. */
  lemma OwnerlessIsRefused(db: Db, ext: string, snap: Snapshot, admin: nat, amount: int, tariffs: Tariffs, now: int)
    requires ext in db.invoices && db.invoices[ext].userId !in db.users
    ensures var inv, o := db.invoices[ext], ApplyUpdate(db, ext, snap, tariffs, now);
            o.db == db && IsRefusalOf(o.update, inv, UserNotFound) && o.update.newBalance == 0
    ensures var inv, o := db.invoices[ext], ApplyApproval(db, ext, admin, amount, tariffs, now);
            amount > 0 ==> o.db == db && IsRefusalOf(o.update, inv, UserNotFound) && o.update.newBalance == 0
  {
  }

  /** The answer to an approval that finds the invoice paid with as much: paid, nothing credited, nothing needed. */
  ghost predicate IsConfirmed(db: Db, dto: PaymentUpdate, ext: string)
    requires ext in db.invoices && db.invoices[ext].userId in db.users
  {
    var row, u := db.invoices[ext], db.users[db.invoices[ext].userId];
    && dto.isPaid && dto.problem.None? && dto.delta == 0 && dto.needed == 0
    && dto.status == Some(PAID) && dto.actual == row.actual && dto.expected == row.expected
    && dto.action == row.payload.action && dto.days == row.payload.days && dto.newBalance == u.balance
    && (dto.subActivated <==> row.payload.action == Some("sub") && PlanDays(row) != 0 && Charges(db.ledger, ext) == 1)
    && dto.newEnd == (if dto.subActivated then u.subscriptionEnd else None)
  }

  /** An approval, with every reason for which it is refused and what it does otherwise. */
  lemma ApprovalEffect(db: Db, ext: string, admin: nat, amount: int, tariffs: Tariffs, now: int)
    requires Sound(db)
    ensures var o := ApplyApproval(db, ext, admin, amount, tariffs, now);
            if amount <= 0 then o.db == db && IsBlankRefusal(o.update, InvalidManualAmount, Some(PENDING))
            else if ext !in db.invoices then o.db == db && IsBlankRefusal(o.update, InvoiceNotFound, None)
            else
              var inv := db.invoices[ext];
              if inv.provider != MANUAL then
                && o.db == db && IsRefusalOf(o.update, inv, ManualProviderMismatch)
                && inv.userId in db.users && o.update.newBalance == db.users[inv.userId].balance
              else if inv.status == PAID && amount <= inv.actual then
                o.db == db && inv.userId in db.users && IsConfirmed(db, o.update, ext)
              else
                && IsProcessed(db, o, ext, ManualDeposit(ext, admin), tariffs, now)
                && IsApproved(inv, o.db.invoices[ext], admin, amount)
  {
    if amount > 0 && ext in db.invoices {
      var inv := db.invoices[ext];
      assert InvoiceOk(db, ext, inv);
      if inv.provider == MANUAL {
        if AlreadyApproved(inv, amount) {
          ChargeRowsAreExact(db, ext);
        } else {
          ApprovedRowIs(inv, admin, amount);
          SettlingProcesses(db, ext, ApprovedRow(inv, admin, amount), ManualDeposit(ext, admin), tariffs, now);
        }
      }
    }
  }

  lemma {:induction false} DepositsChargeNothing(ledger: seq<Transaction>, t: Transaction, uid: nat, ext: string)
    requires t.kind == DEPOSIT
    ensures ChargeRows(ledger + [t], uid, ext) == ChargeRows(ledger, uid, ext)
  {
    assert (ledger + [t])[..|ledger|] == ledger;
  }

  /** Two charges of one invoice make the query fail, and everything is rolled back; on sound books there never are. */
  lemma DoubleChargeRollsBack(db: Db, ext: string, snap: Snapshot, admin: nat, tariffs: Tariffs, now: int)
    requires ext in db.invoices && db.invoices[ext].userId in db.users
    requires ChargeRows(db.ledger, db.invoices[ext].userId, ext) >= 2
    requires db.invoices[ext].payload.action == Some("sub") && PlanDays(db.invoices[ext]) != 0
    requires snap.amount >= db.invoices[ext].expected > 0
    ensures var o := ApplyUpdate(db, ext, snap, tariffs, now);
            o.db == db && IsBlankRefusal(o.update, UnexpectedError, None)
    ensures var o := ApplyApproval(db, ext, admin, snap.amount, tariffs, now);
            db.invoices[ext].provider == MANUAL ==> o.db == db && IsBlankRefusal(o.update, UnexpectedError, None)
  {
    var inv := db.invoices[ext];
    var row := UpdatedRow(inv, snap);
    SettleIs(db, ext, row, EffectiveFor(inv, snap.amount), ProviderDeposit(inv.provider, ext, snap.status), tariffs,
      now);
    SavedCharges(db, ext, row, EffectiveFor(inv, snap.amount), ProviderDeposit(inv.provider, ext, snap.status));
    var approved := ApprovedRow(inv, admin, snap.amount);
    var effective := Effective(approved.actual, inv.expected);
    SettleIs(db, ext, approved, effective, ManualDeposit(ext, admin), tariffs, now);
    SavedCharges(db, ext, approved, effective, ManualDeposit(ext, admin));
  }

  lemma SavedCharges(db: Db, ext: string, row: Invoice, effective: int, note: Note)
    requires row.userId in db.users
    ensures ChargeRows(Saved(db, ext, row, effective, note).ledger, row.userId, ext)
            == ChargeRows(db.ledger, row.userId, ext)
  {
    var credit := Missing(db, ext, row.userId, effective);
    CreditedEntries(db, ext, row, effective, note);
    if credit > 0 { DepositsChargeNothing(db.ledger, Transaction(row.userId, credit, DEPOSIT, note), row.userId, ext); }
  }
}
