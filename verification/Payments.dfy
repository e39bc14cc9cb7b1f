/**
 * What each billing transaction does to the database, as functions on `Db`. The class
 * `BillingStore.Store` performs the same transactions statement by statement and is proved equal to them.
 */
module Payments {
  import opened Rows
  import opened Text
  import opened Ledger

  const TOLERANCE := 50
  const RENEWAL_DAYS := 30
  const RENEWAL_WINDOW := 3600

  /** Tariff prices in cents by number of days. */
  type Tariffs = map<int, int>

  function PriceOf(tariffs: Tariffs, days: int): int {
    if days in tariffs then tariffs[days] else 0
  }

  // ----- amounts and statuses -----

  /** A shortfall of at most the tolerance counts as full payment. */
  function Effective(amount: int, expected: int): int {
    if 0 < expected - amount <= TOLERANCE then expected else amount
  }

  predicate IsExpiredStatus(status: string) {
    Lower(Strip(status)) in {"expired", "cancel", "cancelled", "deleted", "fail", "system_fail"}
  }

  function ResolveStatus(providerStatus: string, actual: int, expected: int): Status {
    if IsExpiredStatus(providerStatus) && actual <= 0 then EXPIRED
    else if actual >= expected && actual > 0 then PAID
    else if actual > 0 then PARTIAL
    else PENDING
  }

  // ----- provider snapshots, taken before any lock is held -----

  /** What a provider answered: a status and, where the provider reports one, an amount. */
  datatype Reply = Reply(status: string, amount: int)

  datatype Snapshot = Snapshot(status: string, amount: int, native: int)

  /** The amount an accepted CACTUS payment is worth: the price at creation, else the tariff, else the invoice. */
  function CactusTarget(inv: Invoice, tariffs: Tariffs): int {
    if inv.payload.price.Some? && inv.payload.price.value > 0 then inv.payload.price.value
    else
      var hasDays := inv.payload.days.Some? && inv.payload.days.value != 0;
      var fallback := if hasDays then PriceOf(tariffs, inv.payload.days.value) else 0;
      if fallback > 0 then fallback else inv.expected
  }

  function TakeSnapshot(inv: Invoice, reply: Option<Reply>, tariffs: Tariffs): Option<Snapshot> {
    if reply.None? then None
    else
      var status := Lower(reply.value.status);
      match inv.provider
      case CRYPTOMUS => Some(Snapshot(status, reply.value.amount, reply.value.amount))
      case CRYPTOPAY =>
        var amount := if status == "paid" then inv.expected else inv.actual;
        Some(Snapshot(status, amount, amount))
      case CACTUS =>
        if status == "accept" then Some(Snapshot("paid", CactusTarget(inv, tariffs), reply.value.amount))
        else Some(Snapshot(status, 0, 0))
      case MANUAL => None
  }

  // ----- elementary writes -----

  /** Moves the balance and appends the matching ledger entry. */
  function Post(db: Db, uid: nat, amount: int, kind: TxKind, note: Note): Db
    requires uid in db.users
  {
    var u := db.users[uid];
    db.(users := db.users[uid := u.(balance := u.balance + amount)],
        ledger := db.ledger + [Transaction(uid, amount, kind, note)])
  }

  function NewEnd(end: Option<int>, seconds: int, now: int): int {
    (if end.Some? && end.value > now then end.value else now) + seconds
  }

  function Extend(db: Db, uid: nat, seconds: int, now: int): Db
    requires uid in db.users
  {
    var u := db.users[uid];
    db.(users := db.users[uid := u.(subscriptionEnd := Some(NewEnd(u.subscriptionEnd, seconds, now)))])
  }

  function SetInvoice(db: Db, ext: string, row: Invoice): Db {
    db.(invoices := db.invoices[ext := row])
  }

  // ----- the payment processor -----

  datatype Problem =
    | InvoiceNotFound | UserNotFound | InvalidManualAmount | ManualProviderMismatch | ProviderError | LockError
    | PaymentProcessing | SubscriptionPriceNotFound | InsufficientBalance | PartialPayment | PaymentPending
    | InvoiceExpired | UnexpectedError

  datatype PaymentUpdate = PaymentUpdate(
    isPaid: bool,
    delta: int,
    subActivated: bool,
    newBalance: int,
    newEnd: Option<int>,
    problem: Option<Problem>,
    actual: int,
    expected: int,
    status: Option<Status>,
    needed: int,
    action: Option<string>,
    days: Option<int>)

  datatype Outcome = Outcome(db: Db, update: PaymentUpdate)

  function Failed(problem: Problem, status: Option<Status>): PaymentUpdate {
    PaymentUpdate(false, 0, false, 0, None, Some(problem), 0, 0, status, 0, None, None)
  }

  function Refused(inv: Invoice, problem: Problem): PaymentUpdate {
    Failed(problem, Some(inv.status)).(actual := inv.actual, expected := inv.expected)
  }

  predicate WantsSubscription(p: Payload) {
    p.action == Some("sub") && p.days.Some? && p.days.value != 0
  }

  function StatusProblem(status: Status): Option<Problem> {
    match status
    case EXPIRED => Some(InvoiceExpired)
    case PARTIAL => Some(PartialPayment)
    case PENDING => Some(PaymentPending)
    case _ => None
  }

  /** Activates the subscription the invoice was opened for, once, if the balance allows it. */
  function Fulfil(before: Db, db: Db, ext: string, uid: nat, days: int, tariffs: Tariffs, now: int,
      dto: PaymentUpdate): Outcome
    requires uid in db.users
  {
    var rows := ChargeRows(db.ledger, uid, ext);
    var price := PriceOf(tariffs, days);
    if rows > 1 then Outcome(before, Failed(UnexpectedError, None))
    else if rows == 1 then Outcome(db, dto.(subActivated := true, newEnd := db.users[uid].subscriptionEnd))
    else if price <= 0 then Outcome(db, dto.(problem := Some(SubscriptionPriceNotFound)))
    else if dto.newBalance < price then
      Outcome(db, dto.(problem := Some(InsufficientBalance), needed := Max(price - dto.newBalance, 0)))
    else
      var extended := Extend(db, uid, days * DAY, now);
      var charged := Post(extended, uid, -price, WITHDRAW, DirectPay(ext));
      Outcome(charged, dto.(subActivated := true, newEnd := extended.users[uid].subscriptionEnd,
                            newBalance := charged.users[uid].balance))
  }

  /** Credits the difference to what the ledger already holds for the invoice, if there is any. */
  function Credit(db: Db, ext: string, uid: nat, effective: int, note: Note): Db
    requires uid in db.users
  {
    var delta := effective - Credited(db.ledger, uid, ext);
    if delta > 0 then Post(db, uid, delta, DEPOSIT, note) else db
  }

  /** The answer before the intent is looked at. */
  function SettledUpdate(row: Invoice, effective: int, delta: int, balance: int): PaymentUpdate {
    PaymentUpdate(row.status == PAID, Max(delta, 0), false, balance, None,
                  StatusProblem(row.status), row.actual, row.expected, Some(row.status),
                  Max(row.expected - effective, 0), row.payload.action, row.payload.days)
  }

  /** Credits what is missing, writes the invoice row and fulfils the intent. */
  function Settle(db: Db, ext: string, row: Invoice, effective: int, note: Note, tariffs: Tariffs, now: int): Outcome
    requires row.userId in db.users
  {
    var uid := row.userId;
    var saved := SetInvoice(Credit(db, ext, uid, effective, note), ext, row);
    var dto := SettledUpdate(row, effective, effective - Credited(db.ledger, uid, ext), saved.users[uid].balance);
    if row.status == PAID && WantsSubscription(row.payload)
    then Fulfil(db, saved, ext, uid, row.payload.days.value, tariffs, now, dto)
    else Outcome(saved, dto)
  }

  function ResolvedAmount(inv: Invoice, amount: int): int {
    if inv.provider == CACTUS then amount else Max(amount, inv.actual)
  }

  function EffectiveFor(inv: Invoice, amount: int): int {
    if inv.provider == CACTUS then amount else Effective(ResolvedAmount(inv, amount), inv.expected)
  }

  /** The invoice row a snapshot leaves behind. */
  function UpdatedRow(inv: Invoice, snap: Snapshot): Invoice {
    inv.(actual := ResolvedAmount(inv, snap.amount),
         actualNative := if inv.provider == CACTUS then snap.native else inv.actualNative,
         status := ResolveStatus(snap.status, EffectiveFor(inv, snap.amount), inv.expected))
  }

  /** The transaction of `process_payment_update`, run on rows locked by `get_billing_entities`. */
  function ApplyUpdate(db: Db, ext: string, snap: Snapshot, tariffs: Tariffs, now: int): Outcome {
    if ext !in db.invoices then Outcome(db, Failed(InvoiceNotFound, None))
    else
      var inv := db.invoices[ext];
      if inv.userId !in db.users then Outcome(db, Refused(inv, UserNotFound))
      else
        Settle(db, ext, UpdatedRow(inv, snap), EffectiveFor(inv, snap.amount),
               ProviderDeposit(inv.provider, ext, snap.status), tariffs, now)
  }

  function ApprovedRow(inv: Invoice, admin: nat, amount: int): Invoice {
    var resolved := Max(amount, inv.actual);
    inv.(actual := resolved,
         status := ResolveStatus("manual", Effective(resolved, inv.expected), inv.expected),
         approvedBy := Some(admin),
         rejection := None)
  }

  predicate AlreadyApproved(inv: Invoice, amount: int) {
    inv.status == PAID && amount <= inv.actual
  }

  /** The answer to approving a paid invoice again: nothing is written. */
  function RepeatedApproval(db: Db, ext: string, inv: Invoice): PaymentUpdate
    requires inv.userId in db.users
  {
    var dto := PaymentUpdate(true, 0, false, db.users[inv.userId].balance, None, None, inv.actual, inv.expected,
                             Some(inv.status), 0, inv.payload.action, inv.payload.days);
    if !WantsSubscription(inv.payload) then dto
    else
      var rows := ChargeRows(db.ledger, inv.userId, ext);
      if rows > 1 then Failed(UnexpectedError, None)
      else if rows == 1 then dto.(subActivated := true, newEnd := db.users[inv.userId].subscriptionEnd)
      else dto
  }

  /** The transaction of `process_manual_approval`. */
  function ApplyApproval(db: Db, ext: string, admin: nat, amount: int, tariffs: Tariffs, now: int): Outcome {
    if amount <= 0 then Outcome(db, Failed(InvalidManualAmount, Some(PENDING)))
    else if ext !in db.invoices then Outcome(db, Failed(InvoiceNotFound, None))
    else
      var inv := db.invoices[ext];
      if inv.userId !in db.users then Outcome(db, Refused(inv, UserNotFound))
      else if inv.provider != MANUAL then
        Outcome(db, Refused(inv, ManualProviderMismatch).(newBalance := db.users[inv.userId].balance))
      else if AlreadyApproved(inv, amount) then Outcome(db, RepeatedApproval(db, ext, inv))
      else
        var row := ApprovedRow(inv, admin, amount);
        Settle(db, ext, row, Effective(row.actual, inv.expected), ManualDeposit(ext, admin), tariffs, now)
  }

  // ----- invoice life cycle outside the processor -----

  predicate UploadAllowed(inv: Invoice) {
    inv.provider == MANUAL && (inv.status == PENDING || inv.status == PARTIAL)
  }

  /** A screenshot was uploaded; `actual` is the value the handler read before it locked the row. */
  function UploadedRow(inv: Invoice, actual: int, screenshot: string): Invoice {
    inv.(actual := actual, status := WAITING_ADMIN, approvedBy := None, screenshot := Some(screenshot),
      rejection := None)
  }

  predicate RejectAllowed(inv: Invoice) {
    inv.provider == MANUAL && inv.status != PAID
  }

  function RejectedRow(inv: Invoice, admin: nat, reason: string): Invoice {
    inv.(status := PENDING, screenshot := None, approvedBy := Some(admin), rejection := Some(reason))
  }

  const MANUAL_EXPIRE := 1440 * 60
  const INVOICE_EXPIRE := 120 * 60
  const FAST_POLL_UNTIL := 15 * 60

  /** What the polling worker does with an invoice it picked up. */
  datatype Decision = Forget | Expire | Wait(seconds: int) | Poll(seconds: int)

  function WorkerDecision(inv: Invoice, now: int): Decision {
    var age := now - inv.createdAt;
    var interval := if age < FAST_POLL_UNTIL then 30 else 180;
    if inv.status != PENDING && inv.status != PARTIAL then Forget
    else if inv.provider == MANUAL then
      if inv.status != PENDING || inv.screenshot.Some? then Forget
      else if age >= MANUAL_EXPIRE then Expire
      else Wait(1800)
    else if inv.provider == CACTUS then
      if inv.expiresAt.Some? && now >= inv.expiresAt.value then Expire else Poll(interval)
    else if age >= INVOICE_EXPIRE then Expire
    else Poll(interval)
  }

  // ----- the shop -----

  /** The invoice the shop opens for the part of the price the balance does not cover. */
  function ShopInvoice(uid: nat, p: Provider, days: int, amount: int, now: int, expiresAt: Option<int>): Invoice {
    Invoice(uid, p, amount, 0, 0, Payload(Some("sub"), Some(days), Some(amount)), PENDING, now, expiresAt, None, None,
      None)
  }

  predicate ShopCanInvoice(db: Db, uid: nat, days: int, tariffs: Tariffs) {
    uid in db.users && PriceOf(tariffs, days) != 0 && db.users[uid].balance < PriceOf(tariffs, days)
  }

  /** Opens an invoice; a duplicate id violates the unique constraint and leaves everything unchanged. */
  function OpenInvoice(db: Db, uid: nat, p: Provider, days: int, hex: string, tariffs: Tariffs, now: int,
      expiresAt: Option<int>): Db {
    var ext := ShopId(p, uid, hex);
    if ShopCanInvoice(db, uid, days, tariffs) && ext !in db.invoices
    then SetInvoice(db, ext, ShopInvoice(uid, p, days, PriceOf(tariffs, days) - db.users[uid].balance, now, expiresAt))
    else db
  }

  // ----- balance purchases, renewals and bonuses -----

  /** The reward is 15% of the price, rounded to a cent; how a tie rounds is up to the floating point unit. */
  predicate IsReferralBonus(price: int, bonus: int) {
    -50 <= 100 * bonus - 15 * price <= 50
  }

  function Reward(db: Db, uid: nat, bonus: int): Db
    requires uid in db.users
  {
    var referrer := db.users[uid].referrer;
    if referrer.Some? && bonus > 0 && referrer.value in db.users
    then Post(db, referrer.value, bonus, REWARD, ReferralReward(uid)) else db
  }

  predicate CanPay(db: Db, uid: nat, price: int) {
    uid in db.users && db.users[uid].balance >= price
  }

  /** Charges the balance, extends the subscription and rewards the referrer, or does nothing. */
  function ChargeAndActivate(db: Db, uid: nat, days: int, price: int, note: Note, bonus: int, now: int): Db {
    if CanPay(db, uid, price)
    then Reward(Extend(Post(db, uid, -price, WITHDRAW, note), uid, days * DAY, now), uid, bonus)
    else db
  }

  predicate RenewalDue(db: Db, uid: nat, price: int, now: int) {
    && uid in db.users && db.users[uid].subscriptionEnd.Some? && db.users[uid].autoRenewal
    && 0 <= db.users[uid].subscriptionEnd.value - now <= RENEWAL_WINDOW
    && db.users[uid].balance >= price
  }

  /** The user switches automatic renewal on or off. */
  function SetAutoRenewal(db: Db, uid: nat, on: bool): Db {
    if uid in db.users then db.(users := db.users[uid := db.users[uid].(autoRenewal := on)]) else db
  }

  predicate ExpiryDue(db: Db, uid: nat, now: int) {
    uid in db.users && db.users[uid].subscriptionEnd.Some? && db.users[uid].subscriptionEnd.value <= now
  }

  function Degrade(db: Db, uid: nat): Db
    requires uid in db.users
  {
    db.(users := db.users[uid := db.users[uid].(subscriptionEnd := None)])
  }

  /** One bouncer visit: renew, else degrade. `now` decides, `later` is the clock when the renewal is written. */
  function Bounce(db: Db, uid: nat, price: int, bonus: int, now: int, later: int): Db {
    if RenewalDue(db, uid, price, now)
    then ChargeAndActivate(db, uid, RENEWAL_DAYS, price, AutoRenewal, bonus, later)
    else if ExpiryDue(db, uid, now) then Degrade(db, uid)
    else db
  }

  /** A free period: the end moves forward and a zero entry records it. */
  function GrantBonus(db: Db, uid: nat, hours: nat, text: string, now: int): Db
    requires uid in db.users
  {
    Post(Extend(db, uid, hours * 3600, now), uid, 0, BONUS, BonusNote(text))
  }

  function CommunityBonus(db: Db, uid: nat, hours: nat, text: string, now: int): Db {
    if uid !in db.users || db.users[uid].communityBonusUsed then db
    else
      var used := db.(users := db.users[uid := db.users[uid].(communityBonusUsed := true)]);
      GrantBonus(used, uid, hours, text, now)
  }

  function ActivateTrial(db: Db, uid: nat, hours: nat, text: string, now: int): Db {
    if uid !in db.users || db.users[uid].trialUsed then db
    else
      var used := db.(users := db.users[uid := db.users[uid].(trialUsed := true)]);
      GrantBonus(used, uid, hours, text, now)
  }

  const NEW_USER := User(0, None, None, true, false, false)

  /** Registration keeps an existing row; a referrer must exist and be someone else. */
  function Register(db: Db, uid: nat, referrer: Option<nat>): Db {
    if uid in db.users then db
    else
      var isValid := referrer.Some? && referrer.value != 0 && referrer.value != uid && referrer.value in db.users;
      var valid := if isValid then referrer else None;
      db.(users := db.users[uid := NEW_USER.(referrer := valid)])
  }
}
