/** What holds after every run of the payment protocol. */
module Guarantees {
  import opened Rows
  import opened Ledger
  import opened Payments
  import opened Books
  import opened Protocol
  import opened Safety
  import opened Effects

  /** Nothing booked yet, nothing in flight; invoices of older gateways may already be waiting. */
  ghost predicate Initial(s: State) {
    && s.db.ledger == [] && s.tasks == map[] && s.locks == map[] && s.seen == map[] && s.renewals == map[]
    && TariffsOk(s.tariffs) && Identified(s.db)
    && (forall u <- s.db.users :: s.db.users[u].balance == 0)
    && (forall e <- s.db.invoices :: s.db.invoices[e].actual == 0 && s.db.invoices[e].status == PENDING)
  }

  lemma InitialInv(s: State)
    requires Initial(s)
    ensures Inv(s)
  {
    forall e <- s.db.invoices ensures FundedIn(s.db, e, Seen(s, e)) {}
  }

  lemma StepKeepsInv(s: State, a: Action)
    requires Inv(s)
    ensures Inv(Step(s, a))
  {
    if IsTaskStep(a) {
      TaskStepKeepsInv(s, a);
    } else {
      match a {
        case Tick(_) => QuietStep(s, Step(s, a));
        case Retariff(_) => QuietStep(s, Step(s, a));
        case SignUp(uid, referrer) => SignUpKeepsInv(s, uid, referrer);
        case OpenShopInvoice(uid, p, days, hex, expiresAt) =>
          if HexTail(hex) { OpenKeepsInv(s, uid, p, days, hex, expiresAt); }
        case BuyFromBalance(uid, plan, bonus) => BuyKeepsInv(s, uid, plan, bonus);
        case BouncerVisit(uid, price, bonus, delay) => BouncerKeepsInv(s, uid, price, bonus, delay);
        case JoinCommunity(uid, hours, text) => BonusesKeepInv(s, uid, hours, text);
        case StartTrial(uid, hours, text) => BonusesKeepInv(s, uid, hours, text);
        case SwitchRenewal(uid, on) => SwitchKeepsInv(s, uid, on);
      }
    }
  }

  lemma ApproveKeepsInv(s: State, id: nat, ext: string, admin: nat, amount: int)
    requires Inv(s)
    ensures Inv(ApproveStep(s, id, ext, admin, amount))
  {
    if ext in s.db.invoices && s.db.invoices[ext].provider == MANUAL && amount > 0 {
      var t := Waiting(ext, s.db.invoices[ext].userId, Approval(admin, amount));
      ReadsKeepInv(s, Spawn(s, id, t), id, t);
    }
  }

  lemma UploadReadKeepsInv(s: State, id: nat, ext: string, screenshot: string)
    requires Inv(s)
    ensures Inv(UploadReadStep(s, id, ext, screenshot))
  {
    if ext in s.db.invoices && UploadAllowed(s.db.invoices[ext]) {
      var t := Uploading(ext, s.db.invoices[ext].actual, screenshot);
      assert FundedIn(s.db, ext, Seen(s, ext));
      ReadsKeepInv(s, Spawn(s, id, t), id, t);
    }
  }

  lemma RejectReadKeepsInv(s: State, id: nat, ext: string, admin: nat, reason: string)
    requires Inv(s)
    ensures Inv(RejectReadStep(s, id, ext, admin, reason))
  {
    if ext in s.db.invoices {
      var t := Rejecting(ext, admin, reason);
      ReadsKeepInv(s, Spawn(s, id, t), id, t);
    }
  }

  lemma ExpireReadKeepsInv(s: State, id: nat, ext: string)
    requires Inv(s)
    ensures Inv(ExpireReadStep(s, id, ext))
  {
    if ext in s.db.invoices { ReadsKeepInv(s, Spawn(s, id, Expiring(ext)), id, Expiring(ext)); }
  }

  predicate IsReadStep(a: Action) {
    a.Fetch? || a.Approve? || a.UploadRead? || a.RejectRead? || a.ExpireRead?
  }

  lemma ReadStepKeepsInv(s: State, a: Action)
    requires Inv(s) && IsReadStep(a)
    ensures Inv(Step(s, a))
  {
    match a {
      case Fetch(id, ext, reply) => FetchKeepsInv(s, id, ext, reply);
      case Approve(id, ext, admin, amount) => ApproveKeepsInv(s, id, ext, admin, amount);
      case UploadRead(id, ext, screenshot) => UploadReadKeepsInv(s, id, ext, screenshot);
      case RejectRead(id, ext, admin, reason) => RejectReadKeepsInv(s, id, ext, admin, reason);
      case ExpireRead(id, ext) => ExpireReadKeepsInv(s, id, ext);
    }
  }

  predicate IsTaskStep(a: Action) {
    IsReadStep(a) || a.Acquire? || a.Apply? || a.Release? || a.Crash? || a.LateWrite?
  }

  lemma TaskStepKeepsInv(s: State, a: Action)
    requires Inv(s) && IsTaskStep(a)
    ensures Inv(Step(s, a))
  {
    if IsReadStep(a) {
      ReadStepKeepsInv(s, a);
    } else {
      match a {
        case Acquire(id, token, redisUp) => LockStepsKeepInv(s, id, token, redisUp);
        case Apply(id) => ApplyKeepsInv(s, id);
        case Release(id) => LockStepsKeepInv(s, id, 0, true);
        case Crash(id) => LockStepsKeepInv(s, id, 0, true);
        case LateWrite(id) => LateWriteKeepsInv(s, id);
      }
    }
  }

  lemma {:induction false} RunKeepsInv(run: seq<State>)
    requires Execution(run) && Inv(run[0])
    ensures Inv(Last(run))
    decreases |run|
  {
    if |run| > 1 {
      var before := run[..|run| - 1];
      ExecutionSplits(run);
      RunKeepsInv(before);
      var a :| Last(run) == Step(Last(before), a);
      StepKeepsInv(Last(before), a);
    }
  }

  /** A run that starts with nothing booked. */
  ghost predicate FromStart(run: seq<State>) {
    Execution(run) && Initial(run[0])
  }

  lemma ReachableInv(run: seq<State>)
    requires FromStart(run)
    ensures Inv(Last(run))
  {
    InitialInv(run[0]);
    RunKeepsInv(run);
  }

  // ----- money -----

  /**
   * Exactly-once crediting. Whatever the interleaving, however stale, duplicated or reordered the snapshots, whether
   * or not the Redis lock outlived its holder, and whatever ids the invoices have: what an invoice is owed, a
   * function of the largest amount ever applied to it, lies between its deposits and what the search counts as
   * credited. So it is never credited too much, and exactly what it is owed if the search finds no deposit of another
   * invoice.
   */
  lemma DepositsFollowLargestAmount(run: seq<State>, e: string)
    requires FromStart(run)
    ensures var t := Last(run);
            e in t.db.invoices ==>
              && 0 <= Deposits(t.db.ledger, e) <= Owed(t.db.invoices[e], Seen(t, e)) <= Counted(t.db, e)
              && Deposits(t.db.ledger, e) <= Top(Seen(t, e)) + 50
              && (Seen(t, e) != [] ==> Owed(t.db.invoices[e], Seen(t, e)) >= Top(Seen(t, e)))
              && (Clean(t.db, e) ==> Deposits(t.db.ledger, e) == Owed(t.db.invoices[e], Seen(t, e)))
  {
    ReachableInv(run);
    var t := Last(run);
    if e in t.db.invoices {
      assert FundedIn(t.db, e, Seen(t, e));
      EffectiveIsMonotone(Top(Seen(t, e)), Top(Seen(t, e)), t.db.invoices[e].expected);
      CountedExactly(t.db, e);
    }
  }

  /**
   * In every run the search finds nothing but an invoice's own deposits if no other id of its owner begins with its
   * id.
   */
  lemma InvoicesAreClean(run: seq<State>, e: string)
    requires FromStart(run) && e in Last(run).db.invoices
    ensures var t := Last(run);
            (forall f <- t.db.invoices ::
               f != e && t.db.invoices[f].userId == t.db.invoices[e].userId ==> !(e <= f)) ==> Clean(t.db, e)
    ensures IsShopId(e, Last(run).db.invoices[e].userId) ==> Clean(Last(run).db, e)
  {
    ReachableInv(run);
    var db := Last(run).db;
    if IsShopId(e, db.invoices[e].userId) { ShopIsClean(db, e); }
    if forall f <- db.invoices :: f != e && db.invoices[f].userId == db.invoices[e].userId ==> !(e <= f) {
      PrefixFreeIsClean(db, e);
    }
  }

  /** Two histories that applied the same amounts, in any order and any number of times, owe and credit the same. */
  lemma CreditIgnoresOrderAndRepetition(r1: seq<State>, r2: seq<State>, e: string)
    requires FromStart(r1) && FromStart(r2)
    requires e in Last(r1).db.invoices && e in Last(r2).db.invoices
    requires SameContract(Last(r1).db.invoices[e], Last(r2).db.invoices[e])
    requires forall a :: a in Seen(Last(r1), e) <==> a in Seen(Last(r2), e)
    ensures Owed(Last(r1).db.invoices[e], Seen(Last(r1), e)) == Owed(Last(r2).db.invoices[e], Seen(Last(r2), e))
    ensures Clean(Last(r1).db, e) && Clean(Last(r2).db, e) ==>
              Deposits(Last(r1).db.ledger, e) == Deposits(Last(r2).db.ledger, e)
  {
    DepositsFollowLargestAmount(r1, e);
    DepositsFollowLargestAmount(r2, e);
    var xs, ys := Seen(Last(r1), e), Seen(Last(r2), e);
    TopIgnoresOrder(xs, ys);
    assert xs != [] ==> xs[0] in ys;
    assert ys != [] ==> ys[0] in xs;
  }

  /**
   * A CACTUS invoice with a price at creation is credited at most that price, and only if an accepted answer was
   * applied; then exactly, if the search finds no deposit of another invoice.
   */
  lemma CactusCreditsPriceOrNothing(run: seq<State>, e: string)
    requires FromStart(run)
    ensures var t := Last(run);
            e in t.db.invoices && t.db.invoices[e].provider == CACTUS
            && t.db.invoices[e].payload.price.Some? && t.db.invoices[e].payload.price.value > 0 ==>
              var price := t.db.invoices[e].payload.price.value;
              var due := if price in Seen(t, e) then price else 0;
              && Deposits(t.db.ledger, e) <= due <= Counted(t.db, e)
              && (Clean(t.db, e) ==> Deposits(t.db.ledger, e) == due)
  {
    ReachableInv(run);
    DepositsFollowLargestAmount(run, e);
    var t := Last(run);
    if e in t.db.invoices {
      assert FundedIn(t.db, e, Seen(t, e));
    }
  }

  /** A CRYPTOPAY invoice above the tolerance is credited at most its amount, and only if it was paid; then likewise. */
  lemma CryptopayCreditsAmountOrNothing(run: seq<State>, e: string)
    requires FromStart(run)
    ensures var t := Last(run);
            e in t.db.invoices && t.db.invoices[e].provider == CRYPTOPAY && t.db.invoices[e].expected > 50 ==>
              var due := if t.db.invoices[e].expected in Seen(t, e) then t.db.invoices[e].expected else 0;
              && Deposits(t.db.ledger, e) <= due <= Counted(t.db, e)
              && (Clean(t.db, e) ==> Deposits(t.db.ledger, e) == due)
  {
    ReachableInv(run);
    DepositsFollowLargestAmount(run, e);
    var t := Last(run);
    if e in t.db.invoices {
      assert FundedIn(t.db, e, Seen(t, e));
    }
  }

  /**
   * When is an invoice credited although nothing was ever paid on it? Only when it has been checked and its whole
   * amount lies within the tolerance, CACTUS invoices never; and then always, if the search finds no deposit of
   * another invoice.
   */
  lemma CreditWithoutPayment(run: seq<State>, e: string)
    requires FromStart(run)
    ensures var t := Last(run);
            e in t.db.invoices && Top(Seen(t, e)) == 0 ==>
              var given := Seen(t, e) != [] && t.db.invoices[e].provider != CACTUS
                           && t.db.invoices[e].expected <= 50;
              && (Deposits(t.db.ledger, e) > 0 ==> given)
              && (Clean(t.db, e) ==> (Deposits(t.db.ledger, e) > 0 <==> given))
  {
    ReachableInv(run);
    DepositsFollowLargestAmount(run, e);
    var t := Last(run);
    if e in t.db.invoices { assert InvoiceOk(t.db, e, t.db.invoices[e]); }
  }

  /** At most one direct payment is charged per invoice, so the query for it never meets two rows. */
  lemma ChargedAtMostOnce(run: seq<State>, e: string)
    requires FromStart(run)
    ensures var t := Last(run);
            e in t.db.invoices ==> ChargeRows(t.db.ledger, t.db.invoices[e].userId, e) == Charges(t.db.ledger, e) <= 1
  {
    ReachableInv(run);
    var t := Last(run);
    if e in t.db.invoices { ChargeRowsAreExact(t.db, e); }
  }

  /** Balances are the sum of the ledger and never negative. */
  lemma BalancesAreTheLedger(run: seq<State>, u: nat)
    requires FromStart(run)
    ensures var t := Last(run);
            u in t.db.users ==> t.db.users[u].balance == UserTotal(t.db.ledger, u) >= 0
  {
    ReachableInv(run);
    assert u in Last(run).db.users ==> Last(run).db.users[u].balance == UserTotal(Last(run).db.ledger, u);
  }

  /**
   * In every interleaving a PAID invoice is backed by what the search counts, that is by its deposits and the strays;
   * so by its deposits alone, if there are no strays.
   */
  lemma PaidIsFunded(run: seq<State>, e: string)
    requires FromStart(run)
    ensures var t := Last(run);
            e in t.db.invoices && t.db.invoices[e].status == PAID ==>
              && Deposits(t.db.ledger, e)
                + Strays(t.db.ledger, t.db.invoices[e].userId, e) >= t.db.invoices[e].expected > 0
              && (Clean(t.db, e) ==> Deposits(t.db.ledger, e) >= t.db.invoices[e].expected)
  {
    ReachableInv(run);
    var t := Last(run);
    if e in t.db.invoices {
      assert FundedIn(t.db, e, Seen(t, e));
      assert InvoiceOk(t.db, e, t.db.invoices[e]);
      CountedExactly(t.db, e);
    }
  }

  ghost predicate IsReferrer(db: Db, uid: nat, u: nat)
    requires uid in db.users
  {
    db.users[uid].referrer == Some(u)
  }

  /** A balance purchase moves the price from the buyer, about 15% of it to the referrer, and nothing else. */
  lemma PurchaseMovesMoney(db: Db, uid: nat, days: int, price: int, note: Note, bonus: int, now: int, u: nat)
    requires CanPay(db, uid, price) && IsReferralBonus(price, bonus) && u in db.users
    ensures var after := ChargeAndActivate(db, uid, days, price, note, bonus, now);
            && u in after.users
            && after.users[u].balance == db.users[u].balance - (if u == uid then price else 0)
                                         + (if IsReferrer(db, uid, u) then Max(bonus, 0) else 0)
            && after.users[u].subscriptionEnd
               == (if u == uid then Some(now + TimeLeft(db.users[u].subscriptionEnd, now) + days * 86400)
                 else db.users[u].subscriptionEnd)
            && UserTotal(after.ledger, u) - UserTotal(db.ledger, u) == after.users[u].balance - db.users[u].balance
  {
    PurchaseEffect(db, uid, days, price, note, bonus, now);
    BoughtTotals(db, ChargeAndActivate(db, uid, days, price, note, bonus, now), uid, days, price, note, bonus, now, u);
  }

  lemma BoughtTotals(db: Db, after: Db, uid: nat, days: int, price: int, note: Note, bonus: int, now: int, u: nat)
    requires uid in db.users && u in db.users && IsBought(db, after, uid, days, price, note, bonus, now)
    ensures u in after.users
    ensures UserTotal(after.ledger, u) - UserTotal(db.ledger, u) == after.users[u].balance - db.users[u].balance
  {
    var charge := Transaction(uid, -price, WITHDRAW, note);
    Append(db.ledger, charge);
    var r := db.users[uid].referrer;
    if r.Some? && r.value in db.users && bonus > 0 {
      var reward := Transaction(r.value, bonus, REWARD, ReferralReward(uid));
      Append(db.ledger + [charge], reward);
      assert after.ledger == db.ledger + [charge] + [reward];
    } else {
      assert after.ledger == db.ledger + [charge];
    }
  }

  // ----- contracts survive, histories grow -----

  lemma ApplyKeepsContracts(s: State, id: nat)
    requires Inv(s)
    ensures InvoicesGrow(s, ApplyStep(s, id))
  {
    if id in s.tasks && s.tasks[id].Holding? {
      ApplyIsInvoiceStep(s, id);
      InvoiceStepKeepsFunding(s, ApplyStep(s, id), s.tasks[id].ext);
    }
  }

  lemma PurchasesKeepRows(db: Db, uid: nat, days: int, price: int, note: Note, bonus: int, now: int)
    ensures ChargeAndActivate(db, uid, days, price, note, bonus, now).invoices == db.invoices
  {
  }

  lemma BounceKeepsRows(db: Db, uid: nat, price: int, bonus: int, now: int, later: int)
    ensures Bounce(db, uid, price, bonus, now, later).invoices == db.invoices
  {
    PurchasesKeepRows(db, uid, RENEWAL_DAYS, price, AutoRenewal, bonus, later);
  }

  lemma BouncerStepKeepsRows(s: State, uid: nat, price: int, bonus: int, delay: nat)
    ensures var t := BouncerStep(s, uid, price, bonus, delay); t.db.invoices == s.db.invoices && t.seen == s.seen
  {
    BouncerStepBounces(s, uid, price, bonus, delay);
    BounceKeepsRows(s.db, uid, price, bonus, s.clock, s.clock + delay);
  }

  lemma TaskStepsKeepRows(s: State, a: Action)
    requires IsTaskStep(a) && !a.Apply? && !a.LateWrite?
    ensures Step(s, a).db == s.db && Step(s, a).seen == s.seen
  {
  }

  /** Every step but a late write or an application leaves existing invoice rows as they are. */
  lemma OtherStepsKeepRows(s: State, a: Action)
    requires !a.Apply? && !a.LateWrite?
    ensures var t := Step(s, a); t.seen == s.seen && forall e <- s.db.invoices ::
              e in t.db.invoices && t.db.invoices[e] == s.db.invoices[e]
  {
    if IsTaskStep(a) {
      TaskStepsKeepRows(s, a);
    } else if a.BouncerVisit? {
      BouncerStepKeepsRows(s, a.uid, a.price, a.bonus, a.delay);
    } else if a.BuyFromBalance? {
      PurchasesKeepRows(s.db, a.uid, a.plan, PriceOf(s.tariffs, a.plan), Purchase(a.plan), a.bonus, s.clock);
    }
  }

  lemma SameRowsGrow(s: State, t: State)
    requires t.seen == s.seen
    requires forall e <- s.db.invoices :: e in t.db.invoices && SameContract(s.db.invoices[e], t.db.invoices[e])
    ensures InvoicesGrow(s, t)
  {
    assert forall e :: Seen(t, e) == Seen(s, e);
  }

  lemma LateWriteKeepsContracts(s: State, id: nat)
    ensures var t := LateWriteStep(s, id);
            t.seen == s.seen && forall e <- s.db.invoices ::
              e in t.db.invoices && SameContract(s.db.invoices[e], t.db.invoices[e])
  {
  }

  lemma QuietKeepsContracts(s: State, a: Action)
    requires !a.Apply?
    ensures InvoicesGrow(s, Step(s, a))
  {
    if a.LateWrite? {
      LateWriteKeepsContracts(s, a.id);
    } else {
      OtherStepsKeepRows(s, a);
    }
    SameRowsGrow(s, Step(s, a));
  }

  lemma StepKeepsContracts(s: State, a: Action)
    requires Inv(s)
    ensures InvoicesGrow(s, Step(s, a))
  {
    if a.Apply? {
      ApplyKeepsContracts(s, a.id);
    } else {
      QuietKeepsContracts(s, a);
    }
  }

  lemma GrowthAddsUp(s: State, mid: State, t: State)
    requires InvoicesGrow(s, mid) && InvoicesGrow(mid, t)
    ensures InvoicesGrow(s, t)
  {
    forall e <- s.db.invoices ensures InvoiceGrows(s, t, e) {
      assert InvoiceGrows(s, mid, e) && InvoiceGrows(mid, t, e);
    }
  }

  lemma {:induction false} RunKeepsContracts(run: seq<State>)
    requires Execution(run) && Inv(run[0])
    ensures InvoicesGrow(run[0], Last(run))
    decreases |run|
  {
    if |run| > 1 {
      var before := run[..|run| - 1];
      ExecutionSplits(run);
      RunKeepsContracts(before);
      RunKeepsInv(before);
      var a :| Last(run) == Step(Last(before), a);
      StepKeepsContracts(Last(before), a);
      GrowthAddsUp(run[0], Last(before), Last(run));
    }
  }

  // ----- the purchase an invoice was opened for -----

  /** The confirmation of an invoice: an accepted gateway answer, or an approval of the expected amount or more. */
  predicate FullConfirmation(inv: Invoice, job: Job) {
    match inv.provider
    case CACTUS => job.Update? && inv.payload.price == Some(inv.expected) && job.snap.amount == inv.expected
    case MANUAL => job.Approval? && job.amount >= inv.expected
    case _ => false
  }

  /** An approval that finds the invoice paid with at least its amount. */
  predicate Repeats(inv: Invoice, job: Job) {
    job.Approval? && AlreadyApproved(inv, job.amount)
  }

  /** The balance once `job` has credited what is missing. */
  ghost function Available(db: Db, ext: string, job: Job): int
    requires ext in db.invoices && db.invoices[ext].userId in db.users
  {
    db.users[db.invoices[ext].userId].balance + Max(JobAmount(job) - Counted(db, ext), 0)
  }

  /** Whether a full confirmation charges the plan: never twice, never on a repetition, and only today's price. */
  ghost predicate PaysNow(db: Db, ext: string, job: Job, tariffs: Tariffs)
    requires ext in db.invoices && db.invoices[ext].userId in db.users && db.invoices[ext].payload.days.Some?
  {
    var price := PriceOf(tariffs, db.invoices[ext].payload.days.value);
    && Charges(db.ledger, ext) == 0 && !Repeats(db.invoices[ext], job)
    && 0 < price <= Available(db, ext, job)
  }

  /** What the user has afterwards. */
  ghost predicate Completed(db: Db, ext: string, job: Job, tariffs: Tariffs, o: Outcome)
    requires ext in db.invoices && db.invoices[ext].userId in db.users && db.invoices[ext].payload.days.Some?
  {
    var uid, price := db.invoices[ext].userId, PriceOf(tariffs, db.invoices[ext].payload.days.value);
    var pays := PaysNow(db, ext, job, tariffs);
    && (o.update.subActivated <==> Charges(db.ledger, ext) == 1 || pays)
    && Charges(o.db.ledger, ext) == Charges(db.ledger, ext) + (if pays then 1 else 0)
    && uid in o.db.users
    && o.db.users[uid].balance == Available(db, ext, job) - (if pays then price else 0)
    && ext in o.db.invoices && o.db.invoices[ext].status == PAID
  }

  lemma RepetitionWritesNothing(db: Db, ext: string, job: Job, amounts: seq<int>, tariffs: Tariffs, now: int)
    requires Sound(db) && ext in db.invoices && JobOk(job, db.invoices[ext])
    requires FundedIn(db, ext, amounts)
    requires WantsSubscription(db.invoices[ext].payload) && db.invoices[ext].userId in db.users
    requires Repeats(db.invoices[ext], job)
    ensures Perform(db, ext, job, tariffs, now).db == db
    ensures Completed(db, ext, job, tariffs, Perform(db, ext, job, tariffs, now))
  {
    ChargeRowsAreExact(db, ext);
    EffectiveIsMonotone(job.amount, Top(amounts), db.invoices[ext].expected);
    assert job.amount <= Counted(db, ext);
  }

  /** A settlement that pays the invoice on the amount confirmed completes the purchase. */
  lemma SettledIsCompleted(db: Db, ext: string, job: Job, row: Invoice, effective: int, tariffs: Tariffs, now: int,
      o: Outcome)
    requires ext in db.invoices && db.invoices[ext].userId in db.users && SameContract(db.invoices[ext], row)
    requires Charges(db.ledger, ext) <= 1 && WantsSubscription(row.payload) && row.status == PAID
    requires !Repeats(db.invoices[ext], job)
    requires Missing(db, ext, row.userId, effective) == Max(JobAmount(job) - Counted(db, ext), 0)
    requires IsSettled(db, ext, row, effective, tariffs, now, o)
    ensures Completed(db, ext, job, tariffs, o)
  {
    assert WillCharge(db, ext, row, effective, tariffs) <==> PaysNow(db, ext, job, tariffs);
  }

  lemma AcceptanceFulfils(db: Db, ext: string, job: Job, tariffs: Tariffs, now: int)
    requires Sound(db) && ext in db.invoices && JobOk(job, db.invoices[ext]) && job.Update?
    requires FullConfirmation(db.invoices[ext], job) && WantsSubscription(db.invoices[ext].payload)
    requires db.invoices[ext].userId in db.users
    ensures Completed(db, ext, job, tariffs, Perform(db, ext, job, tariffs, now))
  {
    var inv, snap := db.invoices[ext], job.snap;
    assert InvoiceOk(db, ext, inv) && Charges(db.ledger, ext) <= 1;
    var row, note := UpdatedRow(inv, snap), ProviderDeposit(inv.provider, ext, snap.status);
    SettleEffect(db, ext, row, EffectiveFor(inv, snap.amount), note, tariffs, now);
    SettledIsCompleted(db, ext, job, row, EffectiveFor(inv, snap.amount), tariffs, now,
      Perform(db, ext, job, tariffs, now));
  }

  lemma ApprovalFulfils(db: Db, ext: string, job: Job, amounts: seq<int>, tariffs: Tariffs, now: int)
    requires Sound(db) && ext in db.invoices && JobOk(job, db.invoices[ext]) && job.Approval?
    requires FundedIn(db, ext, amounts)
    requires FullConfirmation(db.invoices[ext], job) && WantsSubscription(db.invoices[ext].payload)
    requires db.invoices[ext].userId in db.users && !Repeats(db.invoices[ext], job)
    ensures Completed(db, ext, job, tariffs, Perform(db, ext, job, tariffs, now))
  {
    var inv := db.invoices[ext];
    assert InvoiceOk(db, ext, inv) && Charges(db.ledger, ext) <= 1;
    var row, effective := ApprovedRow(inv, job.admin, job.amount), Effective(Max(job.amount, inv.actual), inv.expected);
    assert inv.actual <= Counted(db, ext) by { EffectiveIsMonotone(inv.actual, Top(amounts), inv.expected); }
    SettleEffect(db, ext, row, effective, ManualDeposit(ext, job.admin), tariffs, now);
    SettledIsCompleted(db, ext, job, row, effective, tariffs, now, Perform(db, ext, job, tariffs, now));
  }

  /**
   * A full confirmation of a subscription invoice answers "activated" exactly if the plan was charged before, or if
   * this is no repeated approval, the plan has a price and the balance with what the invoice brings covers it. In
   * particular an approval that finds the invoice PAID never charges a plan that could not be charged the first time,
   * whatever the balance has become. The rest stays on the balance.
   */
  lemma ConfirmationFulfils(db: Db, ext: string, job: Job, amounts: seq<int>, tariffs: Tariffs, now: int)
    requires Sound(db) && ext in db.invoices && JobOk(job, db.invoices[ext])
    requires FundedIn(db, ext, amounts)
    requires FullConfirmation(db.invoices[ext], job) && WantsSubscription(db.invoices[ext].payload)
    requires db.invoices[ext].userId in db.users
    ensures Completed(db, ext, job, tariffs, Perform(db, ext, job, tariffs, now))
  {
    if Repeats(db.invoices[ext], job) {
      RepetitionWritesNothing(db, ext, job, amounts, tariffs, now);
    } else if job.Update? {
      AcceptanceFulfils(db, ext, job, tariffs, now);
    } else {
      ApprovalFulfils(db, ext, job, amounts, tariffs, now);
    }
  }

  /** The row the shop opens: it asks for price minus balance and remembers that amount and the plan. */
  lemma OpenedInvoice(s: State, open: Action)
    requires Inv(s) && open.OpenShopInvoice?
    requires var e := ShopId(open.provider, open.uid, open.hex);
             e !in s.db.invoices && e in Step(s, open).db.invoices
    ensures open.uid in s.db.users
    ensures var inv := Step(s, open).db.invoices[ShopId(open.provider, open.uid, open.hex)];
            && inv.userId == open.uid && inv.provider == open.provider
            && WantsSubscription(inv.payload) && inv.payload.days.value == open.days
            && inv.expected == PriceOf(s.tariffs, open.days) - s.db.users[open.uid].balance
            && inv.payload.price == Some(inv.expected) && PriceOf(s.tariffs, open.days) > 0
  {
    assert s.db.users[open.uid].balance == UserTotal(s.db.ledger, open.uid);
  }

  lemma OpenedIsClean(db: Db, open: Action, e: string)
    requires Sound(db) && e in db.invoices && open.OpenShopInvoice? && HexTail(open.hex)
    requires e == ShopId(open.provider, open.uid, open.hex) && db.invoices[e].userId == open.uid
    ensures Counted(db, e) == Deposits(db.ledger, e)
  {
    assert IsShopId(e, open.uid);
    ShopIsClean(db, e);
  }

  /** After any run the invoice still asks for what it asked for, and the search finds nothing but its own deposits. */
  lemma OpenedInvoicePersists(s: State, open: Action, run: seq<State>, e: string)
    requires Inv(s) && open.OpenShopInvoice? && e == ShopId(open.provider, open.uid, open.hex)
    requires e !in s.db.invoices && e in Step(s, open).db.invoices
    requires Execution(run) && run[0] == Step(s, open)
    ensures var db := Last(run).db;
            && Sound(db) && e in db.invoices && FundedIn(db, e, Seen(Last(run), e)) && open.uid in s.db.users
            && Charges(db.ledger, e) <= 1 && Counted(db, e) == Deposits(db.ledger, e)
            && db.invoices[e].userId == open.uid && db.invoices[e].payload.days == Some(open.days)
            && WantsSubscription(db.invoices[e].payload)
            && PriceOf(s.tariffs, open.days) == db.invoices[e].expected + s.db.users[open.uid].balance
            && PriceOf(s.tariffs, open.days) > 0
  {
    OpenedInvoice(s, open);
    StepKeepsInv(s, open);
    RunKeepsInv(run);
    assert InvoiceGrows(Step(s, open), Last(run), e) by { RunKeepsContracts(run); }
    assert FundedIn(Last(run).db, e, Seen(Last(run), e));
    OpenedIsClean(Last(run).db, open, e);
  }

  /**
   * The shop's promise. Take an invoice opened for price minus balance, and any run after which the tariff is the same
   * and the balance, this invoice's own credits aside, has not fallen. A full confirmation then activates the plan
   * unless it repeats an approval of a plan that could not be charged, and leaves what was gained since the invoice was
   * opened plus any overpayment.
   */
  lemma ShopPurchaseCompletes(s: State, open: Action, run: seq<State>, e: string, job: Job)
    requires Inv(s) && open.OpenShopInvoice? && e == ShopId(open.provider, open.uid, open.hex)
    requires e !in s.db.invoices && e in Step(s, open).db.invoices
    requires Execution(run) && run[0] == Step(s, open)
    requires var t := Last(run);
             && e in t.db.invoices && open.uid in t.db.users && open.uid in s.db.users
             && JobOk(job, t.db.invoices[e]) && FullConfirmation(t.db.invoices[e], job)
             && PriceOf(t.tariffs, open.days) == PriceOf(s.tariffs, open.days)
             && t.db.users[open.uid].balance - Deposits(t.db.ledger, e) >= s.db.users[open.uid].balance
    ensures var t := Last(run);
            var o := Perform(t.db, e, job, t.tariffs, t.clock);
            var price := PriceOf(t.tariffs, open.days);
            var gained := t.db.users[open.uid].balance - Deposits(t.db.ledger, e) - s.db.users[open.uid].balance;
            var overpaid := Max(Deposits(t.db.ledger, e), JobAmount(job)) - t.db.invoices[e].expected;
            var pays := Charges(t.db.ledger, e) == 0 && !Repeats(t.db.invoices[e], job);
            && (o.update.subActivated <==> Charges(t.db.ledger, e) == 1 || !Repeats(t.db.invoices[e], job))
            && (pays ==> Charges(o.db.ledger, e) == 1)
            && open.uid in o.db.users
            && o.db.users[open.uid].balance == gained + overpaid + (if pays then 0 else price)
            && overpaid >= 0
  {
    var t := Last(run);
    OpenedInvoicePersists(s, open, run, e);
    var price := PriceOf(t.tariffs, open.days);
    ConfirmationFulfils(t.db, e, job, Seen(t, e), t.tariffs, t.clock);
    assert Available(t.db, e, job) >= price > 0;
  }

  // ----- subscriptions -----

  /** Any two renewals of a user are at least 30 days minus the renewal window apart per renewal between them. */
  lemma {:induction false} SpacingAddsUp(rs: seq<Renewal>, i: nat, j: nat)
    requires i <= j < |rs| && Spaced(rs)
    ensures rs[j].at - rs[i].at >= (j - i) * GAP
    decreases j
  {
    if i < j {
      SpacingAddsUp(rs, i, j - 1);
      assert rs[j].at - rs[j - 1].at >= GAP;
    }
  }

  lemma RenewalsAreSpaced(run: seq<State>, u: nat, i: nat, j: nat)
    requires FromStart(run)
    ensures var rs := RenewalsOf(Last(run), u);
            i <= j < |rs| ==>
              && rs[j].at - rs[i].at >= (j - i) * (30 * 86400 - 3600)
              && rs[i].newEnd >= rs[i].oldEnd + 30 * 86400
              && rs[i].at <= rs[i].oldEnd
  {
    ReachableInv(run);
    var t := Last(run);
    var rs := RenewalsOf(t, u);
    if i <= j < |rs| {
      assert RenewalsSpaced(rs, t.db.users[u].subscriptionEnd, t.clock);
      SpacingAddsUp(rs, i, j);
      assert rs[i] in rs;
    }
  }

  lemma ApplyKeepsUsers(s: State, id: nat)
    requires Inv(s)
    ensures UsersKept(s.db, ApplyStep(s, id).db)
  {
    if id in s.tasks && s.tasks[id].Holding? {
      var t := s.tasks[id];
      assert TaskOk(s, t);
      assert FundedIn(s.db, t.ext, Seen(s, t.ext));
      ApplyEffect(s.db, t.ext, t.job, Seen(s, t.ext), s.tariffs, s.clock);
    }
  }

  /** The user is still there, with an end that moved forward or one that was already over at `now` and is gone. */
  ghost predicate ForwardOrOver(before: Db, after: Db, u: nat, now: int)
    requires u in before.users && before.users[u].subscriptionEnd.Some?
  {
    && u in after.users
    && var end, end' := before.users[u].subscriptionEnd.value, after.users[u].subscriptionEnd;
       if end'.Some? then end'.value >= end else end <= now
  }

  lemma BounceMovesForwardOrOver(db: Db, uid: nat, price: int, bonus: int, now: int, later: int, u: nat)
    requires Sound(db) && u in db.users && db.users[u].subscriptionEnd.Some?
    ensures ForwardOrOver(db, Bounce(db, uid, price, bonus, now, later), u, now)
  {
    if RenewalDue(db, uid, price, now) {
      ChargeAndActivateKeepsBooks(db, uid, RENEWAL_DAYS, price, AutoRenewal, bonus, later);
      var after := ChargeAndActivate(db, uid, RENEWAL_DAYS, price, AutoRenewal, bonus, later);
      assert UserGrows(db.users[u], after.users[u]);
    }
  }

  /** No step but a bouncer visit takes subscription time from anyone. */
  lemma OthersKeepUsers(s: State, a: Action)
    requires Inv(s) && !a.BouncerVisit?
    ensures UsersKept(s.db, Step(s, a).db)
  {
    match a {
      case Apply(id) => ApplyKeepsUsers(s, id);
      case BuyFromBalance(uid, plan, bonus) =>
        ChargeAndActivateKeepsBooks(s.db, uid, plan, PriceOf(s.tariffs, plan), Purchase(plan), bonus, s.clock);
      case JoinCommunity(_, _, _) => BonusesExtend(s, a);
      case StartTrial(_, _, _) => BonusesExtend(s, a);
      case SwitchRenewal(_, _) =>
      case SignUp(_, _) =>
      case _ => QuietKeepsUsers(s, a);
    }
  }

  lemma BonusesExtend(s: State, a: Action)
    requires a.JoinCommunity? || a.StartTrial?
    ensures UsersKept(s.db, Step(s, a).db)
  {
  }

  lemma BouncerStepBounces(s: State, uid: nat, price: int, bonus: int, delay: nat)
    ensures BouncerStep(s, uid, price, bonus, delay).db
            == if IsReferralBonus(price, bonus) then Bounce(s.db, uid, price, bonus, s.clock, s.clock + delay) else s.db
  {
  }

  /** The bouncer moves a subscription forward, or takes it away once it is over. */
  lemma OnlyExpiredUsersAreDegraded(s: State, uid: nat, price: int, bonus: int, delay: nat, u: nat)
    requires Sound(s.db) && u in s.db.users && s.db.users[u].subscriptionEnd.Some?
    ensures ForwardOrOver(s.db, BouncerStep(s, uid, price, bonus, delay).db, u, s.clock)
  {
    BouncerStepBounces(s, uid, price, bonus, delay);
    BounceMovesForwardOrOver(s.db, uid, price, bonus, s.clock, s.clock + delay, u);
  }

  lemma QuietKeepsUsers(s: State, a: Action)
    requires !a.Apply? && !a.BuyFromBalance? && !a.BouncerVisit? && !a.JoinCommunity? && !a.StartTrial? && !a.SignUp?
               && !a.SwitchRenewal?
    ensures Step(s, a).db.users == s.db.users
  {
  }
}
