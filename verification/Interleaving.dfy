/**
 * Runs that show what interleaving can do. Every one starts with an order in the shop, or with an invoice of a
 * gateway that the shop no longer offers.
 *
 * First, a handler call that nobody disturbs is a run of the protocol and does what it does as one step. Then what
 * can go wrong when others come in between: a rejection that was read before an approval takes PAID away, and a plan
 * that is paid for stays uncharged. And two things that need no interleaving: small invoices of old gateways that
 * are given away, and numeric ids that the search confuses.
 */
module Interleaving {
  import opened Rows
  import opened Text
  import opened Ledger
  import opened Payments
  import opened Books
  import opened Protocol
  import opened Safety
  import opened Guarantees
  import opened Lifecycle
  import opened LockSafety
  import opened StatusRuns

  // ----- taking the lock, committing and releasing without a pause -----

  function CommitStep(s: State, id: nat, token: nat): State {
    ReleaseStep(ApplyStep(AcquireStep(s, id, token, true), id), id)
  }

  /** A waiting task that will get the lock. */
  predicate CanCommit(s: State, id: nat, token: nat) {
    id in s.tasks && s.tasks[id].Waiting? && token !in s.tokens && !Locked(s, s.tasks[id].uid)
  }

  lemma CommitReaches(s: State, id: nat, token: nat)
    ensures Reaches(s, CommitStep(s, id, token))
  {
    var s1 := AcquireStep(s, id, token, true);
    var s2 := ApplyStep(s1, id);
    ReachesItself(s);
    ReachesNext(s, s, Acquire(id, token, true));
    ReachesNext(s, s1, Apply(id));
    ReachesNext(s, s2, Release(id));
  }

  lemma CommitIs(s: State, id: nat, token: nat)
    requires CanCommit(s, id, token)
    ensures var t := s.tasks[id];
            CommitStep(s, id, token)
            == s.(db := Perform(s.db, t.ext, t.job, s.tariffs, s.clock).db,
                  seen := s.seen[t.ext := Seen(s, t.ext) + [JobAmount(t.job)]],
                  tasks := s.tasks - {id}, tokens := s.tokens + {token}, locks := s.locks - {t.uid})
  {
    var t := s.tasks[id];
    var s1 := AcquireStep(s, id, token, true);
    assert s1.tasks[id] == Holding(t.ext, t.uid, t.job, token);
    var s2 := ApplyStep(s1, id);
    assert s2.tasks[id] == Releasing(t.uid, token) && s2.tasks - {id} == s.tasks - {id};
    assert s2.locks == s.locks[t.uid := Lock(token, s.clock + LOCK_TTL)] && s2.locks - {t.uid} == s.locks - {t.uid};
  }

  // ----- a handler call without interference is a run of the protocol -----

  /** A handler's task: its id is free, its token new, and nobody is at work on the owner's payments. */
  predicate Undisturbed(s: State, e: string, id: nat, token: nat) {
    && id !in s.tasks && token !in s.tokens
    && (e in s.db.invoices ==> !Locked(s, s.db.invoices[e].userId))
  }

  lemma NothingToCommit(s: State, id: nat, token: nat)
    requires id !in s.tasks
    ensures CommitStep(s, id, token) == s
  {
  }

  lemma TaskCommits(s: State, id: nat, token: nat, t: Task)
    requires id !in s.tasks && t.Waiting? && token !in s.tokens && !Locked(s, t.uid)
    ensures var after := CommitStep(Spawn(s, id, t), id, token);
            && after.db == Perform(s.db, t.ext, t.job, s.tariffs, s.clock).db
            && after.tasks == s.tasks && after.clock == s.clock && after.tariffs == s.tariffs
  {
    CommitIs(Spawn(s, id, t), id, token);
    assert s.tasks[id := t] - {id} == s.tasks;
  }

  /** A check: fetch, lock, apply, release. */
  lemma CheckIsARun(s: State, e: string, reply: Option<Reply>, id: nat, token: nat)
    requires Undisturbed(s, e, id, token)
    ensures var t := CommitStep(FetchStep(s, id, e, reply), id, token);
            && t.db == Handle(s.db, Event(Check(e, reply), s.tariffs, s.clock))
            && t.tasks == s.tasks && t.clock == s.clock
  {
    if e in s.db.invoices && TakeSnapshot(s.db.invoices[e], reply, s.tariffs).Some? {
      var inv := s.db.invoices[e];
      TaskCommits(s, id, token, Waiting(e, inv.userId, Update(TakeSnapshot(inv, reply, s.tariffs).value)));
    } else {
      NothingToCommit(s, id, token);
    }
  }

  /** An approval of an invoice that is not paid. */
  lemma ConfirmIsARun(s: State, e: string, admin: nat, amount: int, id: nat, token: nat)
    requires Undisturbed(s, e, id, token)
    requires e in s.db.invoices ==> s.db.invoices[e].status != PAID && s.db.invoices[e].userId in s.db.users
    ensures var t := CommitStep(ApproveStep(s, id, e, admin, amount), id, token);
            && t.db == Handle(s.db, Event(Confirm(e, admin, amount), s.tariffs, s.clock))
            && t.tasks == s.tasks && t.clock == s.clock
  {
    if e in s.db.invoices && s.db.invoices[e].provider == MANUAL && amount > 0 {
      TaskCommits(s, id, token, Waiting(e, s.db.invoices[e].userId, Approval(admin, amount)));
    } else {
      NothingToCommit(s, id, token);
    }
  }

  /** An invoice that is found paid is not approved again. */
  lemma PaidIsNotApproved(s: State, e: string, admin: nat, amount: int, id: nat)
    requires e in s.db.invoices && s.db.invoices[e].status == PAID
    ensures Step(s, Approve(id, e, admin, amount)) == s
  {
  }

  lemma LateTaskWrites(s: State, id: nat, t: Task)
    requires id !in s.tasks && IsLate(t) && t.ext in s.db.invoices
    ensures LateWriteStep(Spawn(s, id, t), id)
            == s.(db := SetInvoice(s.db, t.ext, LateRow(s.db.invoices[t.ext], t)))
  {
    assert s.tasks[id := t] - {id} == s.tasks;
  }

  /** An upload: a read and a late write that comes at once. */
  lemma UploadIsARun(s: State, e: string, screenshot: string, id: nat)
    requires id !in s.tasks
    ensures LateWriteStep(UploadReadStep(s, id, e, screenshot), id)
            == s.(db := Handle(s.db, Event(Upload(e, screenshot), s.tariffs, s.clock)))
  {
    if e in s.db.invoices && UploadAllowed(s.db.invoices[e]) {
      LateTaskWrites(s, id, Uploading(e, s.db.invoices[e].actual, screenshot));
    }
  }

  lemma RejectIsARun(s: State, e: string, admin: nat, reason: string, id: nat)
    requires id !in s.tasks
    ensures LateWriteStep(RejectReadStep(s, id, e, admin, reason), id)
            == s.(db := Handle(s.db, Event(Reject(e, admin, reason), s.tariffs, s.clock)))
  {
    if e in s.db.invoices && RejectAllowed(s.db.invoices[e]) { LateTaskWrites(s, id, Rejecting(e, admin, reason)); }
  }

  lemma ExpiryIsARun(s: State, e: string, id: nat)
    requires id !in s.tasks
    ensures LateWriteStep(ExpireReadStep(s, id, e), id)
            == s.(db := Handle(s.db, Event(ExpiryPass(e), s.tariffs, s.clock)))
  {
    if e in s.db.invoices && WorkerDecision(s.db.invoices[e], s.clock).Expire? { LateTaskWrites(s, id, Expiring(e)); }
  }

  // ----- a rejection loses PAID -----

  /** The invoice is paid for, as the row and the search have it, and pending. */
  ghost predicate PaidForButPending(t: State, e: string) {
    && e in t.db.invoices && t.db.invoices[e].status == PENDING
    && t.db.invoices[e].actual >= t.db.invoices[e].expected
    && Counted(t.db, e) >= t.db.invoices[e].expected > 0
  }

  lemma BothHandlersRead(s: State, e: string, i: nat, j: nat)
    requires Inv(s) && OpenManual(s, e) && i != j && i !in s.tasks && j !in s.tasks
    ensures var inv := s.db.invoices[e];
            var t := s.(tasks := s.tasks[i := Rejecting(e, 3, "blurred")]
                                       [j := Waiting(e, inv.userId, Approval(4, inv.expected))]);
            Reaches(s, t)
  {
    var inv := s.db.invoices[e];
    assert InvoiceOk(s.db, e, inv);
    var read, approve := RejectRead(i, e, 3, "blurred"), Approve(j, e, 4, inv.expected);
    ReachesItself(s);
    ReachesNext(s, s, read);
    ReachesNext(s, Step(s, read), approve);
  }

  lemma RejectedStaysPaidFor(db: Db, e: string)
    requires e in db.invoices && db.invoices[e].actual >= db.invoices[e].expected
    ensures var after := SetInvoice(db, e, RejectedRow(db.invoices[e], 3, "blurred"));
            && e in after.invoices && after.invoices[e].status == PENDING
            && after.invoices[e].actual >= after.invoices[e].expected == db.invoices[e].expected
            && Counted(after, e) == Counted(db, e)
  {
  }

  lemma RejectionOverwrites(s: State, i: nat, e: string)
    requires i in s.tasks && s.tasks[i] == Rejecting(e, 3, "blurred") && e in s.db.invoices
    requires s.db.invoices[e].actual >= s.db.invoices[e].expected > 0
               && Counted(s.db, e) >= s.db.invoices[e].expected
    ensures Reaches(s, LateWriteStep(s, i)) && PaidForButPending(LateWriteStep(s, i), e)
  {
    RejectedStaysPaidFor(s.db, e);
    assert LateWriteStep(s, i).db == SetInvoice(s.db, e, RejectedRow(s.db.invoices[e], 3, "blurred"));
    LateWriteReaches(s, i);
  }

  lemma LateWriteReaches(s: State, i: nat)
    ensures Reaches(s, LateWriteStep(s, i))
  {
    ReachesItself(s);
    ReachesNext(s, s, LateWrite(i));
  }

  lemma ApprovalPays(s: State, j: nat, token: nat, e: string)
    requires Inv(s) && CanCommit(s, j, token) && e in s.db.invoices && s.db.invoices[e].status != PAID
    requires s.tasks[j] == Waiting(e, s.db.invoices[e].userId, Approval(4, s.db.invoices[e].expected))
    ensures var t := CommitStep(s, j, token);
            && t.tasks == s.tasks - {j} && e in t.db.invoices
            && t.db.invoices[e].status == PAID && t.db.invoices[e].actual >= t.db.invoices[e].expected
            && Counted(t.db, e) >= t.db.invoices[e].expected
  {
    var inv, t := s.db.invoices[e], CommitStep(s, j, token);
    assert TaskOk(s, s.tasks[j]) && InvoiceOk(s.db, e, inv);
    CommitIs(s, j, token);
    PerformWritesRow(s.db, e, s.tasks[j].job, s.tariffs, s.clock);
  }

  lemma ThenRejectionLands(s: State, e: string, i: nat, j: nat, token: nat)
    requires Inv(s) && CanCommit(s, j, token) && e in s.db.invoices && s.db.invoices[e].status != PAID && i != j
    requires s.tasks[j] == Waiting(e, s.db.invoices[e].userId, Approval(4, s.db.invoices[e].expected))
    requires i in s.tasks && s.tasks[i] == Rejecting(e, 3, "blurred")
    ensures exists t :: Reaches(s, t) && PaidForButPending(t, e)
  {
    var t := CommitStep(s, j, token);
    ApprovalPays(s, j, token, e);
    CommitReaches(s, j, token);
    ReachedInv(s, t);
    assert InvoiceOk(t.db, e, t.db.invoices[e]);
    RejectionOverwrites(t, i, e);
    ReachesOnward(s, t, LateWriteStep(t, i));
  }

  lemma RejectionUnpaysWhenFree(s: State, e: string, i: nat, j: nat, token: nat)
    requires Inv(s) && OpenManual(s, e) && !Locked(s, s.db.invoices[e].userId)
    requires i != j && i !in s.tasks && j !in s.tasks && token !in s.tokens
    ensures exists t :: Reaches(s, t) && PaidForButPending(t, e)
  {
    var inv := s.db.invoices[e];
    var job := Waiting(e, inv.userId, Approval(4, inv.expected));
    var s1 := s.(tasks := s.tasks[i := Rejecting(e, 3, "blurred")][j := job]);
    BothHandlersRead(s, e, i, j);
    ReachedInv(s, s1);
    ThenRejectionLands(s1, e, i, j, token);
    var t :| Reaches(s1, t) && PaidForButPending(t, e);
    ReachesOnward(s, s1, t);
  }

  /**
   * From every reachable state with an unpaid manual invoice PAID can be lost: an admin starts a rejection, another
   * one's approval commits, and then the rejection is written. The money stays where it is.
   */
  lemma RejectionCanUnpay(s: State, e: string, i: nat, j: nat, token: nat)
    requires Inv(s) && OpenManual(s, e)
    requires i != j && i !in s.tasks && j !in s.tasks && token !in s.tokens
    ensures exists t :: Reaches(s, t) && PaidForButPending(t, e)
  {
    var free := LockRunsOut(s, s.db.invoices[e].userId);
    ReachedInv(s, free);
    RejectionUnpaysWhenFree(free, e, i, j, token);
    var t :| Reaches(free, t) && PaidForButPending(t, e);
    ReachesOnward(s, free, t);
  }

  /** So it happens in a run that starts with an order in the shop. */
  lemma InterleavingCanUnpay()
    ensures Initial(Start()) && exists t :: Reaches(Start(), t) && PaidForButPending(t, FirstId())
  {
    StartIsInitial();
    OpenedIsReached();
    RejectionCanUnpay(Opened(), FirstId(), 9, 0, 10);
    var t :| Reaches(Opened(), t) && PaidForButPending(t, FirstId());
    ReachesOnward(Start(), Opened(), t);
  }

  // ----- a plan that is paid for and stays uncharged -----

  const HEX2 := "fedcba98765432100123"

  function SecondId(): string { ShopId(MANUAL, 7, HEX2) }

  lemma SecondIsSecond()
    ensures HexTail(HEX2) && SecondId() != FirstId()
  {
    forall i | 0 <= i < |HEX2| ensures IsHex(HEX2[i]) {}
    var k := |ShopPrefix(MANUAL) + Dec(7) + "_"|;
    assert FirstId()[k] == HEX[0] && SecondId()[k] == HEX2[0];
  }

  /** What the story needs to know of a state: the balance, and rows and bookings of the one or two invoices. */
  datatype Page = Page(balance: int, first: Invoice, paid1: int, second: Option<Invoice>, paid2: int)

  ghost predicate Shows(s: State, p: Page) {
    && s.locks == map[] && s.tariffs == PRICES && s.clock == 0
    && 7 in s.db.users
    && s.db.users[7].balance == p.balance
    && s.db.users[7].referrer.None?
    && FirstId() in s.db.invoices
    && s.db.invoices[FirstId()] == p.first
    && Deposits(s.db.ledger, FirstId()) == p.paid1
    && if p.second.None? then SecondId() !in s.db.invoices
       else
         && SecondId() in s.db.invoices && s.db.invoices[SecondId()] == p.second.value
         && Deposits(s.db.ledger, SecondId()) == p.paid2 && Charges(s.db.ledger, SecondId()) == 0
  }

  /** The story has come to `s`, with this page, these tasks and these tokens. */
  ghost predicate Tells(s: State, p: Page, tasks: map<nat, Task>, tokens: set<nat>) {
    exists run ::
      && Execution(run) && run[0] == Start() && Last(run) == s
      && Inv(s) && Shows(s, p) && s.tasks == tasks && s.tokens == tokens
  }

  /** The story goes on. */
  lemma Continues(s: State, t: State, p: Page, tasks: map<nat, Task>, tokens: set<nat>)
    requires Reaches(Start(), s) && Reaches(s, t) && Shows(t, p) && t.tasks == tasks && t.tokens == tokens
    ensures Tells(t, p, tasks, tokens)
  {
    ReachesOnward(Start(), s, t);
    StartIsInitial();
    InitialInv(Start());
    var run :| Execution(run) && run[0] == Start() && Last(run) == t;
    RunKeepsInv(run);
  }

  /** Committing an approval, in terms of rows and bookings. */
  lemma CommittedApproval(s: State, id: nat, token: nat, e: string, admin: nat, amount: int) returns (t: State)
    requires Inv(s) && CanCommit(s, id, token) && s.locks == map[] && e in s.db.invoices
    requires s.tasks[id] == Waiting(e, s.db.invoices[e].userId, Approval(admin, amount))
    requires !AlreadyApproved(s.db.invoices[e], amount) && s.db.invoices[e].userId in s.db.users
    ensures Reaches(s, t) && t.tasks == s.tasks - {id} && t.tokens == s.tokens + {token}
    ensures t.locks == map[] && t.tariffs == s.tariffs && t.clock == s.clock
    ensures var inv := s.db.invoices[e];
            var row, effective := ApprovedRow(inv, admin, amount), Effective(Max(amount, inv.actual), inv.expected);
            && t.db.invoices == s.db.invoices[e := row]
            && t.db.users == s.db.users[inv.userId := SettledUser(s.db, e, row, effective, s.tariffs, s.clock)]
            && Deposits(t.db.ledger, e) == Deposits(s.db.ledger, e) + Missing(s.db, e, inv.userId, effective)
            && (!WillCharge(s.db, e, row, effective, s.tariffs) ==> Charges(t.db.ledger, e) == Charges(s.db.ledger, e))
            && OthersUntouched(s.db, t.db, e)
  {
    var inv := s.db.invoices[e];
    var row, effective := ApprovedRow(inv, admin, amount), Effective(Max(amount, inv.actual), inv.expected);
    assert TaskOk(s, s.tasks[id]);
    t := CommitStep(s, id, token);
    CommitReaches(s, id, token);
    CommitIs(s, id, token);
    SettleEffect(s.db, e, row, effective, ManualDeposit(e, admin), s.tariffs, s.clock);
  }

  lemma ApprovalIsRead(s: State, id: nat, e: string, admin: nat, amount: int) returns (t: State)
    requires id !in s.tasks && e in s.db.invoices && amount > 0
    requires s.db.invoices[e].provider == MANUAL && s.db.invoices[e].status != PAID
    ensures Reaches(s, t)
    ensures t == s.(tasks := s.tasks[id := Waiting(e, s.db.invoices[e].userId, Approval(admin, amount))])
  {
    t := Step(s, Approve(id, e, admin, amount));
    ReachesItself(s);
    ReachesNext(s, s, Approve(id, e, admin, amount));
  }

  /** An order of 25.00 and a first part of 5.00 paid on it; the remainder of the price is ordered once more. */
  function Ordered(): Invoice { ShopInvoice(7, MANUAL, PLAN, 2500, 0, None) }
  function PartPaid(): Invoice { ApprovedRow(Ordered(), 3, 500) }
  function MorePaid(): Invoice { ApprovedRow(PartPaid(), 3, 1000) }
  function Rest(): Invoice { ShopInvoice(7, MANUAL, PLAN, 2000, 0, None) }
  function RestPaid(): Invoice { ApprovedRow(Rest(), 3, 2000) }

  /** The two approvals that are read before either commits. */
  function BothRead(): map<nat, Task> {
    map[1 := Waiting(SecondId(), 7, Approval(3, 2000)), 2 := Waiting(SecondId(), 7, Approval(4, 2000))]
  }

  function OneLeft(): map<nat, Task> { map[2 := Waiting(SecondId(), 7, Approval(4, 2000))] }

  lemma FirstPartPaid() returns (t: State)
    ensures Tells(t, Page(500, PartPaid(), 500, None, 0), map[], {10})
  {
    OpenedIsReached();
    SecondIsSecond();
    var s := Opened();
    assert Deposits(s.db.ledger, FirstId()) == 0;
    var s1 := ApprovalIsRead(s, 0, FirstId(), 3, 500);
    ReachedInv(s, s1);
    t := CommittedApproval(s1, 0, 10, FirstId(), 3, 500);
    ReachesOnward(s, s1, t);
    Continues(s, t, Page(500, PartPaid(), 500, None, 0), map[], {10});
  }

  lemma RestIsShown(s: State, p: Page)
    requires Inv(s) && Shows(s, p) && p.balance == 500 && p.second == None
    ensures Shows(Step(s, OpenShop(HEX2)), p.(second := Some(Rest()), paid2 := 0))
  {
    SecondIsSecond();
    NewRowsAreUnpaid(s, OpenShop(HEX2), SecondId());
    OpenKeepsSound(s.db, 7, MANUAL, PLAN, HEX2, s.tariffs, s.clock, None);
  }

  lemma RestOrdered(s: State) returns (t: State)
    requires Tells(s, Page(500, PartPaid(), 500, None, 0), map[], {10})
    ensures Tells(t, Page(500, PartPaid(), 500, Some(Rest()), 0), map[], {10})
  {
    t := Step(s, OpenShop(HEX2));
    RestIsShown(s, Page(500, PartPaid(), 500, None, 0));
    ReachesItself(s);
    ReachesNext(s, s, OpenShop(HEX2));
    Continues(s, t, Page(500, PartPaid(), 500, Some(Rest()), 0), map[], {10});
  }

  /** Meanwhile 4.00 of the balance are spent on another plan. */
  lemma BalanceSpent(s: State) returns (t: State)
    requires Tells(s, Page(500, PartPaid(), 500, Some(Rest()), 0), BothRead(), {10})
    ensures Tells(t, Page(100, PartPaid(), 500, Some(Rest()), 0), BothRead(), {10})
  {
    t := Step(s, BuyFromBalance(7, 7, 60));
    ReachesItself(s);
    ReachesNext(s, s, BuyFromBalance(7, 7, 60));
    assert t == s.(db := ChargeAndActivate(s.db, 7, 7, 400, Purchase(7), 60, 0)) by { BuyingIs(s); }
    PlanIsBought(s.db);
    Continues(s, t, Page(100, PartPaid(), 500, Some(Rest()), 0), BothRead(), {10});
  }

  lemma BuyingIs(s: State)
    requires s.tariffs == PRICES && s.clock == 0
    ensures BuyStep(s, 7, 7, 60) == s.(db := ChargeAndActivate(s.db, 7, 7, 400, Purchase(7), 60, 0))
  {
  }

  lemma PlanIsBought(db: Db)
    requires Sound(db) && CanPay(db, 7, 400) && db.users[7].referrer.None?
    ensures var after := ChargeAndActivate(db, 7, 7, 400, Purchase(7), 60, 0);
            && after.invoices == db.invoices && BooksElsewhere(db, after)
            && 7 in after.users && after.users[7].balance == db.users[7].balance - 400 && after.users[7].referrer.None?
  {
    ChargeAndActivateKeepsBooks(db, 7, 7, 400, Purchase(7), 60, 0);
  }

  lemma PagesAreClean(s: State)
    requires Inv(s)
    ensures FirstId() in s.db.invoices && s.db.invoices[FirstId()].userId == 7 ==>
              Credited(s.db.ledger, 7, FirstId()) == Deposits(s.db.ledger, FirstId())
    ensures SecondId() in s.db.invoices && s.db.invoices[SecondId()].userId == 7 ==>
              Credited(s.db.ledger, 7, SecondId()) == Deposits(s.db.ledger, SecondId())
  {
    HexIsHex();
    SecondIsSecond();
    assert IsShopId(FirstId(), 7) && IsShopId(SecondId(), 7);
    if FirstId() in s.db.invoices && s.db.invoices[FirstId()].userId == 7 { ShopIsClean(s.db, FirstId()); }
    if SecondId() in s.db.invoices && s.db.invoices[SecondId()].userId == 7 { ShopIsClean(s.db, SecondId()); }
  }

  lemma ShortOfPlan(db: Db, e: string, row: Invoice, effective: int)
    requires row.userId in db.users && row.payload.days == Some(PLAN)
    requires db.users[row.userId].balance + Missing(db, e, row.userId, effective) < 2500
    ensures !WillCharge(db, e, row, effective, PRICES)
    ensures var u := db.users[row.userId];
            SettledUser(db, e, row, effective, PRICES, 0)
            == u.(balance := u.balance + Missing(db, e, row.userId, effective))
  {
  }

  /** The first of the two approvals that were read: paid, but 21.00 do not cover the plan. */
  lemma RestApproved(s: State) returns (t: State)
    requires Tells(s, Page(100, PartPaid(), 500, Some(Rest()), 0), BothRead(), {10})
    ensures Tells(t, Page(2100, PartPaid(), 500, Some(RestPaid()), 2000), OneLeft(), {10, 11})
  {
    SecondIsSecond();
    PagesAreClean(s);
    assert Missing(s.db, SecondId(), 7, 2000) == 2000;
    ShortOfPlan(s.db, SecondId(), RestPaid(), 2000);
    t := CommittedApproval(s, 1, 11, SecondId(), 3, 2000);
    assert s.tasks - {1} == OneLeft();
    Continues(s, t, Page(2100, PartPaid(), 500, Some(RestPaid()), 2000), OneLeft(), {10, 11});
  }

  /** A top-up: another part of the first invoice. */
  lemma ToppedUp(s: State) returns (t: State)
    requires Tells(s, Page(2100, PartPaid(), 500, Some(RestPaid()), 2000), OneLeft(), {10, 11})
    ensures Tells(t, Page(2600, MorePaid(), 1000, Some(RestPaid()), 2000), OneLeft(), {10, 11, 12})
  {
    var s1 := ApprovalIsRead(s, 3, FirstId(), 3, 1000);
    Continues(s, s1, Page(2100, PartPaid(), 500, Some(RestPaid()), 2000), s1.tasks, {10, 11});
    assert s1.tasks - {3} == OneLeft();
    t := PartIsPaid(s1);
  }

  lemma PartIsPaid(s: State) returns (t: State)
    requires Tells(s, Page(2100, PartPaid(), 500, Some(RestPaid()), 2000), s.tasks, {10, 11})
    requires 3 in s.tasks && s.tasks[3] == Waiting(FirstId(), 7, Approval(3, 1000)) && s.tasks - {3} == OneLeft()
    ensures Tells(t, Page(2600, MorePaid(), 1000, Some(RestPaid()), 2000), OneLeft(), {10, 11, 12})
  {
    SecondIsSecond();
    PagesAreClean(s);
    assert Missing(s.db, FirstId(), 7, 1000) == 500;
    t := CommittedApproval(s, 3, 12, FirstId(), 3, 1000);
    Continues(s, t, Page(2600, MorePaid(), 1000, Some(RestPaid()), 2000), OneLeft(), {10, 11, 12});
  }

  /** The second approval finds the invoice PAID and writes nothing. */
  lemma ApprovedAgain(s: State) returns (t: State)
    requires Tells(s, Page(2600, MorePaid(), 1000, Some(RestPaid()), 2000), OneLeft(), {10, 11, 12})
    ensures Tells(t, Page(2600, MorePaid(), 1000, Some(RestPaid()), 2000), map[], {10, 11, 12, 13})
  {
    var e, job := SecondId(), Approval(4, 2000);
    assert TaskOk(s, s.tasks[2]);
    assert FundedIn(s.db, e, Seen(s, e));
    RepetitionWritesNothing(s.db, e, job, Seen(s, e), s.tariffs, s.clock);
    t := CommitStep(s, 2, 13);
    CommitReaches(s, 2, 13);
    CommitIs(s, 2, 13);
    Continues(s, t, Page(2600, MorePaid(), 1000, Some(RestPaid()), 2000), map[], {10, 11, 12, 13});
  }

  lemma BothApprovalsRead(s: State) returns (t: State)
    requires Tells(s, Page(500, PartPaid(), 500, Some(Rest()), 0), map[], {10})
    ensures Tells(t, Page(500, PartPaid(), 500, Some(Rest()), 0), BothRead(), {10})
  {
    var s1 := ApprovalIsRead(s, 1, SecondId(), 3, 2000);
    t := ApprovalIsRead(s1, 2, SecondId(), 4, 2000);
    ReachesOnward(s, s1, t);
    Continues(s, t, Page(500, PartPaid(), 500, Some(Rest()), 0), BothRead(), {10});
  }

  /** A paid invoice for a plan that was never charged, although the balance covers the plan. */
  ghost predicate PaidUncharged(t: State, e: string) {
    && e in t.db.invoices && t.db.invoices[e].status == PAID && WantsSubscription(t.db.invoices[e].payload)
    && t.db.invoices[e].userId in t.db.users && Charges(t.db.ledger, e) == 0
    && t.db.users[t.db.invoices[e].userId].balance >= PriceOf(t.tariffs, t.db.invoices[e].payload.days.value) > 0
  }

  /**
   * Two approvals of one invoice are read before either commits. The first one pays the invoice but finds the balance
   * short of the plan, a top-up makes up for it, and the second, full approval still leaves the plan uncharged.
   */
  lemma SecondApprovalDoesNotFulfil()
    ensures Initial(Start()) && exists t :: Reaches(Start(), t) && PaidUncharged(t, SecondId()) && t.tasks == map[]
  {
    StartIsInitial();
    var s := FirstPartPaid();
    s := RestOrdered(s);
    s := BothApprovalsRead(s);
    s := BalanceSpent(s);
    s := RestApproved(s);
    s := ToppedUp(s);
    s := ApprovedAgain(s);
    assert Reaches(Start(), s) && PaidUncharged(s, SecondId());
  }

  // ----- the tolerance on small invoices -----

  /** An invoice of a gateway that the shop no longer offers, left over from before; its id is a UUID. */
  const LEGACY := "9b1deb4d-3b7d-4bad-9bdd-2b0d7b3dcb6d"

  function Legacy(expected: int): State {
    var inv := Invoice(7, CRYPTOMUS, expected, 0, 0, Payload(None, None, None), PENDING, 0, None, None, None, None);
    Start().(db := Start().db.(invoices := map[LEGACY := inv]))
  }

  lemma LegacyIsInitial(expected: int)
    requires expected > 0
    ensures Initial(Legacy(expected))
  {
    assert GatewayId(LEGACY) by {
      forall i | 0 <= i < |LEGACY| ensures IsHex(LEGACY[i]) || LEGACY[i] == '-' {}
    }
  }

  /** Every legacy invoice of 0.50 or less is credited in full by its first check, although nothing was paid. */
  lemma SmallInvoiceIsGivenAway(expected: int)
    requires 0 < expected <= 50
    ensures exists t :: Reaches(Legacy(expected), t) && Top(Seen(t, LEGACY)) == 0
              && Deposits(t.db.ledger, LEGACY) == expected
  {
    var s, fetch := Legacy(expected), Fetch(0, LEGACY, Some(Reply("wait", 0)));
    LegacyIsInitial(expected);
    InitialInv(s);
    var s1 := Step(s, fetch);
    ReachesItself(s);
    ReachesNext(s, s, fetch);
    ReachedInv(s, s1);
    UnpaidIsCredited(s, s1, expected);
    ReachesOnward(s, s1, CommitStep(s1, 0, 10));
  }

  lemma UnpaidIsCredited(s: State, s1: State, expected: int)
    requires 0 < expected <= 50 && s == Legacy(expected) && Inv(s1)
    requires s1 == s.(tasks := map[0 := Waiting(LEGACY, 7, Update(Snapshot(Lower("wait"), 0, 0)))])
    ensures var t := CommitStep(s1, 0, 10);
            Reaches(s1, t) && Seen(t, LEGACY) == [0] && Deposits(t.db.ledger, LEGACY) == expected
  {
    CommitReaches(s1, 0, 10);
    CommitIs(s1, 0, 10);
    assert TaskOk(s1, s1.tasks[0]);
    PerformWritesRow(s1.db, LEGACY, s1.tasks[0].job, s1.tariffs, s1.clock);
  }

  // ----- two numeric ids that the search confuses -----

  function Numeric(): Invoice {
    Invoice(7, CRYPTOPAY, 2500, 0, 0, Payload(None, None, None), PENDING, 0, None, None, None, None)
  }

  /** Two legacy invoices of one user; the id of the one begins with the id of the other. */
  function TwoNumeric(): State {
    Start().(db := Start().db.(invoices := map["12" := Numeric(), "123" := Numeric()]))
  }

  lemma TwoNumericIsInitial()
    ensures Initial(TwoNumeric()) && Inv(TwoNumeric())
  {
    assert GatewayId("12") && GatewayId("123");
    InitialInv(TwoNumeric());
  }

  function PaidSnapshot(): Snapshot { Snapshot("paid", 2500, 2500) }

  /** A check that finds invoice `e` paid, without interference. */
  lemma Checked(s: State, e: string, id: nat, token: nat) returns (t: State)
    requires s.tasks == map[] && s.locks == map[] && token !in s.tokens
    requires e in s.db.invoices && s.db.invoices[e] == Numeric()
    ensures Reaches(s, t) && t.tasks == map[] && t.locks == map[] && t.tokens == s.tokens + {token}
    ensures t.db == ApplyUpdate(s.db, e, PaidSnapshot(), s.tariffs, s.clock).db
  {
    var fetch := Fetch(id, e, Some(Reply("paid", 0)));
    assert Lower("paid") == "paid";
    var s1 := Step(s, fetch);
    assert s1 == s.(tasks := map[id := Waiting(e, 7, Update(PaidSnapshot()))]);
    ReachesItself(s);
    ReachesNext(s, s, fetch);
    t := CommitStep(s1, id, token);
    CommitReaches(s1, id, token);
    CommitIs(s1, id, token);
    assert s1.tasks - {id} == map[];
    ReachesOnward(s, s1, t);
  }

  /** The first payment is credited, and its entry is found by the search for the other invoice. */
  lemma LongerIsCredited(db: Db, tariffs: Tariffs, now: int)
    requires db == TwoNumeric().db
    ensures var after := ApplyUpdate(db, "123", PaidSnapshot(), tariffs, now).db;
            && "12" in after.invoices && after.invoices["12"] == Numeric() && 7 in after.users
            && Deposits(after.ledger, "12") == 0 && Credited(after.ledger, 7, "12") == 2500
  {
    var after := ApplyUpdate(db, "123", PaidSnapshot(), tariffs, now).db;
    var t := Transaction(7, 2500, DEPOSIT, ProviderDeposit(CRYPTOPAY, "123", "paid"));
    assert after.ledger == [] + [t];
    Append([], t);
    AppendCredited([], t, 7, "12");
    NumericIdsCollide();
  }

  /** The second one is not. */
  lemma ShorterIsNotCredited(db: Db, tariffs: Tariffs, now: int)
    requires Sound(db) && "12" in db.invoices && db.invoices["12"] == Numeric() && 7 in db.users
    requires Deposits(db.ledger, "12") == 0 && Credited(db.ledger, 7, "12") == 2500
    ensures var after := ApplyUpdate(db, "12", PaidSnapshot(), tariffs, now).db;
            IsPaid(after, "12") && Deposits(after.ledger, "12") == 0
  {
    assert 'I' !in "paid";
    PerformWritesRow(db, "12", Update(PaidSnapshot()), tariffs, now);
  }

  lemma FirstIsChecked() returns (t: State)
    ensures Reaches(TwoNumeric(), t) && t.tasks == map[] && t.locks == map[] && t.tokens == {10}
    ensures "12" in t.db.invoices && t.db.invoices["12"] == Numeric() && 7 in t.db.users
    ensures Deposits(t.db.ledger, "12") == 0 && Credited(t.db.ledger, 7, "12") == 2500
  {
    TwoNumericIsInitial();
    t := Checked(TwoNumeric(), "123", 0, 10);
    LongerIsCredited(TwoNumeric().db, TwoNumeric().tariffs, TwoNumeric().clock);
  }

  lemma BothAreChecked() returns (t: State)
    ensures Reaches(TwoNumeric(), t) && IsPaid(t.db, "12") && Deposits(t.db.ledger, "12") == 0
  {
    var s := FirstIsChecked();
    TwoNumericIsInitial();
    ReachedInv(TwoNumeric(), s);
    t := Checked(s, "12", 0, 11);
    ShorterIsNotCredited(s.db, s.tariffs, s.clock);
    ReachesOnward(TwoNumeric(), s, t);
  }

  /** Invoice 12 is paid in full and PAID, and nothing was ever credited for it: invoice 123 was paid before. */
  lemma PaidWithoutDeposits()
    ensures Initial(TwoNumeric())
    ensures exists t :: Reaches(TwoNumeric(), t) && IsPaid(t.db, "12") && Deposits(t.db.ledger, "12") == 0
  {
    TwoNumericIsInitial();
    var t := BothAreChecked();
  }
}
