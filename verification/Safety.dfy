/**
 * The invariant of the protocol, kept by every action. The books are sound; every invoice's deposits lie below
 * what the largest amount ever applied to it owes, and what the search counts lies above it; every task carries
 * what it may write; and the renewals of every user are spaced.
 *
 * The central step is `FundingStep`: crediting the difference to the effective amount tracks the largest amount
 * seen, in whatever order amounts come. `ApplyEffect` lifts it to both processors, `LateWriteKeepsInv` to the
 * handlers that write what they read earlier, and `RenewalKeepsSpacing` deals with the bouncer. The other lemmas
 * are the cases of one step; `Guarantees` puts them together for whole runs.
 */
module Safety {
  import opened Rows
  import opened Ledger
  import opened Text
  import opened Payments
  import opened Books
  import opened Protocol

  // ----- the largest amount seen -----

  /** The largest amount in a history; nothing seen counts as zero. */
  function Top(amounts: seq<int>): (m: int)
    ensures m >= 0 && forall a <- amounts :: a <= m
    ensures m == 0 || m in amounts
  {
    if amounts == [] then 0
    else
      var front, last := amounts[..|amounts| - 1], amounts[|amounts| - 1];
      assert amounts == front + [last];
      Max(Top(front), last)
  }

  lemma TopOfAppend(amounts: seq<int>, a: int)
    ensures Top(amounts + [a]) == Max(Top(amounts), a)
  {
    assert (amounts + [a])[..|amounts|] == amounts;
  }

  /** Only which amounts occur matters, not their order and not how often they occur. */
  lemma TopIgnoresOrder(xs: seq<int>, ys: seq<int>)
    requires forall a :: a in xs <==> a in ys
    ensures Top(xs) == Top(ys)
  {
  }

  /** What an invoice is owed once `top` is the largest amount applied to it. */
  function Target(inv: Invoice, top: int): int {
    if inv.provider == CACTUS then top else Effective(top, inv.expected)
  }

  function Owed(inv: Invoice, amounts: seq<int>): int {
    if amounts == [] then 0 else Target(inv, Top(amounts))
  }

  lemma EffectiveIsMonotone(a: int, b: int, expected: int)
    requires a <= b
    ensures Effective(a, expected) <= Effective(b, expected)
    ensures a <= Effective(a, expected) <= a + TOLERANCE
  {
  }

  // ----- invariants -----

  /** Gateways that report a yes or a no can only be worth nothing or their fixed price. */
  predicate Quantised(inv: Invoice, amount: int) {
    match inv.provider
    case CACTUS => amount >= 0
      && (inv.payload.price.Some? && inv.payload.price.value > 0 ==> amount == 0 || amount == inv.payload.price.value)
    case CRYPTOPAY => amount == 0 || amount == inv.expected
    case _ => true
  }

  /**
   * The money of one invoice. What it is owed lies between its deposits and what the search counts, and PAID means that
   * it is owed its whole amount.
   */
  ghost predicate FundedOne(inv: Invoice, deposits: int, counted: int, amounts: seq<int>) {
    && deposits <= Owed(inv, amounts) <= counted
    && 0 <= inv.actual <= Top(amounts)
    && Quantised(inv, inv.actual)
    && (forall a <- amounts :: Quantised(inv, a))
    && (inv.status == PAID ==> amounts != [] && Owed(inv, amounts) >= inv.expected)
  }

  ghost predicate FundedIn(db: Db, e: string, amounts: seq<int>)
    requires e in db.invoices
  {
    FundedOne(db.invoices[e], Deposits(db.ledger, e), Counted(db, e), amounts)
  }

  ghost predicate Funded(s: State) {
    && s.seen.Keys <= s.db.invoices.Keys
    && forall e {:trigger FundedIn(s.db, e, Seen(s, e))} ::
         e in s.db.invoices ==> FundedIn(s.db, e, Seen(s, e))
  }

  ghost predicate JobOk(job: Job, inv: Invoice) {
    match job
    case Update(snap) => inv.provider != MANUAL && 'I' !in snap.status && Quantised(inv, snap.amount)
    case Approval(_, amount) => inv.provider == MANUAL && amount > 0
  }

  ghost predicate TaskOk(s: State, t: Task) {
    match t
    case Waiting(ext, uid, job) => ext in s.db.invoices && s.db.invoices[ext].userId == uid
      && JobOk(job, s.db.invoices[ext])
    case Holding(ext, uid, job, _) => ext in s.db.invoices && s.db.invoices[ext].userId == uid
      && JobOk(job, s.db.invoices[ext])
    case Releasing(_, _) => true
    case Uploading(ext, actual, _) => ext in s.db.invoices && s.db.invoices[ext].provider == MANUAL
      && 0 <= actual <= Top(Seen(s, ext))
    case Rejecting(ext, _, _) => ext in s.db.invoices
    case Expiring(ext) => ext in s.db.invoices
  }

  ghost predicate TasksOk(s: State) {
    forall id {:trigger TaskOk(s, s.tasks[id])} ::
      id in s.tasks ==> TaskOk(s, s.tasks[id])
  }

  const GAP := RENEWAL_DAYS * DAY - RENEWAL_WINDOW

  ghost predicate Spaced(rs: seq<Renewal>) {
    forall i, j | 0 <= i < j < |rs| && j == i + 1 :: rs[j].at - rs[i].at >= GAP
  }

  /** Consecutive renewals are spaced, each moves the end by 30 days, and the last one still covers the user. */
  ghost predicate RenewalsSpaced(rs: seq<Renewal>, end: Option<int>, clock: int) {
    && Spaced(rs)
    && (forall r <- rs :: r.newEnd >= r.oldEnd + RENEWAL_DAYS * DAY && r.at <= r.oldEnd && r.at <= clock)
    && (rs != [] ==>
          var covered := rs[|rs| - 1].at + RENEWAL_DAYS * DAY;
          clock >= covered || (end.Some? && end.value >= covered))
  }

  ghost predicate Renewed(s: State) {
    && s.renewals.Keys <= s.db.users.Keys
    && forall u {:trigger RenewalsOf(s, u)} ::
         u in s.db.users ==> RenewalsSpaced(RenewalsOf(s, u), s.db.users[u].subscriptionEnd, s.clock)
  }

  ghost predicate Inv(s: State) {
    && Sound(s.db)
    && TariffsOk(s.tariffs)
    && Funded(s)
    && TasksOk(s)
    && Renewed(s)
  }

  // ----- how the state may move -----

  ghost predicate InvoiceGrows(s: State, s': State, e: string)
    requires e in s.db.invoices
  {
    e in s'.db.invoices && SameContract(s.db.invoices[e], s'.db.invoices[e]) && Top(Seen(s, e)) <= Top(Seen(s', e))
  }

  /** Invoices keep their contract and what was seen of them only grows. */
  ghost predicate InvoicesGrow(s: State, s': State) {
    forall e <- s.db.invoices :: InvoiceGrows(s, s', e)
  }

  ghost predicate UserGrows(u: User, v: User) {
    u.subscriptionEnd.Some? ==> v.subscriptionEnd.Some? && u.subscriptionEnd.value <= v.subscriptionEnd.value
  }

  /** Nobody disappears and nobody loses subscription time. */
  ghost predicate UsersKept(a: Db, b: Db) {
    a.users.Keys <= b.users.Keys && forall u {:trigger b.users[u]} :: u in a.users ==> UserGrows(a.users[u], b.users[u])
  }

  ghost predicate UsersGrow(s: State, s': State) {
    UsersKept(s.db, s'.db) && s'.renewals == s.renewals && s.clock <= s'.clock
  }

  lemma GrowthKeepsTask(s: State, s': State, t: Task)
    requires InvoicesGrow(s, s') && TaskOk(s, t)
    ensures TaskOk(s', t)
  {
  }

  /** Tasks survive any step that adds at most one good task. */
  lemma GrowthKeepsTasks(s: State, s': State)
    requires InvoicesGrow(s, s') && TasksOk(s)
    requires forall id <- s'.tasks :: (id in s.tasks && s'.tasks[id] == s.tasks[id]) || TaskOk(s', s'.tasks[id])
    ensures TasksOk(s')
  {
    forall id <- s'.tasks ensures TaskOk(s', s'.tasks[id]) {
      if id in s.tasks && s'.tasks[id] == s.tasks[id] {
        assert TaskOk(s, s.tasks[id]);
        GrowthKeepsTask(s, s', s.tasks[id]);
      }
    }
  }

  lemma GrowthKeepsRenewals(s: State, s': State)
    requires UsersGrow(s, s') && Renewed(s)
    requires forall u <- s'.db.users :: u in s.db.users || u !in s.renewals
    ensures Renewed(s')
  {
    forall u <- s'.db.users ensures RenewalsSpaced(RenewalsOf(s', u), s'.db.users[u].subscriptionEnd, s'.clock) {
      assert RenewalsOf(s', u) == RenewalsOf(s, u);
      if u in s.db.users {
        assert UserGrows(s.db.users[u], s'.db.users[u]);
      }
    }
  }

  // ----- steps that only touch tasks, locks or the clock -----

  lemma QuietStep(s: State, s': State)
    requires Inv(s) && s'.db == s.db && s'.seen == s.seen && s'.renewals == s.renewals && s.clock <= s'.clock
               && TariffsOk(s'.tariffs)
    requires forall id <- s'.tasks :: (id in s.tasks && s'.tasks[id] == s.tasks[id]) || TaskOk(s', s'.tasks[id])
    ensures Inv(s')
  {
    assert forall e :: Seen(s', e) == Seen(s, e);
    GrowthKeepsTasks(s, s');
    GrowthKeepsRenewals(s, s');
  }

  /** A snapshot taken from a good row is a good job, however late it is applied. */
  lemma SnapshotIsGood(inv: Invoice, reply: Option<Reply>, tariffs: Tariffs)
    requires inv.expected > 0 && Quantised(inv, inv.actual) && TakeSnapshot(inv, reply, tariffs).Some?
    ensures JobOk(Update(TakeSnapshot(inv, reply, tariffs).value), inv)
  {
    var status := Lower(reply.value.status);
    assert 'I' !in status;
    assert 'I' !in "paid";
  }

  lemma FetchKeepsInv(s: State, id: nat, ext: string, reply: Option<Reply>)
    requires Inv(s)
    ensures Inv(FetchStep(s, id, ext, reply))
  {
    var s' := FetchStep(s, id, ext, reply);
    if s' != s {
      assert FundedIn(s.db, ext, Seen(s, ext));
      assert InvoiceOk(s.db, ext, s.db.invoices[ext]);
      SnapshotIsGood(s.db.invoices[ext], reply, s.tariffs);
      QuietStep(s, s');
    }
  }

  lemma ReadsKeepInv(s: State, s': State, id: nat, t: Task)
    requires Inv(s) && s' == Spawn(s, id, t) && TaskOk(s, t)
    ensures Inv(s')
  {
    if id !in s.tasks {
      assert TaskOk(s', t);
      QuietStep(s, s');
    }
  }

  lemma LockStepsKeepInv(s: State, id: nat, token: nat, redisUp: bool)
    requires Inv(s)
    ensures Inv(AcquireStep(s, id, token, redisUp)) && Inv(ReleaseStep(s, id)) && Inv(Drop(s, id))
  {
    QuietStep(s, Drop(s, id));
    QuietStep(s, ReleaseStep(s, id));
    var s' := AcquireStep(s, id, token, redisUp);
    if id in s.tasks && s.tasks[id].Waiting? {
      assert TaskOk(s, s.tasks[id]);
    }
    QuietStep(s, s');
  }

  // ----- applying a job -----

  /** The arithmetic heart: topping up what is counted to the effective amount tracks the largest amount seen. */
  lemma FundingStep(inv: Invoice, row: Invoice, deposits: int, counted: int, amounts: seq<int>, a: int, status: string)
    requires FundedOne(inv, deposits, counted, amounts) && SameContract(inv, row) && Quantised(inv, a)
               && inv.expected > 0
    requires row.actual == ResolvedAmount(inv, a)
    requires row.status == ResolveStatus(status, EffectiveFor(inv, a), inv.expected)
    ensures var effective := EffectiveFor(inv, a);
            FundedOne(row, deposits + Max(effective - counted, 0), Max(counted, effective), amounts + [a])
  {
    TopOfAppend(amounts, a);
    EffectiveIsMonotone(row.actual, Max(Top(amounts), a), inv.expected);
    if amounts != [] {
      EffectiveIsMonotone(Top(amounts), Max(Top(amounts), a), inv.expected);
    }
  }

  lemma SettledUserGrows(db: Db, ext: string, row: Invoice, effective: int, tariffs: Tariffs, now: int)
    requires row.userId in db.users && TariffsOk(tariffs)
    ensures UserGrows(db.users[row.userId], SettledUser(db, ext, row, effective, tariffs, now))
  {
  }

  lemma SettleKeepsUsers(db: Db, ext: string, row: Invoice, effective: int, note: Note, tariffs: Tariffs, now: int)
    requires Sound(db) && TariffsOk(tariffs) && ext in db.invoices && SameContract(db.invoices[ext], row)
               && NoteFor(note, ext)
    requires row.userId in db.users
    ensures var after := Settle(db, ext, row, effective, note, tariffs, now).db;
              UsersKept(db, after) && after.users.Keys == db.users.Keys
  {
    SettledUserGrows(db, ext, row, effective, tariffs, now);
    assert Settle(db, ext, row, effective, note, tariffs, now).db.users
           == db.users[row.userId := SettledUser(db, ext, row, effective, tariffs, now)] by {
      SettleEffect(db, ext, row, effective, note, tariffs, now);
    }
  }

  /** A settlement with a correctly resolved row keeps the invoice funded and everyone's subscription time. */
  lemma SettleKeepsFunding(db: Db, ext: string, row: Invoice, a: int, status: string, note: Note, amounts: seq<int>,
      tariffs: Tariffs, now: int)
    requires Sound(db) && TariffsOk(tariffs) && ext in db.invoices && SameContract(db.invoices[ext], row)
               && NoteFor(note, ext)
    requires row.userId in db.users && row.expected > 0 && Quantised(row, a)
    requires row.actual == ResolvedAmount(db.invoices[ext], a)
    requires row.status == ResolveStatus(status, EffectiveFor(db.invoices[ext], a), row.expected)
    requires FundedIn(db, ext, amounts)
    ensures var after := Settle(db, ext, row, EffectiveFor(db.invoices[ext], a), note, tariffs, now).db;
            && ext in after.invoices && after.invoices[ext] == row && FundedIn(after, ext, amounts + [a])
            && UsersKept(db, after) && after.users.Keys == db.users.Keys
  {
    FundingStep(db.invoices[ext], row, Deposits(db.ledger, ext), Counted(db, ext), amounts, a, status);
    var effective := EffectiveFor(db.invoices[ext], a);
    SettleKeepsUsers(db, ext, row, effective, note, tariffs, now);
    SettleEffect(db, ext, row, effective, note, tariffs, now);
    SettleCounts(db, ext, row, effective, note, tariffs, now);
  }

  /** One invoice row changes within its contract, and whatever was booked was booked for that invoice. */
  ghost predicate InvoiceChange(db: Db, after: Db, ext: string) {
    && ext in db.invoices && ext in after.invoices
    && after.invoices == db.invoices[ext := after.invoices[ext]] && SameContract(db.invoices[ext], after.invoices[ext])
    && Sound(after) && OthersUntouched(db, after, ext)
    && UsersKept(db, after) && after.users.Keys == db.users.Keys
  }

  /** What applying a job leaves behind for the invoice it names. */
  lemma ApplyEffect(db: Db, ext: string, job: Job, amounts: seq<int>, tariffs: Tariffs, now: int)
    requires Sound(db) && TariffsOk(tariffs) && ext in db.invoices && JobOk(job, db.invoices[ext])
    requires FundedIn(db, ext, amounts)
    ensures var after := Perform(db, ext, job, tariffs, now).db;
            && InvoiceChange(db, after, ext)
            && FundedIn(after, ext, amounts + [JobAmount(job)])
  {
    var inv := db.invoices[ext];
    assert InvoiceOk(db, ext, inv);
    match job {
      case Update(snap) =>
        var row, note := UpdatedRow(inv, snap), ProviderDeposit(inv.provider, ext, snap.status);
        SettleKeepsFunding(db, ext, row, snap.amount, snap.status, note, amounts, tariffs, now);
        SettleEffect(db, ext, row, EffectiveFor(inv, snap.amount), note, tariffs, now);
      case Approval(admin, amount) =>
        if AlreadyApproved(inv, amount) {
          TopOfAppend(amounts, amount);
          assert db.invoices == db.invoices[ext := inv];
        } else {
          var row, note := ApprovedRow(inv, admin, amount), ManualDeposit(ext, admin);
          SettleKeepsFunding(db, ext, row, amount, "manual", note, amounts, tariffs, now);
          SettleEffect(db, ext, row, EffectiveFor(inv, amount), note, tariffs, now);
        }
    }
  }

  /** The same for a state: no amount seen is forgotten, and the invoice stays funded. */
  ghost predicate InvoiceStep(s: State, s': State, ext: string) {
    && InvoiceChange(s.db, s'.db, ext)
    && (s'.seen == s.seen[ext := Seen(s', ext)] || s'.seen == s.seen)
    && Top(Seen(s, ext)) <= Top(Seen(s', ext))
    && FundedIn(s'.db, ext, Seen(s', ext))
  }

  lemma InvoiceStepKeepsFunding(s: State, s': State, ext: string)
    requires InvoiceStep(s, s', ext) && Funded(s)
    ensures Funded(s') && InvoicesGrow(s, s')
  {
    assert forall e :: e != ext ==> Seen(s', e) == Seen(s, e);
    forall e <- s'.db.invoices ensures FundedIn(s'.db, e, Seen(s', e)) {
      if e != ext {
        assert FundedIn(s.db, e, Seen(s, e));
        CountedGrows(s.db, s'.db, e);
      }
    }
  }

  /** Task `id` ends or goes on to release its lock. */
  ghost predicate TaskMovesOn(s: State, s': State, id: nat) {
    s'.tasks == s.tasks - {id} || (id in s'.tasks && s'.tasks[id].Releasing? && s'.tasks == s.tasks[id := s'.tasks[id]])
  }

  lemma InvoiceStepKeepsInv(s: State, s': State, ext: string, id: nat)
    requires Inv(s) && InvoiceStep(s, s', ext) && TaskMovesOn(s, s', id)
    requires s'.tariffs == s.tariffs && s'.renewals == s.renewals && s'.clock == s.clock
    ensures Inv(s')
  {
    InvoiceStepKeepsFunding(s, s', ext);
    GrowthKeepsTasks(s, s');
    GrowthKeepsRenewals(s, s');
  }

  lemma ApplyKeepsInv(s: State, id: nat)
    requires Inv(s)
    ensures Inv(ApplyStep(s, id))
  {
    if id in s.tasks && s.tasks[id].Holding? {
      ApplyIsInvoiceStep(s, id);
      InvoiceStepKeepsInv(s, ApplyStep(s, id), s.tasks[id].ext, id);
    }
  }

  lemma ApplyIsInvoiceStep(s: State, id: nat)
    requires Inv(s) && id in s.tasks && s.tasks[id].Holding?
    ensures InvoiceStep(s, ApplyStep(s, id), s.tasks[id].ext)
  {
    var t := s.tasks[id];
    assert TaskOk(s, t);
    assert FundedIn(s.db, t.ext, Seen(s, t.ext));
    ApplyEffect(s.db, t.ext, t.job, Seen(s, t.ext), s.tariffs, s.clock);
    TopOfAppend(Seen(s, t.ext), JobAmount(t.job));
  }

  // ----- late writes -----

  lemma LateRowIsFunded(inv: Invoice, t: Task, deposits: int, counted: int, amounts: seq<int>)
    requires t.Uploading? || t.Rejecting? || t.Expiring?
    requires FundedOne(inv, deposits, counted, amounts)
    requires t.Uploading? ==> inv.provider == MANUAL && 0 <= t.actual <= Top(amounts)
    ensures FundedOne(LateRow(inv, t), deposits, counted, amounts) && SameContract(inv, LateRow(inv, t))
  {
  }

  lemma RowIsInvoiceStep(s: State, s': State, ext: string, row: Invoice)
    requires Inv(s) && ext in s.db.invoices && SameContract(s.db.invoices[ext], row)
    requires FundedOne(row, Deposits(s.db.ledger, ext), Counted(s.db, ext), Seen(s, ext))
    requires s'.db == SetInvoice(s.db, ext, row) && s'.seen == s.seen
    ensures InvoiceStep(s, s', ext)
  {
    SetInvoiceKeepsSound(s.db, ext, row);
  }

  lemma LateWriteKeepsInv(s: State, id: nat)
    requires Inv(s)
    ensures Inv(LateWriteStep(s, id))
  {
    if id in s.tasks && (s.tasks[id].Uploading? || s.tasks[id].Rejecting? || s.tasks[id].Expiring?) {
      var t := s.tasks[id];
      assert TaskOk(s, t);
      var inv := s.db.invoices[t.ext];
      var row := LateRow(inv, t);
      assert FundedIn(s.db, t.ext, Seen(s, t.ext));
      LateRowIsFunded(inv, t, Deposits(s.db.ledger, t.ext), Counted(s.db, t.ext), Seen(s, t.ext));
      var s' := LateWriteStep(s, id);
      RowIsInvoiceStep(s, s', t.ext, row);
      InvoiceStepKeepsInv(s, s', t.ext, id);
    }
  }

  // ----- opening invoices and registering users -----

  lemma OpenKeepsInv(s: State, uid: nat, p: Provider, days: int, hex: string, expiresAt: Option<int>)
    requires Inv(s) && HexTail(hex)
    ensures Inv(s.(db := OpenInvoice(s.db, uid, p, days, hex, s.tariffs, s.clock, expiresAt)))
  {
    var s' := s.(db := OpenInvoice(s.db, uid, p, days, hex, s.tariffs, s.clock, expiresAt));
    OpenKeepsSound(s.db, uid, p, days, hex, s.tariffs, s.clock, expiresAt);
    assert forall e :: Seen(s', e) == Seen(s, e);
    forall e <- s'.db.invoices ensures FundedIn(s'.db, e, Seen(s', e)) {
      if e in s.db.invoices { assert FundedIn(s.db, e, Seen(s, e)); } else { CountedExactly(s'.db, e); }
    }
    GrowthKeepsTasks(s, s');
    GrowthKeepsRenewals(s, s');
  }

  /** Steps that change users and the ledger but book nothing for any invoice. */
  ghost predicate BooksElsewhere(a: Db, b: Db) {
    && b.invoices == a.invoices && a.ledger <= b.ledger
    && forall e :: Deposits(b.ledger, e) == Deposits(a.ledger, e) && Charges(b.ledger, e) == Charges(a.ledger, e)
  }

  lemma UserStepKeepsInv(s: State, s': State)
    requires Inv(s) && Sound(s'.db) && BooksElsewhere(s.db, s'.db)
    requires s'.seen == s.seen && s'.tasks == s.tasks && s'.tariffs == s.tariffs && Renewed(s')
    ensures Inv(s')
  {
    assert forall e :: Seen(s', e) == Seen(s, e);
    forall e <- s'.db.invoices ensures FundedIn(s'.db, e, Seen(s', e)) {
      assert FundedIn(s.db, e, Seen(s, e));
      CountedGrows(s.db, s'.db, e);
    }
    GrowthKeepsTasks(s, s');
  }

  lemma SignUpKeepsInv(s: State, uid: nat, referrer: Option<nat>)
    requires Inv(s)
    ensures Inv(s.(db := Register(s.db, uid, referrer)))
  {
    var s' := s.(db := Register(s.db, uid, referrer));
    RegisterKeepsSound(s.db, uid, referrer);
    GrowthKeepsRenewals(s, s');
    UserStepKeepsInv(s, s');
  }

  /** An entry that is neither a deposit nor a direct payment. */
  lemma PostElsewhere(db: Db, uid: nat, amount: int, kind: TxKind, note: Note)
    requires Sound(db) && uid in db.users && db.users[uid].balance + amount >= 0
    requires (kind == WITHDRAW && (note.Purchase? || note.AutoRenewal?)) || kind == REWARD || kind == BONUS
    ensures Sound(Post(db, uid, amount, kind, note)) && BooksElsewhere(db, Post(db, uid, amount, kind, note))
  {
    Append(db.ledger, Transaction(uid, amount, kind, note));
    PostKeepsSound(db, uid, amount, kind, note);
  }

  lemma GrantKeepsBooks(db: Db, uid: nat, hours: nat, text: string, now: int)
    requires Sound(db) && uid in db.users
    ensures var after := GrantBonus(db, uid, hours, text, now);
            Sound(after) && BooksElsewhere(db, after) && after.users.Keys == db.users.Keys && UsersKept(db, after)
  {
    var extended := Extend(db, uid, hours * 3600, now);
    SetUserKeepsSound(db, uid, extended.users[uid]);
    assert extended.users[uid].balance == UserTotal(extended.ledger, uid);
    PostElsewhere(extended, uid, 0, BONUS, BonusNote(text));
  }

  /** A bonus that first sets a flag of the user. */
  lemma FlaggedGrantKeepsInv(s: State, s': State, uid: nat, flagged: User, hours: nat, text: string)
    requires Inv(s) && uid in s.db.users
    requires flagged.balance == s.db.users[uid].balance && flagged.subscriptionEnd == s.db.users[uid].subscriptionEnd
    requires s' == s.(db := GrantBonus(s.db.(users := s.db.users[uid := flagged]), uid, hours, text, s.clock))
    ensures Inv(s')
  {
    var marked := s.db.(users := s.db.users[uid := flagged]);
    SetUserKeepsSound(s.db, uid, flagged);
    GrantKeepsBooks(marked, uid, hours, text, s.clock);
    GrowthKeepsRenewals(s, s');
    UserStepKeepsInv(s, s');
  }

  lemma BonusesKeepInv(s: State, uid: nat, hours: nat, text: string)
    requires Inv(s)
    ensures Inv(s.(db := CommunityBonus(s.db, uid, hours, text, s.clock)))
    ensures Inv(s.(db := ActivateTrial(s.db, uid, hours, text, s.clock)))
  {
    if uid in s.db.users {
      var u := s.db.users[uid];
      if !u.communityBonusUsed {
        FlaggedGrantKeepsInv(s, s.(db := CommunityBonus(s.db, uid, hours, text, s.clock)), uid,
          u.(communityBonusUsed := true), hours, text);
      }
      if !u.trialUsed {
        FlaggedGrantKeepsInv(s, s.(db := ActivateTrial(s.db, uid, hours, text, s.clock)), uid, u.(trialUsed := true),
          hours, text);
      }
    }
  }

  lemma SwitchKeepsInv(s: State, uid: nat, on: bool)
    requires Inv(s)
    ensures Inv(s.(db := SetAutoRenewal(s.db, uid, on)))
  {
    if uid in s.db.users {
      var s' := s.(db := SetAutoRenewal(s.db, uid, on));
      SetUserKeepsSound(s.db, uid, s'.db.users[uid]);
      GrowthKeepsRenewals(s, s');
      UserStepKeepsInv(s, s');
    }
  }

  // ----- purchases, renewals, expiry -----

  lemma ChargeAndActivateKeepsBooks(db: Db, uid: nat, days: nat, price: int, note: Note, bonus: int, now: int)
    requires Sound(db) && (note.Purchase? || note.AutoRenewal?)
    ensures var after := ChargeAndActivate(db, uid, days, price, note, bonus, now);
            && Sound(after) && BooksElsewhere(db, after) && after.users.Keys == db.users.Keys && UsersKept(db, after)
            && (CanPay(db, uid, price)
              ==> after.users[uid].subscriptionEnd
                  == Some(now + TimeLeft(db.users[uid].subscriptionEnd, now) + days * DAY))
            && (forall u <- db.users | u != uid :: after.users[u].subscriptionEnd == db.users[u].subscriptionEnd)
  {
    if CanPay(db, uid, price) {
      var paid := Post(db, uid, -price, WITHDRAW, note);
      PostElsewhere(db, uid, -price, WITHDRAW, note);
      var extended := Extend(paid, uid, days * DAY, now);
      SetUserKeepsSound(paid, uid, extended.users[uid]);
      var referrer := db.users[uid].referrer;
      if referrer.Some? && bonus > 0 && referrer.value in db.users {
        assert extended.users[referrer.value].balance == UserTotal(extended.ledger, referrer.value);
        PostElsewhere(extended, referrer.value, bonus, REWARD, ReferralReward(uid));
      }
    }
  }

  lemma BuyKeepsInv(s: State, uid: nat, plan: nat, bonus: int)
    requires Inv(s)
    ensures Inv(BuyStep(s, uid, plan, bonus))
  {
    var s' := BuyStep(s, uid, plan, bonus);
    var price := PriceOf(s.tariffs, plan);
    if s' != s {
      ChargeAndActivateKeepsBooks(s.db, uid, plan, price, Purchase(plan), bonus, s.clock);
      GrowthKeepsRenewals(s, s');
      UserStepKeepsInv(s, s');
    }
  }

  /** Losing the subscription is only possible once the last renewal no longer covers the user. */
  lemma DegradeKeepsSpacing(s: State, s': State, uid: nat)
    requires Renewed(s) && ExpiryDue(s.db, uid, s.clock) && s'.db == Degrade(s.db, uid)
    requires s'.renewals == s.renewals && s.clock <= s'.clock
    ensures Renewed(s')
  {
    forall u <- s'.db.users ensures RenewalsSpaced(RenewalsOf(s', u), s'.db.users[u].subscriptionEnd, s'.clock) {
      assert RenewalsOf(s', u) == RenewalsOf(s, u);
    }
  }

  lemma RenewingKeepsInv(s: State, uid: nat, price: int, bonus: int, delay: nat)
    requires Inv(s) && RenewalDue(s.db, uid, price, s.clock)
    ensures Inv(BouncerStep(s, uid, price, bonus, delay))
  {
    var s', later := BouncerStep(s, uid, price, bonus, delay), s.clock + delay;
    if IsReferralBonus(price, bonus) {
      ChargeAndActivateKeepsBooks(s.db, uid, RENEWAL_DAYS, price, AutoRenewal, bonus, later);
      RenewalKeepsSpacing(s, s', uid, price, later);
      UserStepKeepsInv(s, s');
    }
  }

  lemma DegradingKeepsInv(s: State, s': State, uid: nat)
    requires Inv(s) && ExpiryDue(s.db, uid, s.clock) && s.clock <= s'.clock
               && s' == s.(db := Degrade(s.db, uid), clock := s'.clock)
    ensures Inv(s')
  {
    SetUserKeepsSound(s.db, uid, s'.db.users[uid]);
    DegradeKeepsSpacing(s, s', uid);
    UserStepKeepsInv(s, s');
  }

  lemma BouncerKeepsInv(s: State, uid: nat, price: int, bonus: int, delay: nat)
    requires Inv(s)
    ensures Inv(BouncerStep(s, uid, price, bonus, delay))
  {
    var s' := BouncerStep(s, uid, price, bonus, delay);
    if RenewalDue(s.db, uid, price, s.clock) {
      RenewingKeepsInv(s, uid, price, bonus, delay);
    } else if IsReferralBonus(price, bonus) && ExpiryDue(s.db, uid, s.clock) {
      DegradingKeepsInv(s, s', uid);
    } else {
      QuietStep(s, s');
    }
  }

  /** A renewal happens at most an hour before the end the previous one paid for. */
  lemma RenewalExtendsSpacing(rs: seq<Renewal>, end: int, clock: int, later: int)
    requires RenewalsSpaced(rs, Some(end), clock) && 0 <= end - clock <= RENEWAL_WINDOW && clock <= later
    ensures var newEnd := NewEnd(Some(end), RENEWAL_DAYS * DAY, later);
            RenewalsSpaced(rs + [Renewal(clock, end, newEnd)], Some(newEnd), later)
  {
    var newEnd := NewEnd(Some(end), RENEWAL_DAYS * DAY, later);
    var all := rs + [Renewal(clock, end, newEnd)];
    forall i, j | 0 <= i < j < |all| && j == i + 1 ensures all[j].at - all[i].at >= GAP {
      if j < |rs| { assert all[j] == rs[j] && all[i] == rs[i]; }
    }
  }

  lemma RenewalKeepsSpacing(s: State, s': State, uid: nat, price: int, later: int)
    requires Renewed(s) && RenewalDue(s.db, uid, price, s.clock) && s.clock <= later == s'.clock
    requires s'.db.users.Keys == s.db.users.Keys
    requires s'.db.users[uid].subscriptionEnd
               == Some(NewEnd(s.db.users[uid].subscriptionEnd, RENEWAL_DAYS * DAY, later))
    requires forall u <- s.db.users | u != uid :: s'.db.users[u].subscriptionEnd == s.db.users[u].subscriptionEnd
    requires var oldEnd := s.db.users[uid].subscriptionEnd.value;
             s'.renewals == s.renewals[uid := RenewalsOf(s, uid)
               + [Renewal(s.clock, oldEnd, NewEnd(Some(oldEnd), RENEWAL_DAYS * DAY, later))]]
    ensures Renewed(s')
  {
    forall u <- s'.db.users ensures RenewalsSpaced(RenewalsOf(s', u), s'.db.users[u].subscriptionEnd, s'.clock) {
      assert RenewalsSpaced(RenewalsOf(s, u), s.db.users[u].subscriptionEnd, s.clock);
      if u == uid {
        RenewalExtendsSpacing(RenewalsOf(s, u), s.db.users[u].subscriptionEnd.value, s.clock, later);
      } else {
        assert RenewalsOf(s', u) == RenewalsOf(s, u);
      }
    }
  }
}
