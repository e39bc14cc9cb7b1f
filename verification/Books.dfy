/** The bookkeeping invariant of the payment database, and what one settlement does to it. */
module Books {
  import opened Rows
  import opened Ledger
  import opened Payments

  ghost predicate TxOk(t: Transaction, db: Db) {
    && t.userId in db.users
    && (t.kind == DEPOSIT ==>
          && IsDeposit(t.note) && t.amount > 0
          && t.note.ext in db.invoices && db.invoices[t.note.ext].userId == t.userId
          && (t.note.ProviderDeposit? ==> 'I' !in t.note.status))
    && (t.kind == WITHDRAW ==>
          || t.note.Purchase? || t.note.AutoRenewal?
          || (t.note.DirectPay? && t.note.ext in db.invoices && db.invoices[t.note.ext].userId == t.userId))
  }

  /** Every entry belongs to a user and, where it names an invoice, to that invoice's owner. */
  ghost predicate Attributed(db: Db) {
    forall t {:trigger TxOk(t, db)} ::
      t in db.ledger ==> TxOk(t, db)
  }

  ghost predicate InvoiceOk(db: Db, ext: string, inv: Invoice) {
    KnownId(ext, inv.userId) && inv.userId in db.users && inv.expected > 0
  }

  /** Invoices have owners, known ids and a positive amount. Ids may well be ones that the text search confuses. */
  ghost predicate Identified(db: Db) {
    forall e {:trigger InvoiceOk(db, e, db.invoices[e])} ::
      e in db.invoices ==> InvoiceOk(db, e, db.invoices[e])
  }

  /** Every balance is the sum of the owner's ledger entries, and never negative. */
  ghost predicate Balanced(db: Db) {
    forall u {:trigger UserTotal(db.ledger, u)} ::
      u in db.users ==> db.users[u].balance == UserTotal(db.ledger, u) && db.users[u].balance >= 0
  }

  ghost predicate ChargedOnce(db: Db) {
    forall e {:trigger Charges(db.ledger, e)} ::
      e in db.invoices ==> Charges(db.ledger, e) <= 1
  }

  ghost predicate Sound(db: Db) {
    && Attributed(db)
    && Identified(db)
    && Balanced(db)
    && ChargedOnce(db)
  }

  /** The columns of an invoice that nothing ever rewrites. */
  predicate SameContract(a: Invoice, b: Invoice) {
    a.userId == b.userId && a.provider == b.provider && a.expected == b.expected && a.payload == b.payload
    && a.createdAt == b.createdAt && a.expiresAt == b.expiresAt
  }

  // ----- what the two text queries count -----

  /** What the search for an invoice's deposits adds up to. */
  ghost function Counted(db: Db, ext: string): int
    requires ext in db.invoices
  {
    Credited(db.ledger, db.invoices[ext].userId, ext)
  }

  /** No deposit of the owner for another invoice is found by the search of this one. */
  ghost predicate Clean(db: Db, ext: string)
    requires ext in db.invoices
  {
    NoStray(db.ledger, db.invoices[ext].userId, ext)
  }

  lemma BookedFor(db: Db, ext: string)
    requires Sound(db) && ext in db.invoices
    ensures SearchableId(ext) && WellBooked(db.ledger, db.invoices[ext].userId, ext)
  {
    assert InvoiceOk(db, ext, db.invoices[ext]);
    KnownIdIsSearchable(ext, db.invoices[ext].userId);
    forall t <- db.ledger | t.kind == DEPOSIT
      ensures IsDeposit(t.note) && WellFormedNote(t.note) && t.amount > 0
      ensures t.note.ext == ext ==> t.userId == db.invoices[ext].userId
    {
      assert TxOk(t, db);
      assert InvoiceOk(db, t.note.ext, db.invoices[t.note.ext]);
      KnownIdIsSearchable(t.note.ext, t.userId);
    }
  }

  /**
   * On sound books the search never counts less than the invoice's deposits, and exactly them if and only if no stray
   * is found.
   */
  lemma CountedExactly(db: Db, ext: string)
    requires Sound(db) && ext in db.invoices
    ensures 0 <= Deposits(db.ledger, ext) <= Counted(db, ext)
    ensures Counted(db, ext) == Deposits(db.ledger, ext) + Strays(db.ledger, db.invoices[ext].userId, ext)
    ensures Counted(db, ext) == Deposits(db.ledger, ext) <==> Clean(db, ext)
  {
    BookedFor(db, ext);
    CreditedExactly(db.ledger, db.invoices[ext].userId, ext);
  }

  /** On sound books the search for the charge counts exactly the invoice's charges. */
  lemma ChargeRowsAreExact(db: Db, ext: string)
    requires Sound(db) && ext in db.invoices
    ensures ChargeRows(db.ledger, db.invoices[ext].userId, ext) == Charges(db.ledger, ext) <= 1
  {
    var uid := db.invoices[ext].userId;
    forall t <- db.ledger | t.kind == WITHDRAW
      ensures t.note.DirectPay? || t.note.Purchase? || t.note.AutoRenewal?
      ensures t.note == DirectPay(ext) ==> t.userId == uid
    {
      assert TxOk(t, db);
    }
    ChargeRowsAreCharges(db.ledger, uid, ext);
  }

  /** The pattern of `ext` cannot match any other invoice id of the same user. */
  ghost predicate Separate(db: Db, ext: string)
    requires ext in db.invoices
  {
    forall f {:trigger Apart(ext, f)} ::
      f in db.invoices && f != ext && db.invoices[f].userId == db.invoices[ext].userId ==> Apart(ext, f)
  }

  lemma SeparateIsClean(db: Db, ext: string)
    requires Sound(db) && ext in db.invoices && Separate(db, ext)
    ensures Clean(db, ext)
  {
    var uid := db.invoices[ext].userId;
    BookedFor(db, ext);
    forall t <- db.ledger ensures !Stray(t, uid, ext) {
      assert TxOk(t, db);
      if t.kind == DEPOSIT && t.userId == uid && t.note.ext != ext { SearchSeparates(t.note, ext); }
    }
  }

  ghost predicate IsShopId(ext: string, uid: nat) {
    exists p, hex :: HexTail(hex) && ext == ShopId(p, uid, hex)
  }

  /** Invoices of the shop are always clean, whatever other ids the user has. */
  lemma ShopIsClean(db: Db, ext: string)
    requires Sound(db) && ext in db.invoices && IsShopId(ext, db.invoices[ext].userId)
    ensures Clean(db, ext) && Counted(db, ext) == Deposits(db.ledger, ext)
  {
    var uid := db.invoices[ext].userId;
    var p, hex :| HexTail(hex) && ext == ShopId(p, uid, hex);
    forall f | f in db.invoices && f != ext && db.invoices[f].userId == uid ensures Apart(ext, f) {
      assert InvoiceOk(db, f, db.invoices[f]);
      ShopIdApartFromKnown(p, uid, hex, f);
    }
    SeparateIsClean(db, ext);
    CountedExactly(db, ext);
  }

  /** Any other invoice is clean if no other id of its owner begins with its id. */
  lemma PrefixFreeIsClean(db: Db, ext: string)
    requires Sound(db) && ext in db.invoices
    requires forall f <- db.invoices :: f != ext && db.invoices[f].userId == db.invoices[ext].userId ==> !(ext <= f)
    ensures Clean(db, ext) && Counted(db, ext) == Deposits(db.ledger, ext)
  {
    var uid := db.invoices[ext].userId;
    assert InvoiceOk(db, ext, db.invoices[ext]);
    if IsShopId(ext, uid) {
      ShopIsClean(db, ext);
    } else {
      forall f | f in db.invoices && f != ext && db.invoices[f].userId == uid ensures Apart(ext, f) {
        assert InvoiceOk(db, f, db.invoices[f]);
        if GatewayId(f) {
          GatewayIdsApartExactly(ext, f);
        } else {
          var p, hex :| HexTail(hex) && f == ShopId(p, uid, hex);
          ShopApartFromGateway(p, uid, hex, ext);
        }
      }
      SeparateIsClean(db, ext);
      CountedExactly(db, ext);
    }
  }

  // ----- elementary writes keep the books sound -----

  lemma PostKeepsSound(db: Db, uid: nat, amount: int, kind: TxKind, note: Note)
    requires Sound(db) && uid in db.users
    requires TxOk(Transaction(uid, amount, kind, note), db)
    requires db.users[uid].balance + amount >= 0
    requires kind == WITHDRAW && note.DirectPay? ==> Charges(db.ledger, note.ext) == 0
    ensures Sound(Post(db, uid, amount, kind, note))
  {
    var t := Transaction(uid, amount, kind, note);
    var after := Post(db, uid, amount, kind, note);
    Append(db.ledger, t);
    forall x <- after.ledger ensures TxOk(x, after) {
      assert x == t || x in db.ledger;
      assert TxOk(x, db);
    }
    forall e <- after.invoices ensures InvoiceOk(after, e, after.invoices[e]) {
      assert InvoiceOk(db, e, db.invoices[e]);
    }
  }

  lemma SetInvoiceKeepsSound(db: Db, ext: string, row: Invoice)
    requires Sound(db) && ext in db.invoices && SameContract(db.invoices[ext], row)
    ensures Sound(SetInvoice(db, ext, row))
  {
    var after := SetInvoice(db, ext, row);
    forall x <- after.ledger ensures TxOk(x, after) {
      assert TxOk(x, db);
    }
    forall e <- after.invoices ensures InvoiceOk(after, e, after.invoices[e]) {
      assert InvoiceOk(db, e, db.invoices[e]);
    }
  }

  /** Changing anything about a user but the balance. */
  lemma SetUserKeepsSound(db: Db, uid: nat, u: User)
    requires Sound(db) && uid in db.users && u.balance == db.users[uid].balance
    ensures Sound(db.(users := db.users[uid := u]))
  {
    var after := db.(users := db.users[uid := u]);
    forall x <- after.ledger ensures TxOk(x, after) {
      assert TxOk(x, db);
    }
    forall e <- after.invoices ensures InvoiceOk(after, e, after.invoices[e]) {
      assert InvoiceOk(db, e, db.invoices[e]);
    }
  }

  lemma {:induction false} NothingBookedForStranger(ledger: seq<Transaction>, uid: nat)
    requires forall t <- ledger :: t.userId != uid
    ensures UserTotal(ledger, uid) == 0
  {
    if ledger != [] {
      assert ledger[|ledger| - 1] in ledger;
      assert forall t <- ledger[..|ledger| - 1] :: t in ledger;
      NothingBookedForStranger(ledger[..|ledger| - 1], uid);
    }
  }

  lemma {:induction false} NothingBookedForNewInvoice(ledger: seq<Transaction>, ext: string)
    requires forall t <- ledger :: t.kind == DEPOSIT ==> IsDeposit(t.note) && t.note.ext != ext
    requires forall t <- ledger :: t.kind == WITHDRAW ==> t.note != DirectPay(ext)
    ensures Deposits(ledger, ext) == 0 && Charges(ledger, ext) == 0
  {
    if ledger != [] {
      assert ledger[|ledger| - 1] in ledger;
      assert forall t <- ledger[..|ledger| - 1] :: t in ledger;
      NothingBookedForNewInvoice(ledger[..|ledger| - 1], ext);
    }
  }

  lemma RegisterKeepsSound(db: Db, uid: nat, referrer: Option<nat>)
    requires Sound(db)
    ensures Sound(Register(db, uid, referrer))
  {
    var after := Register(db, uid, referrer);
    if uid !in db.users {
      forall t <- db.ledger ensures t.userId != uid {
        assert TxOk(t, db);
      }
      NothingBookedForStranger(db.ledger, uid);
      forall x <- after.ledger ensures TxOk(x, after) {
        assert TxOk(x, db);
      }
      forall e <- after.invoices ensures InvoiceOk(after, e, after.invoices[e]) {
        assert InvoiceOk(db, e, db.invoices[e]);
      }
    }
  }

  /** A shop invoice starts with nothing booked for it. */
  lemma OpenKeepsSound(db: Db, uid: nat, p: Provider, days: int, hex: string, tariffs: Tariffs, now: int,
      expiresAt: Option<int>)
    requires Sound(db) && HexTail(hex)
    ensures var after := OpenInvoice(db, uid, p, days, hex, tariffs, now, expiresAt);
            && Sound(after)
            && (forall e | e in after.invoices && e !in db.invoices ::
              Deposits(db.ledger, e) == 0 && Charges(db.ledger, e) == 0)
  {
    var after := OpenInvoice(db, uid, p, days, hex, tariffs, now, expiresAt);
    var ext := ShopId(p, uid, hex);
    if after != db {
      forall t <- db.ledger
        ensures t.kind == DEPOSIT ==> IsDeposit(t.note) && t.note.ext != ext
        ensures t.kind == WITHDRAW ==> t.note != DirectPay(ext)
        ensures TxOk(t, after)
      {
        assert TxOk(t, db);
      }
      NothingBookedForNewInvoice(db.ledger, ext);
      forall e <- after.invoices ensures InvoiceOk(after, e, after.invoices[e]) {
        if e != ext { assert InvoiceOk(db, e, db.invoices[e]); }
      }
    }
  }

  // ----- what one settlement does -----

  predicate NoteFor(note: Note, ext: string) {
    IsDeposit(note) && note.ext == ext && (note.ProviderDeposit? ==> 'I' !in note.status)
  }

  /** Entries were only added, and all that concern an invoice concern `ext`. */
  ghost predicate OthersUntouched(before: Db, after: Db, ext: string) {
    && before.ledger <= after.ledger
    && forall e :: e != ext ==>
         Deposits(after.ledger, e) == Deposits(before.ledger, e)
           && Charges(after.ledger, e) == Charges(before.ledger, e)
  }

  lemma CountedGrows(before: Db, after: Db, e: string)
    requires Sound(after) && before.ledger <= after.ledger && e in before.invoices && e in after.invoices
    requires before.invoices[e].userId == after.invoices[e].userId
    ensures Counted(before, e) <= Counted(after, e)
  {
    forall t <- after.ledger | t.kind == DEPOSIT ensures t.amount > 0 {
      assert TxOk(t, after);
    }
    CreditedGrows(before.ledger, after.ledger, before.invoices[e].userId, e);
  }

  /** What is still to be credited, as far as the search can tell. */
  ghost function Missing(db: Db, ext: string, uid: nat, effective: int): int {
    Max(effective - Credited(db.ledger, uid, ext), 0)
  }

  lemma CreditChangesUser(db: Db, ext: string, uid: nat, effective: int, note: Note)
    requires uid in db.users
    ensures var u := db.users[uid];
            Credit(db, ext, uid, effective, note).users
            == db.users[uid := u.(balance := u.balance + Missing(db, ext, uid, effective))]
  {
    var u := db.users[uid];
    assert u.(balance := u.balance + 0) == u && db.users[uid := u] == db.users;
  }

  lemma CreditBooks(db: Db, ext: string, uid: nat, effective: int, note: Note)
    requires uid in db.users && NoteFor(note, ext) && SearchableId(ext)
    ensures var after := Credit(db, ext, uid, effective, note);
            && Deposits(after.ledger, ext) == Deposits(db.ledger, ext) + Missing(db, ext, uid, effective)
            && Charges(after.ledger, ext) == Charges(db.ledger, ext)
            && OthersUntouched(db, after, ext)
  {
    var delta := effective - Credited(db.ledger, uid, ext);
    if delta > 0 {
      var t := Transaction(uid, delta, DEPOSIT, note);
      Append(db.ledger, t);
      assert Credit(db, ext, uid, effective, note).ledger == db.ledger + [t];
    }
  }

  /** The search finds the entry that crediting writes. */
  lemma CreditCounts(db: Db, ext: string, uid: nat, effective: int, note: Note)
    requires uid in db.users && NoteFor(note, ext) && SearchableId(ext)
    ensures Credited(Credit(db, ext, uid, effective, note).ledger, uid, ext)
            == Max(Credited(db.ledger, uid, ext), effective)
  {
    var was := Credited(db.ledger, uid, ext);
    if effective > was {
      var t := Transaction(uid, effective - was, DEPOSIT, note);
      AppendCredited(db.ledger, t, uid, ext);
      SearchSeparates(note, ext);
      assert Credit(db, ext, uid, effective, note).ledger == db.ledger + [t];
    }
  }

  lemma FulfilCounts(before: Db, db: Db, ext: string, uid: nat, days: int, tariffs: Tariffs, now: int,
      dto: PaymentUpdate)
    requires Sound(db) && ext in db.invoices && db.invoices[ext].userId == uid && uid in db.users
    requires dto.newBalance == db.users[uid].balance && !dto.subActivated && dto.problem != Some(UnexpectedError)
    ensures Credited(Fulfil(before, db, ext, uid, days, tariffs, now, dto).db.ledger, uid, ext)
            == Credited(db.ledger, uid, ext)
  {
    FulfilCharges(before, db, ext, uid, days, tariffs, now, dto);
    AppendCredited(db.ledger, Transaction(uid, -PriceOf(tariffs, days), WITHDRAW, DirectPay(ext)), uid, ext);
  }

  lemma CreditKeepsSound(db: Db, ext: string, uid: nat, effective: int, note: Note)
    requires Sound(db) && ext in db.invoices && db.invoices[ext].userId == uid && uid in db.users && NoteFor(note, ext)
    ensures Sound(Credit(db, ext, uid, effective, note))
  {
    var delta := effective - Credited(db.ledger, uid, ext);
    if delta > 0 {
      assert db.users[uid].balance == UserTotal(db.ledger, uid);
      PostKeepsSound(db, uid, delta, DEPOSIT, note);
    }
  }

  /** Crediting raises what the search counts to the effective amount, and the deposits by as much. */
  lemma CreditEffect(db: Db, ext: string, row: Invoice, effective: int, note: Note)
    requires Sound(db) && ext in db.invoices && SameContract(db.invoices[ext], row) && NoteFor(note, ext)
               && row.userId in db.users
    ensures var saved := SetInvoice(Credit(db, ext, row.userId, effective, note), ext, row);
            var u, missing := db.users[row.userId], Missing(db, ext, row.userId, effective);
            && Sound(saved)
            && saved.invoices == db.invoices[ext := row]
            && saved.users == db.users[row.userId := u.(balance := u.balance + missing)]
            && Deposits(saved.ledger, ext) == Deposits(db.ledger, ext) + missing
            && Charges(saved.ledger, ext) == Charges(db.ledger, ext)
            && OthersUntouched(db, saved, ext)
  {
    var uid := row.userId;
    BookedFor(db, ext);
    CreditChangesUser(db, ext, uid, effective, note);
    CreditBooks(db, ext, uid, effective, note);
    CreditKeepsSound(db, ext, uid, effective, note);
    SetInvoiceKeepsSound(Credit(db, ext, uid, effective, note), ext, row);
  }

  lemma Overwrite<K, V>(m: map<K, V>, k: K, a: V, b: V)
    ensures m[k := a][k := b] == m[k := b]
  {
  }

  /** The time a user has left: none without a subscription or once it is over. */
  function TimeLeft(end: Option<int>, now: int): nat {
    if end.Some? && end.value > now then end.value - now else 0
  }

  function ChargedUser(u: User, days: int, price: int, now: int): User {
    u.(balance := u.balance - price, subscriptionEnd := Some(now + TimeLeft(u.subscriptionEnd, now) + days * DAY))
  }

  lemma ChargeChangesUser(db: Db, uid: nat, days: int, price: int, note: Note, now: int)
    requires uid in db.users
    ensures Post(Extend(db, uid, days * DAY, now), uid, -price, WITHDRAW, note).users
            == db.users[uid := ChargedUser(db.users[uid], days, price, now)]
  {
    Overwrite(db.users, uid, Extend(db, uid, days * DAY, now).users[uid], ChargedUser(db.users[uid], days, price, now));
  }

  lemma ChargeEffect(db: Db, ext: string, uid: nat, days: int, price: int, now: int)
    requires Sound(db) && ext in db.invoices && db.invoices[ext].userId == uid && uid in db.users
    requires Charges(db.ledger, ext) == 0 && db.users[uid].balance >= price
    ensures var after := Post(Extend(db, uid, days * DAY, now), uid, -price, WITHDRAW, DirectPay(ext));
            && Sound(after)
            && after.users == db.users[uid := ChargedUser(db.users[uid], days, price, now)]
            && Charges(after.ledger, ext) == 1
            && Deposits(after.ledger, ext) == Deposits(db.ledger, ext)
            && OthersUntouched(db, after, ext)
  {
    var extended := Extend(db, uid, days * DAY, now);
    ChargeChangesUser(db, uid, days, price, DirectPay(ext), now);
    SetUserKeepsSound(db, uid, extended.users[uid]);
    Append(extended.ledger, Transaction(uid, -price, WITHDRAW, DirectPay(ext)));
    PostKeepsSound(extended, uid, -price, WITHDRAW, DirectPay(ext));
  }

  /** Whether the intent of an invoice worth `days` days is charged now. */
  ghost predicate WillFulfil(db: Db, ext: string, uid: nat, days: int, tariffs: Tariffs)
    requires uid in db.users
  {
    Charges(db.ledger, ext) == 0 && 0 < PriceOf(tariffs, days) <= db.users[uid].balance
  }

  /** What is written, and what is answered about it. */
  lemma FulfilCharges(before: Db, db: Db, ext: string, uid: nat, days: int, tariffs: Tariffs, now: int,
      dto: PaymentUpdate)
    requires Sound(db) && ext in db.invoices && db.invoices[ext].userId == uid && uid in db.users
    requires dto.newBalance == db.users[uid].balance && !dto.subActivated && dto.problem != Some(UnexpectedError)
    ensures var o := Fulfil(before, db, ext, uid, days, tariffs, now, dto);
            var pays := WillFulfil(db, ext, uid, days, tariffs);
            && o.db == (if pays then Post(Extend(db, uid, days * DAY, now), uid, -PriceOf(tariffs, days), WITHDRAW,
              DirectPay(ext)) else db)
            && o.update.problem != Some(UnexpectedError)
            && o.update.newBalance == o.db.users[uid].balance
            && o.update.delta == dto.delta
            && (o.update.subActivated <==> pays || Charges(db.ledger, ext) == 1)
  {
    ChargeRowsAreExact(db, ext);
  }

  /** Fulfilling never meets two charge rows; it charges exactly when it was not charged before and can be paid. */
  lemma FulfilEffect(before: Db, db: Db, ext: string, uid: nat, days: int, tariffs: Tariffs, now: int,
      dto: PaymentUpdate)
    requires Sound(db) && ext in db.invoices && db.invoices[ext].userId == uid && uid in db.users
    requires dto.newBalance == db.users[uid].balance && !dto.subActivated && dto.problem != Some(UnexpectedError)
    ensures var o := Fulfil(before, db, ext, uid, days, tariffs, now, dto);
            var u := db.users[uid];
            var pays := WillFulfil(db, ext, uid, days, tariffs);
            && Sound(o.db)
            && o.db.invoices == db.invoices
            && o.db.users == (if pays then db.users[uid := ChargedUser(u, days, PriceOf(tariffs, days), now)]
              else db.users)
            && Deposits(o.db.ledger, ext) == Deposits(db.ledger, ext)
            && Charges(o.db.ledger, ext) == (if pays then 1 else Charges(db.ledger, ext))
            && OthersUntouched(db, o.db, ext)
            && o.update.problem != Some(UnexpectedError)
            && o.update.newBalance == o.db.users[uid].balance
            && o.update.delta == dto.delta
            && (o.update.subActivated <==> Charges(o.db.ledger, ext) == 1)
  {
    FulfilCharges(before, db, ext, uid, days, tariffs, now, dto);
    if WillFulfil(db, ext, uid, days, tariffs) {
      ChargeEffect(db, ext, uid, days, PriceOf(tariffs, days), now);
    }
  }

  /** The database after crediting, before the intent is looked at. */
  ghost function Saved(db: Db, ext: string, row: Invoice, effective: int, note: Note): Db
    requires row.userId in db.users
  {
    SetInvoice(Credit(db, ext, row.userId, effective, note), ext, row)
  }

  /** Whether settling on `effective` cents charges the subscription now. */
  ghost predicate WillCharge(db: Db, ext: string, row: Invoice, effective: int, tariffs: Tariffs)
    requires row.userId in db.users
  {
    && row.status == PAID && WantsSubscription(row.payload)
    && Charges(db.ledger, ext) == 0
    && 0 < PriceOf(tariffs, row.payload.days.value)
       <= db.users[row.userId].balance + Missing(db, ext, row.userId, effective)
  }

  /** The owner's row after a settlement: credited what was missing, charged and extended if the intent is fulfilled. */
  ghost function SettledUser(db: Db, ext: string, row: Invoice, effective: int, tariffs: Tariffs, now: int): User
    requires row.userId in db.users
  {
    var u := db.users[row.userId];
    var credited := u.(balance := u.balance + Missing(db, ext, row.userId, effective));
    if WillCharge(db, ext, row, effective, tariffs)
    then ChargedUser(credited, row.payload.days.value, PriceOf(tariffs, row.payload.days.value), now) else credited
  }

  /** A settlement is the crediting, followed by the fulfilment for a paid invoice of a subscription. */
  lemma SettleIs(db: Db, ext: string, row: Invoice, effective: int, note: Note, tariffs: Tariffs, now: int)
    requires row.userId in db.users && ext in db.invoices
    ensures var saved, dto := Saved(db, ext, row, effective, note), SavedUpdate(db, ext, row, effective, note);
            Settle(db, ext, row, effective, note, tariffs, now)
            == if row.status == PAID && WantsSubscription(row.payload)
               then Fulfil(db, saved, ext, row.userId, row.payload.days.value, tariffs, now, dto)
               else Outcome(saved, dto)
  {
  }

  /**
   * What a settlement on sound books comes to: the deposits of the invoice rise by what is missing, the subscription
   * is charged at most once, only the owner's row and this invoice change, and the query that raises on two rows
   * never does.
   */
  ghost predicate IsSettled(db: Db, ext: string, row: Invoice, effective: int, tariffs: Tariffs, now: int, o: Outcome)
    requires row.userId in db.users
  {
    && Sound(o.db)
    && o.db.invoices == db.invoices[ext := row]
    && o.db.users == db.users[row.userId := SettledUser(db, ext, row, effective, tariffs, now)]
    && Deposits(o.db.ledger, ext) == Deposits(db.ledger, ext) + Missing(db, ext, row.userId, effective)
    && Charges(o.db.ledger, ext)
      == Charges(db.ledger, ext) + (if WillCharge(db, ext, row, effective, tariffs) then 1 else 0)
    && OthersUntouched(db, o.db, ext)
    && o.update.problem != Some(UnexpectedError)
    && o.update.newBalance == o.db.users[row.userId].balance
    && o.update.delta == Missing(db, ext, row.userId, effective)
    && (o.update.subActivated
      <==> row.status == PAID && WantsSubscription(row.payload) && Charges(o.db.ledger, ext) == 1)
  }

  /** The answer that goes with the crediting. */
  ghost function SavedUpdate(db: Db, ext: string, row: Invoice, effective: int, note: Note): PaymentUpdate
    requires row.userId in db.users
  {
    SettledUpdate(row, effective, effective - Credited(db.ledger, row.userId, ext),
      Saved(db, ext, row, effective, note).users[row.userId].balance)
  }

  lemma UntouchedInTurn(a: Db, b: Db, c: Db, ext: string)
    requires OthersUntouched(a, b, ext) && OthersUntouched(b, c, ext)
    ensures OthersUntouched(a, c, ext)
  {
  }

  lemma ChargesAreDue(db: Db, ext: string, row: Invoice, effective: int, note: Note, tariffs: Tariffs, now: int)
    requires Sound(db) && ext in db.invoices && SameContract(db.invoices[ext], row) && NoteFor(note, ext)
               && row.userId in db.users && row.status == PAID && WantsSubscription(row.payload)
    ensures var saved, days := Saved(db, ext, row, effective, note), row.payload.days.value;
            var price, pays := PriceOf(tariffs, days), WillCharge(db, ext, row, effective, tariffs);
            && row.userId in saved.users && (pays <==> WillFulfil(saved, ext, row.userId, days, tariffs))
            && (if pays then saved.users[row.userId := ChargedUser(saved.users[row.userId], days, price, now)]
                else saved.users) == db.users[row.userId := SettledUser(db, ext, row, effective, tariffs, now)]
  {
    var uid := row.userId;
    CreditEffect(db, ext, row, effective, note);
    Overwrite(db.users, uid, Saved(db, ext, row, effective, note).users[uid],
      SettledUser(db, ext, row, effective, tariffs, now));
  }

  lemma FulfilmentSettles(db: Db, ext: string, row: Invoice, effective: int, note: Note, tariffs: Tariffs, now: int)
    requires Sound(db) && ext in db.invoices && SameContract(db.invoices[ext], row) && NoteFor(note, ext)
               && row.userId in db.users && row.status == PAID && WantsSubscription(row.payload)
    ensures IsSettled(db, ext, row, effective, tariffs, now,
                      Fulfil(db, Saved(db, ext, row, effective, note), ext, row.userId, row.payload.days.value, tariffs,
                             now, SavedUpdate(db, ext, row, effective, note)))
  {
    var uid, days := row.userId, row.payload.days.value;
    var saved, dto := Saved(db, ext, row, effective, note), SavedUpdate(db, ext, row, effective, note);
    ChargesAreDue(db, ext, row, effective, note, tariffs, now);
    CreditEffect(db, ext, row, effective, note);
    FulfilEffect(db, saved, ext, uid, days, tariffs, now, dto);
    UntouchedInTurn(db, saved, Fulfil(db, saved, ext, uid, days, tariffs, now, dto).db, ext);
  }

  lemma SavingSettles(db: Db, ext: string, row: Invoice, effective: int, note: Note, tariffs: Tariffs, now: int)
    requires Sound(db) && ext in db.invoices && SameContract(db.invoices[ext], row) && NoteFor(note, ext)
               && row.userId in db.users && !(row.status == PAID && WantsSubscription(row.payload))
    ensures IsSettled(db, ext, row, effective, tariffs, now,
                      Outcome(Saved(db, ext, row, effective, note), SavedUpdate(db, ext, row, effective, note)))
  {
    CreditEffect(db, ext, row, effective, note);
  }

  /** Settling does that. */
  lemma SettleEffect(db: Db, ext: string, row: Invoice, effective: int, note: Note, tariffs: Tariffs, now: int)
    requires Sound(db) && ext in db.invoices && SameContract(db.invoices[ext], row) && NoteFor(note, ext)
               && row.userId in db.users
    ensures IsSettled(db, ext, row, effective, tariffs, now, Settle(db, ext, row, effective, note, tariffs, now))
  {
    SettleIs(db, ext, row, effective, note, tariffs, now);
    if row.status == PAID && WantsSubscription(row.payload) {
      FulfilmentSettles(db, ext, row, effective, note, tariffs, now);
    } else {
      SavingSettles(db, ext, row, effective, note, tariffs, now);
    }
  }

  /** And what the search counts rises to the effective amount. */
  lemma SettleCounts(db: Db, ext: string, row: Invoice, effective: int, note: Note, tariffs: Tariffs, now: int)
    requires Sound(db) && ext in db.invoices && SameContract(db.invoices[ext], row) && NoteFor(note, ext)
               && row.userId in db.users
    ensures Credited(Settle(db, ext, row, effective, note, tariffs, now).db.ledger, row.userId, ext)
            == Max(Credited(db.ledger, row.userId, ext), effective)
  {
    var uid := row.userId;
    var saved := Saved(db, ext, row, effective, note);
    BookedFor(db, ext);
    CreditCounts(db, ext, uid, effective, note);
    if row.status == PAID && WantsSubscription(row.payload) {
      CreditKeepsSound(db, ext, uid, effective, note);
      SetInvoiceKeepsSound(Credit(db, ext, uid, effective, note), ext, row);
      var dto := SettledUpdate(row, effective, effective - Credited(db.ledger, uid, ext), saved.users[uid].balance);
      FulfilCounts(db, saved, ext, uid, row.payload.days.value, tariffs, now, dto);
    }
  }

  /** Whether bringing the deposits to `after` tops them up to the effective amount, as far as the strays allow. */
  ghost predicate ToppedUp(db: Db, ext: string, effective: int, after: int)
    requires ext in db.invoices
  {
    && after == Max(Deposits(db.ledger, ext), effective - Strays(db.ledger, db.invoices[ext].userId, ext))
    && (after >= effective <==> Clean(db, ext) || Deposits(db.ledger, ext) >= effective)
  }

  lemma MissingTopsUp(db: Db, ext: string, effective: int, after: int)
    requires Sound(db) && ext in db.invoices && after == Deposits(db.ledger, ext) + Max(effective - Counted(db, ext), 0)
    ensures ToppedUp(db, ext, effective, after)
  {
    CountedExactly(db, ext);
  }

  lemma SettleDeposits(db: Db, ext: string, row: Invoice, effective: int, note: Note, tariffs: Tariffs, now: int)
    requires Sound(db) && ext in db.invoices && SameContract(db.invoices[ext], row) && NoteFor(note, ext)
               && row.userId in db.users
    ensures Deposits(Settle(db, ext, row, effective, note, tariffs, now).db.ledger, ext)
            == Deposits(db.ledger, ext) + Max(effective - Counted(db, ext), 0)
  {
    SettleEffect(db, ext, row, effective, note, tariffs, now);
  }

  /**
   * What strays cost. A settlement brings the deposits up to the effective amount less the strays, so it funds an
   * invoice in full if and only if there is no stray or the deposits were enough before. With 5.00 deposited for
   * invoice 123, a payment of 5.00 on invoice 12 credits nothing.
   */
  lemma SettlementFundsExactly(db: Db, ext: string, row: Invoice, effective: int, note: Note, tariffs: Tariffs,
      now: int)
    requires Sound(db) && ext in db.invoices && SameContract(db.invoices[ext], row) && NoteFor(note, ext)
               && row.userId in db.users
    ensures ToppedUp(db, ext, effective, Deposits(Settle(db, ext, row, effective, note, tariffs, now).db.ledger, ext))
  {
    SettleDeposits(db, ext, row, effective, note, tariffs, now);
    MissingTopsUp(db, ext, effective, Deposits(Settle(db, ext, row, effective, note, tariffs, now).db.ledger, ext));
  }
}
