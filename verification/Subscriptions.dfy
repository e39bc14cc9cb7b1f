/**
 * Subscriptions over the runs of the protocol: who is renewed and when, which free periods are granted, who can be
 * whose referrer.
 */
module Subscriptions {
  import opened Rows
  import opened Ledger
  import opened Payments
  import opened Books
  import opened Protocol
  import opened Safety
  import opened Guarantees
  import opened Effects

  predicate IsRenewal(t: Transaction, u: nat) {
    t.userId == u && t.kind == WITHDRAW && t.note == AutoRenewal
  }

  /** How often the ledger says that user `u` was renewed automatically. */
  function RenewalEntries(ledger: seq<Transaction>, u: nat): nat {
    if ledger == [] then 0
    else RenewalEntries(ledger[..|ledger| - 1], u) + if IsRenewal(ledger[|ledger| - 1], u) then 1 else 0
  }

  lemma {:induction false} EntriesAdd(a: seq<Transaction>, b: seq<Transaction>, u: nat)
    ensures RenewalEntries(a + b, u) == RenewalEntries(a, u) + RenewalEntries(b, u)
  {
    if b == [] {
      assert a + b == a;
    } else {
      assert (a + b)[..|a + b| - 1] == a + b[..|b| - 1];
      EntriesAdd(a, b[..|b| - 1], u);
    }
  }

  /** A visit of the bouncer that renews user `u`. */
  predicate RenewsNow(s: State, a: Action, u: nat) {
    && a.BouncerVisit? && a.uid == u && u in s.db.users
    && IsReferralBonus(a.price, a.bonus) && Renews(s.db.users[u], a.price, s.clock)
  }

  lemma NoneIn(ts: seq<Transaction>, u: nat)
    requires forall t <- ts :: !IsRenewal(t, u)
    ensures RenewalEntries(ts, u) == 0
  {
    if ts != [] { NoneIn(ts[..|ts| - 1], u); }
  }

  lemma BoughtEntries(db: Db, after: Db, uid: nat, days: int, price: int, note: Note, bonus: int, now: int, u: nat)
    requires uid in db.users && IsBought(db, after, uid, days, price, note, bonus, now)
    ensures RenewalEntries(after.ledger, u)
            == RenewalEntries(db.ledger, u) + if note == AutoRenewal && u == uid then 1 else 0
  {
    var first := [Transaction(uid, -price, WITHDRAW, note)];
    var rest := after.ledger[|db.ledger| + 1..];
    assert after.ledger == db.ledger + first + rest;
    EntriesAdd(db.ledger + first, rest, u);
    EntriesAdd(db.ledger, first, u);
    NoneIn(rest, u);
    assert first[..0] == [];
  }

  /** What only the user, a bonus or the registration sets. */
  predicate SameSettings(a: User, b: User) {
    && a.autoRenewal == b.autoRenewal
    && a.referrer == b.referrer
    && a.trialUsed == b.trialUsed
    && a.communityBonusUsed == b.communityBonusUsed
  }

  /** Nobody comes or goes or is set differently. */
  ghost predicate KeepsPeople(a: Db, b: Db) {
    && b.users.Keys == a.users.Keys
    && forall v {:trigger b.users[v]} :: v in a.users ==> SameSettings(a.users[v], b.users[v])
  }

  lemma ProcessedEntries(db: Db, o: Outcome, ext: string, note: Note, tariffs: Tariffs, now: int, u: nat)
    requires ext in db.invoices && IsProcessed(db, o, ext, note, tariffs, now) && IsDeposit(note)
    ensures RenewalEntries(o.db.ledger, u) == RenewalEntries(db.ledger, u) && KeepsPeople(db, o.db)
  {
    ProcessedKeepsPeople(db, o, ext, note, tariffs, now);
    var row := o.db.invoices[ext];
    BookedEntries(db, o.db, ext, row, Max(WorthOf(row) - Counted(db, ext), 0), note, tariffs, now, u);
  }

  lemma BookedEntries(db: Db, after: Db, ext: string, row: Invoice, credit: int, note: Note, tariffs: Tariffs, now: int,
      u: nat)
    requires row.userId in db.users && IsBooked(db, after, ext, row, credit, note, tariffs, now) && IsDeposit(note)
    ensures RenewalEntries(after.ledger, u) == RenewalEntries(db.ledger, u)
  {
    var deposit := if credit > 0 then [Transaction(row.userId, credit, DEPOSIT, note)] else [];
    var price := PlanPrice(row, tariffs);
    var charge := if ChargesPlan(db, ext, row, credit, tariffs)
      then [Transaction(row.userId, -price, WITHDRAW, DirectPay(ext))] else [];
    EntriesAdd(db.ledger + deposit, charge, u);
    EntriesAdd(db.ledger, deposit, u);
    NoneIn(deposit, u);
    NoneIn(charge, u);
  }

  lemma ProcessedKeepsPeople(db: Db, o: Outcome, ext: string, note: Note, tariffs: Tariffs, now: int)
    requires ext in db.invoices && IsProcessed(db, o, ext, note, tariffs, now)
    ensures KeepsPeople(db, o.db)
  {
  }

  lemma ApplyRenewsNobody(s: State, id: nat, u: nat)
    requires Inv(s)
    ensures RenewalEntries(ApplyStep(s, id).db.ledger, u) == RenewalEntries(s.db.ledger, u)
    ensures KeepsPeople(s.db, ApplyStep(s, id).db)
  {
    if id in s.tasks && s.tasks[id].Holding? {
      var t := s.tasks[id];
      assert TaskOk(s, t);
      var o := Perform(s.db, t.ext, t.job, s.tariffs, s.clock);
      match t.job {
        case Update(snap) =>
          UpdateEffect(s.db, t.ext, snap, s.tariffs, s.clock);
          ProcessedEntries(s.db, o, t.ext, ProviderDeposit(s.db.invoices[t.ext].provider, t.ext, snap.status),
            s.tariffs,
            s.clock, u);
        case Approval(admin, amount) =>
          ApprovalEffect(s.db, t.ext, admin, amount, s.tariffs, s.clock);
          if o.db != s.db { ProcessedEntries(s.db, o, t.ext, ManualDeposit(t.ext, admin), s.tariffs, s.clock, u); }
      }
    }
  }

  // ----- one step -----

  lemma BounceRenews(db: Db, uid: nat, price: int, bonus: int, now: int, later: int, u: nat)
    ensures var after := Bounce(db, uid, price, bonus, now, later);
            var renews := u == uid && u in db.users && Renews(db.users[u], price, now);
            && RenewalEntries(after.ledger, u) == RenewalEntries(db.ledger, u) + (if renews then 1 else 0)
            && KeepsPeople(db, after)
  {
    VisitEffect(db, uid, price, bonus, now, later);
    if uid in db.users && Renews(db.users[uid], price, now) {
      BoughtEntries(db, Bounce(db, uid, price, bonus, now, later), uid, 30, price, AutoRenewal, bonus, later, u);
    }
  }

  lemma EitherKeeps(a: Db, b: Db, after: Db)
    requires KeepsPeople(a, b) && (after == a || after == b)
    ensures KeepsPeople(a, after)
  {
  }

  lemma VisitStep(s: State, uid: nat, price: int, bonus: int, delay: nat, u: nat)
    ensures var after := BouncerStep(s, uid, price, bonus, delay).db;
            var renews := RenewsNow(s, BouncerVisit(uid, price, bonus, delay), u);
            && RenewalEntries(after.ledger, u) == RenewalEntries(s.db.ledger, u) + (if renews then 1 else 0)
            && KeepsPeople(s.db, after)
  {
    var later := s.clock + delay;
    BounceRenews(s.db, uid, price, bonus, s.clock, later, u);
    BouncerStepBounces(s, uid, price, bonus, delay);
    EitherKeeps(s.db, Bounce(s.db, uid, price, bonus, s.clock, later), BouncerStep(s, uid, price, bonus, delay).db);
  }

  lemma BuyingStep(s: State, a: Action, u: nat)
    requires a.BuyFromBalance?
    ensures RenewalEntries(Step(s, a).db.ledger, u) == RenewalEntries(s.db.ledger, u)
              && KeepsPeople(s.db, Step(s, a).db)
  {
    var t, price := Step(s, a), PriceOf(s.tariffs, a.plan);
    PurchaseEffect(s.db, a.uid, a.plan, price, Purchase(a.plan), a.bonus, s.clock);
    if t.db != s.db { BoughtEntries(s.db, t.db, a.uid, a.plan, price, Purchase(a.plan), a.bonus, s.clock, u); }
  }

  lemma GrantEntries(db: Db, after: Db, uid: nat, flagged: User, hours: int, text: string, now: int, u: nat)
    requires uid in db.users && IsGranted(db, after, uid, flagged, hours, text, now)
    ensures RenewalEntries(after.ledger, u) == RenewalEntries(db.ledger, u)
  {
    var entry := [Transaction(uid, 0, BONUS, BonusNote(text))];
    EntriesAdd(db.ledger, entry, u);
    NoneIn(entry, u);
  }

  lemma GrantBooksNoRenewal(s: State, a: Action, u: nat)
    requires a.JoinCommunity? || a.StartTrial?
    ensures RenewalEntries(Step(s, a).db.ledger, u) == RenewalEntries(s.db.ledger, u)
  {
    BonusEffect(s.db, a.uid, a.hours, a.text, s.clock);
    if Step(s, a).db != s.db {
      var user := s.db.users[a.uid];
      var flagged := if a.StartTrial? then user.(trialUsed := true) else user.(communityBonusUsed := true);
      GrantEntries(s.db, Step(s, a).db, a.uid, flagged, a.hours, a.text, s.clock, u);
    }
  }

  lemma GrantStep(s: State, a: Action, u: nat)
    requires a.JoinCommunity? || a.StartTrial?
    ensures Step(s, a).db.users.Keys == s.db.users.Keys
    ensures u in s.db.users ==> SettingsFollow(u, a, s.db.users[u], Step(s, a).db.users[u])
  {
    BonusEffect(s.db, a.uid, a.hours, a.text, s.clock);
  }

  /** A purchase from the balance: today's price of the plan, nothing if there is none or the balance is short. */
  lemma BoughtExactly(s: State, uid: nat, plan: nat, bonus: int)
    requires 2 * (100 * bonus - 15 * PlanCost(s, plan)) <= 100 && 2 * (15 * PlanCost(s, plan) - 100 * bonus) <= 100
    ensures var t := Step(s, BuyFromBalance(uid, plan, bonus));
            && t == s.(db := t.db)
            && if uid in s.db.users && PlanCost(s, plan) != 0 && s.db.users[uid].balance >= PlanCost(s, plan)
               then IsBought(s.db, t.db, uid, plan, PlanCost(s, plan), Purchase(plan), bonus, s.clock)
               else t.db == s.db
  {
    PurchaseEffect(s.db, uid, plan, PlanCost(s, plan), Purchase(plan), bonus, s.clock);
  }

  /** Orders, sign-ups, tariffs and time do what they say; tariffs are adopted if every plan lasts a day or more. */
  lemma PlainSteps(s: State, uid: nat, referrer: Option<nat>, tariffs: Tariffs, seconds: nat)
    ensures var t := Step(s, SignUp(uid, referrer)); t == s.(db := Register(s.db, uid, referrer)) && uid in t.db.users
    ensures var t := Step(s, Retariff(tariffs));
            if forall d <- tariffs :: d > 0 then t == s.(tariffs := tariffs) else t == s
    ensures Step(s, Tick(seconds)) == s.(clock := s.clock + seconds)
  {
  }

  /** An order for one of the two providers the shop offers opens an invoice; `hex` is the random part of its id. */
  lemma OrderStep(s: State, uid: nat, p: Provider, days: int, hex: string, expiresAt: Option<int>)
    ensures var t := Step(s, OpenShopInvoice(uid, p, days, hex, expiresAt));
            if HexTail(hex) && (p == MANUAL || p == CACTUS)
            then t == s.(db := OpenInvoice(s.db, uid, p, days, hex, s.tariffs, s.clock, expiresAt))
            else t == s
  {
  }

  function PlanCost(s: State, plan: nat): int { if plan in s.tariffs then s.tariffs[plan] else 0 }

  /**
   * The entry of a renewal is written by a visit of the bouncer to a user who wants it and can pay, and by
   * nothing else.
   */
  lemma RenewedExactly(s: State, a: Action, u: nat)
    requires Inv(s)
    ensures RenewalEntries(Step(s, a).db.ledger, u)
            == RenewalEntries(s.db.ledger, u) + if RenewsNow(s, a, u) then 1 else 0
  {
    match a {
      case Apply(id) => ApplyRenewsNobody(s, id, u);
      case BouncerVisit(uid, price, bonus, delay) => VisitStep(s, uid, price, bonus, delay, u);
      case BuyFromBalance(_, _, _) => BuyingStep(s, a, u);
      case JoinCommunity(_, _, _) => GrantBooksNoRenewal(s, a, u);
      case StartTrial(_, _, _) => GrantBooksNoRenewal(s, a, u);
      case SignUp(uid, referrer) => RegistrationEffect(s.db, uid, referrer);
      case _ => QuietEntries(s, a);
    }
  }

  lemma QuietEntries(s: State, a: Action)
    requires !a.Apply? && !a.BouncerVisit? && !a.BuyFromBalance? && !a.JoinCommunity? && !a.StartTrial? && !a.SignUp?
    ensures Step(s, a).db.ledger == s.db.ledger
    ensures !a.SwitchRenewal? ==> Step(s, a).db.users == s.db.users
  {
  }

  /** Which step sets what: the user the switch, each bonus its own flag, and nothing changes a referrer. */
  ghost predicate SettingsFollow(u: nat, a: Action, before: User, after: User) {
    && after.autoRenewal == (if a.SwitchRenewal? && a.uid == u then a.on else before.autoRenewal)
    && after.communityBonusUsed == (before.communityBonusUsed || (a.JoinCommunity? && a.uid == u))
    && after.trialUsed == (before.trialUsed || (a.StartTrial? && a.uid == u))
    && after.referrer == before.referrer
  }

  lemma SettingsStep(s: State, a: Action, u: nat)
    requires Inv(s) && u in s.db.users
    ensures u in Step(s, a).db.users && SettingsFollow(u, a, s.db.users[u], Step(s, a).db.users[u])
  {
    match a {
      case Apply(id) => ApplyRenewsNobody(s, id, u);
      case BouncerVisit(uid, price, bonus, delay) => VisitStep(s, uid, price, bonus, delay, u);
      case BuyFromBalance(_, _, _) => BuyingStep(s, a, u);
      case JoinCommunity(_, _, _) => GrantStep(s, a, u);
      case StartTrial(_, _, _) => GrantStep(s, a, u);
      case SignUp(uid, referrer) => RegistrationEffect(s.db, uid, referrer);
      case SwitchRenewal(_, _) =>
      case _ => QuietEntries(s, a);
    }
  }

  /** The history of a run records each renewal as it happened: when, from which end, to which end. */
  lemma HistoryStep(s: State, a: Action, u: nat)
    ensures RenewalsOf(Step(s, a), u)
            == RenewalsOf(s, u)
               + if RenewsNow(s, a, u)
                 then [Renewal(s.clock, s.db.users[u].subscriptionEnd.value,
                               s.clock + a.delay + TimeLeft(s.db.users[u].subscriptionEnd, s.clock + a.delay)
                                 + 30 * 86400)]
                 else []
  {
    if a.BouncerVisit? {
      RecordedVisit(s, a.uid, a.price, a.bonus, a.delay, u);
    } else {
      assert Step(s, a).renewals == s.renewals;
    }
  }

  lemma RecordedVisit(s: State, uid: nat, price: int, bonus: int, delay: nat, u: nat)
    ensures RenewalsOf(BouncerStep(s, uid, price, bonus, delay), u)
            == RenewalsOf(s, u)
               + if RenewsNow(s, BouncerVisit(uid, price, bonus, delay), u)
                 then [Renewal(s.clock, s.db.users[u].subscriptionEnd.value,
                               s.clock + delay + TimeLeft(s.db.users[u].subscriptionEnd, s.clock + delay) + 30 * 86400)]
                 else []
  {
  }

  // ----- whole runs -----

  /** In every run the renewals recorded of a user are as many as the ledger has entries for them. */
  lemma {:induction false} RenewalsAreBooked(run: seq<State>, u: nat)
    requires FromStart(run)
    ensures |RenewalsOf(Last(run), u)| == RenewalEntries(Last(run).db.ledger, u)
    decreases |run|
  {
    if |run| > 1 {
      var before := run[..|run| - 1];
      ExecutionSplits(run);
      ReachableInv(before);
      RenewalsAreBooked(before, u);
      var a :| Last(run) == Step(Last(before), a);
      HistoryStep(Last(before), a, u);
      RenewedExactly(Last(before), a, u);
    }
  }

  /** In this step of the run user `u` switches renewal on. */
  ghost predicate SwitchedOnAt(run: seq<State>, k: nat, u: nat) {
    k + 1 < |run| && run[k + 1] == Step(run[k], SwitchRenewal(u, true))
  }

  /**
   * No renewal without consent: once a user's switch is off, no renewal is booked for the user in any run until
   * the user switches it on again.
   */
  lemma {:induction false} NoRenewalWithoutConsent(run: seq<State>, i: nat, u: nat)
    requires Execution(run) && Inv(run[0]) && i < |run|
    requires u in run[i].db.users && !run[i].db.users[u].autoRenewal
    ensures || (exists k: nat :: i <= k && SwitchedOnAt(run, k, u))
            || (u in Last(run).db.users && !Last(run).db.users[u].autoRenewal
                && RenewalEntries(Last(run).db.ledger, u) == RenewalEntries(run[i].db.ledger, u))
    decreases |run|
  {
    if i + 1 < |run| {
      var before := run[..|run| - 1];
      ExecutionSplits(run);
      RunKeepsInv(before);
      NoRenewalWithoutConsent(before, i, u);
      if k: nat :| i <= k && SwitchedOnAt(before, k, u) {
        assert SwitchedOnAt(run, k, u);
      } else {
        var a :| Last(run) == Step(Last(before), a);
        RenewedExactly(Last(before), a, u);
        SettingsStep(Last(before), a, u);
        if a == SwitchRenewal(u, true) { assert SwitchedOnAt(run, |run| - 2, u); }
      }
    }
  }

  /** A step in which the user is granted the community's free period, or the trial. */
  ghost predicate GrantedAt(run: seq<State>, k: nat, u: nat, trial: bool) {
    k + 1 < |run| && run[k + 1].db != run[k].db
    && exists hours: nat, text: string ::
         run[k + 1] == Step(run[k], if trial then StartTrial(u, hours, text) else JoinCommunity(u, hours, text))
  }

  predicate FlagOf(u: User, trial: bool) { if trial then u.trialUsed else u.communityBonusUsed }

  lemma {:induction false} FlagStays(run: seq<State>, i: nat, u: nat, trial: bool)
    requires Execution(run) && Inv(run[0]) && i < |run| && u in run[i].db.users && FlagOf(run[i].db.users[u], trial)
    ensures u in Last(run).db.users && FlagOf(Last(run).db.users[u], trial)
    decreases |run|
  {
    if i + 1 < |run| {
      var before := run[..|run| - 1];
      ExecutionSplits(run);
      RunKeepsInv(before);
      FlagStays(before, i, u, trial);
      var a :| Last(run) == Step(Last(before), a);
      SettingsStep(Last(before), a, u);
    }
  }

  lemma GrantNeedsNoFlag(run: seq<State>, k: nat, u: nat, trial: bool)
    requires GrantedAt(run, k, u, trial)
    ensures u in run[k].db.users && !FlagOf(run[k].db.users[u], trial)
    ensures u in run[k + 1].db.users && FlagOf(run[k + 1].db.users[u], trial)
  {
    var hours: nat, text: string :|
      run[k + 1] == Step(run[k], if trial then StartTrial(u, hours, text) else JoinCommunity(u, hours, text));
    BonusEffect(run[k].db, u, hours, text, run[k].clock);
  }

  lemma {:induction false} PrefixRuns(run: seq<State>, n: nat)
    requires Execution(run) && 0 < n <= |run|
    ensures Execution(run[..n]) && run[..n][0] == run[0]
    decreases |run|
  {
    if n < |run| {
      ExecutionSplits(run);
      PrefixRuns(run[..|run| - 1], n);
      assert run[..|run| - 1][..n] == run[..n];
    } else {
      assert run[..n] == run;
    }
  }

  lemma GrantedEarlier(run: seq<State>, i: nat, j: nat, u: nat, trial: bool)
    requires Execution(run) && Inv(run[0]) && GrantedAt(run, i, u, trial) && i < j < |run|
    ensures !GrantedAt(run, j, u, trial)
  {
    GrantNeedsNoFlag(run, i, u, trial);
    PrefixRuns(run, j + 1);
    FlagStays(run[..j + 1], i + 1, u, trial);
    if GrantedAt(run, j, u, trial) { GrantNeedsNoFlag(run, j, u, trial); }
  }

  /** Each free period is granted once per user, in every run. */
  lemma GrantedOnce(run: seq<State>, i: nat, j: nat, u: nat, trial: bool)
    requires Execution(run) && Inv(run[0]) && GrantedAt(run, i, u, trial) && GrantedAt(run, j, u, trial)
    ensures i == j
  {
    if i < j { GrantedEarlier(run, i, j, u, trial); }
    if j < i { GrantedEarlier(run, j, i, u, trial); }
  }

  ghost predicate ReferrersAreOthers(db: Db) {
    forall u <- db.users ::
      db.users[u].referrer.Some? ==> db.users[u].referrer.value != u && db.users[u].referrer.value in db.users
  }

  lemma NewcomersSignUp(s: State, a: Action)
    requires Inv(s) && !a.SignUp?
    ensures Step(s, a).db.users.Keys == s.db.users.Keys
  {
    match a {
      case Apply(id) => ApplyRenewsNobody(s, id, 0);
      case BouncerVisit(uid, price, bonus, delay) => VisitStep(s, uid, price, bonus, delay, 0);
      case BuyFromBalance(_, _, _) => BuyingStep(s, a, 0);
      case JoinCommunity(_, _, _) => GrantStep(s, a, 0);
      case StartTrial(_, _, _) => GrantStep(s, a, 0);
      case SwitchRenewal(_, _) =>
      case _ => QuietEntries(s, a);
    }
  }

  /** In every run that starts so, every referrer is an existing user other than the referred one. */
  lemma {:induction false} ReferrersStayOthers(run: seq<State>)
    requires Execution(run) && Inv(run[0]) && ReferrersAreOthers(run[0].db)
    ensures ReferrersAreOthers(Last(run).db)
    decreases |run|
  {
    if |run| > 1 {
      var before := run[..|run| - 1];
      ExecutionSplits(run);
      RunKeepsInv(before);
      ReferrersStayOthers(before);
      var s, t := Last(before), Last(run);
      var a :| t == Step(s, a);
      forall u | u in s.db.users ensures u in t.db.users && t.db.users[u].referrer == s.db.users[u].referrer {
        SettingsStep(s, a, u);
      }
      if a.SignUp? {
        RegistrationEffect(s.db, a.uid, a.referrer);
      } else {
        NewcomersSignUp(s, a);
      }
    }
  }
}
