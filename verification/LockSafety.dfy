/**
 * The Redis lock: what it guarantees while it lives, and that it can be outlived. The theorems of `Guarantees` hold
 * for every run, those in which it was outlived included. A token is handed out once; for fifteen seconds the task
 * that carries it owns the lock, and after that a second task may get past it.
 */
module LockSafety {
  import opened Rows
  import opened Ledger
  import opened Payments
  import opened Protocol
  import opened Books
  import opened Safety
  import opened Guarantees

  predicate HasToken(t: Task) {
    t.Holding? || t.Releasing?
  }

  ghost predicate TokensDiffer(s: State, i: nat, j: nat)
    requires i in s.tasks && j in s.tasks
  {
    HasToken(s.tasks[i]) && HasToken(s.tasks[j]) && i != j ==> s.tasks[i].token != s.tasks[j].token
  }

  /** Tokens are handed out once: no two tasks carry the same one, and stored locks carry issued ones. */
  ghost predicate TokensUnique(s: State) {
    && (forall i <- s.tasks :: HasToken(s.tasks[i]) ==> s.tasks[i].token in s.tokens)
    && (forall i, j {:trigger TokensDiffer(s, i, j)} :: i in s.tasks && j in s.tasks ==> TokensDiffer(s, i, j))
    && (forall u <- s.locks :: s.locks[u].token in s.tokens)
  }

  /** The task's token is the one stored, and it has not timed out. */
  ghost predicate Owns(s: State, id: nat) {
    id in s.tasks && HasToken(s.tasks[id]) && Locked(s, s.tasks[id].uid)
      && s.locks[s.tasks[id].uid].token == s.tasks[id].token
  }

  /** Locks, issued tokens and token carriers are untouched, except that task `gone` may disappear. */
  ghost predicate CarriesOver(s: State, t: State, gone: set<nat>) {
    && t.tokens == s.tokens && t.locks == s.locks
    && (forall i <- t.tasks :: HasToken(t.tasks[i]) ==> i in s.tasks && SameCarrier(s.tasks[i], t.tasks[i]))
    && (forall i <- s.tasks :: HasToken(s.tasks[i]) && i !in gone ==>
      i in t.tasks && SameCarrier(s.tasks[i], t.tasks[i]))
  }

  function Gone(a: Action): set<nat> {
    match a
    case Crash(id) => {id}
    case _ => {}
  }

  predicate SameCarrier(a: Task, b: Task) {
    HasToken(a) && HasToken(b) && a.uid == b.uid && a.token == b.token
  }

  lemma SpawnCarriesOver(s: State, id: nat, t: Task)
    requires !HasToken(t)
    ensures CarriesOver(s, Spawn(s, id, t), {})
  {
  }

  lemma FetchCarriesOver(s: State, id: nat, ext: string, reply: Option<Reply>)
    ensures CarriesOver(s, FetchStep(s, id, ext, reply), {})
  {
    if ext in s.db.invoices {
      var inv := s.db.invoices[ext];
      var snap := TakeSnapshot(inv, reply, s.tariffs);
      if snap.Some? { SpawnCarriesOver(s, id, Waiting(ext, inv.userId, Update(snap.value))); }
    }
  }

  lemma ApproveCarriesOver(s: State, id: nat, ext: string, admin: nat, amount: int)
    ensures CarriesOver(s, ApproveStep(s, id, ext, admin, amount), {})
  {
    if ext in s.db.invoices {
      SpawnCarriesOver(s, id, Waiting(ext, s.db.invoices[ext].userId, Approval(admin, amount)));
    }
  }

  lemma LateReadCarriesOver(s: State, a: Action)
    requires a.UploadRead? || a.RejectRead? || a.ExpireRead?
    ensures CarriesOver(s, Step(s, a), {})
  {
    if a.ext in s.db.invoices {
      match a {
        case UploadRead(id, ext, screenshot) =>
          SpawnCarriesOver(s, id, Uploading(ext, s.db.invoices[ext].actual, screenshot));
        case RejectRead(id, ext, admin, reason) => SpawnCarriesOver(s, id, Rejecting(ext, admin, reason));
        case ExpireRead(id, ext) => SpawnCarriesOver(s, id, Expiring(ext));
      }
    }
  }

  lemma ReadCarriesOver(s: State, a: Action)
    requires IsReadStep(a)
    ensures CarriesOver(s, Step(s, a), {})
  {
    match a {
      case Fetch(id, ext, reply) => FetchCarriesOver(s, id, ext, reply);
      case Approve(id, ext, admin, amount) => ApproveCarriesOver(s, id, ext, admin, amount);
      case _ => LateReadCarriesOver(s, a);
    }
  }

  lemma ApplyCarriesOver(s: State, id: nat)
    ensures CarriesOver(s, ApplyStep(s, id), {})
  {
  }

  lemma LateWriteCarriesOver(s: State, id: nat)
    ensures CarriesOver(s, LateWriteStep(s, id), {})
  {
  }

  lemma WriteCarriesOver(s: State, a: Action)
    requires a.Apply? || a.LateWrite? || a.Crash?
    ensures CarriesOver(s, Step(s, a), Gone(a))
  {
    match a {
      case Apply(id) => ApplyCarriesOver(s, id);
      case LateWrite(id) => LateWriteCarriesOver(s, id);
      case Crash(id) => assert Step(s, a).tasks == s.tasks - {id};
    }
  }

  lemma UserStepKeepsTasks(s: State, a: Action)
    requires !IsTaskStep(a)
    ensures Step(s, a).tasks == s.tasks && Step(s, a).locks == s.locks && Step(s, a).tokens == s.tokens
  {
  }

  lemma OtherStepCarriesOver(s: State, a: Action)
    requires !a.Acquire? && !a.Release?
    ensures CarriesOver(s, Step(s, a), Gone(a))
  {
    if !IsTaskStep(a) {
      UserStepKeepsTasks(s, a);
    } else if a.Apply? || a.Crash? || a.LateWrite? {
      WriteCarriesOver(s, a);
    } else {
      ReadCarriesOver(s, a);
    }
  }

  lemma CarryOverKeepsUnique(s: State, t: State, gone: set<nat>)
    requires TokensUnique(s) && CarriesOver(s, t, gone)
    ensures TokensUnique(t)
  {
    forall i, j | i in t.tasks && j in t.tasks ensures TokensDiffer(t, i, j) {
      if HasToken(t.tasks[i]) && HasToken(t.tasks[j]) { assert TokensDiffer(s, i, j); }
    }
  }

  lemma AcquireKeepsUnique(s: State, id: nat, token: nat, redisUp: bool)
    requires TokensUnique(s)
    ensures TokensUnique(AcquireStep(s, id, token, redisUp))
  {
    var t := AcquireStep(s, id, token, redisUp);
    forall i, j | i in t.tasks && j in t.tasks ensures TokensDiffer(t, i, j) {
      assert i in s.tasks && j in s.tasks ==> TokensDiffer(s, i, j);
    }
  }

  lemma ReleaseKeepsUnique(s: State, id: nat)
    requires TokensUnique(s)
    ensures TokensUnique(ReleaseStep(s, id))
  {
    var t := ReleaseStep(s, id);
    forall i, j | i in t.tasks && j in t.tasks ensures TokensDiffer(t, i, j) {
      assert TokensDiffer(s, i, j);
    }
  }

  lemma StepKeepsTokensUnique(s: State, a: Action)
    requires TokensUnique(s)
    ensures TokensUnique(Step(s, a))
  {
    match a {
      case Acquire(id, token, redisUp) => AcquireKeepsUnique(s, id, token, redisUp);
      case Release(id) => ReleaseKeepsUnique(s, id);
      case _ =>
        OtherStepCarriesOver(s, a);
        CarryOverKeepsUnique(s, Step(s, a), Gone(a));
    }
  }

  lemma {:induction false} RunKeepsTokensUnique(run: seq<State>)
    requires Execution(run) && TokensUnique(run[0])
    ensures TokensUnique(Last(run))
    decreases |run|
  {
    if |run| > 1 {
      var before := run[..|run| - 1];
      ExecutionSplits(run);
      RunKeepsTokensUnique(before);
      var a :| Last(run) == Step(Last(before), a);
      StepKeepsTokensUnique(Last(before), a);
    }
  }

  /** In every run at most one task owns the live lock of a user. */
  lemma MutualExclusion(run: seq<State>, i: nat, j: nat)
    requires FromStart(run)
    ensures var t := Last(run);
            Owns(t, i) && Owns(t, j) && t.tasks[i].uid == t.tasks[j].uid ==> i == j
  {
    RunKeepsTokensUnique(run);
    var t := Last(run);
    if i in t.tasks && j in t.tasks { assert TokensDiffer(t, i, j); }
  }

  lemma ReleaseLeavesOwner(s: State, other: nat, id: nat)
    requires TokensUnique(s) && Owns(s, id) && other != id
    ensures Owns(ReleaseStep(s, other), id)
  {
    if other in s.tasks { assert TokensDiffer(s, other, id); }
  }

  lemma AcquireLeavesOwner(s: State, other: nat, token: nat, redisUp: bool, id: nat)
    requires TokensUnique(s) && Owns(s, id)
    ensures Owns(AcquireStep(s, other, token, redisUp), id)
  {
  }

  lemma OtherStepLeavesOwner(s: State, a: Action, id: nat)
    requires Owns(s, id) && !a.Acquire? && !a.Release? && !(a.Crash? && a.id == id)
    requires Step(s, a).clock < s.locks[s.tasks[id].uid].expiry
    ensures Owns(Step(s, a), id)
  {
    OtherStepCarriesOver(s, a);
  }

  /**
   * Compare-and-delete is safe: an owner loses the lock only by its own release, its own crash or the
   * timeout. In particular a late release by an earlier holder never removes somebody else's lock.
   */
  lemma OwnershipIsStable(s: State, a: Action, id: nat)
    requires TokensUnique(s) && Owns(s, id)
    requires !(a.Release? && a.id == id) && !(a.Crash? && a.id == id)
    requires Step(s, a).clock < s.locks[s.tasks[id].uid].expiry
    ensures Owns(Step(s, a), id)
  {
    match a {
      case Acquire(i, token, redisUp) => AcquireLeavesOwner(s, i, token, redisUp, id);
      case Release(i) => ReleaseLeavesOwner(s, i, id);
      case _ => OtherStepLeavesOwner(s, a, id);
    }
  }

  // ----- from the acquisition to the timeout -----

  predicate Carries(s: State, id: nat, uid: nat, token: nat) {
    id in s.tasks && HasToken(s.tasks[id]) && s.tasks[id].uid == uid && s.tasks[id].token == token
  }

  /** Step `k` of the run hands the token out to task `id`, for user `uid`. */
  predicate AcquiredAt(run: seq<State>, k: nat, id: nat, uid: nat, token: nat) {
    k + 1 < |run| && token !in run[k].tokens && Carries(run[k + 1], id, uid, token)
  }

  /** The lock as this task's acquisition has stored it. */
  predicate HoldsUntil(s: State, id: nat, uid: nat, token: nat, expiry: int) {
    Carries(s, id, uid, token) && uid in s.locks && s.locks[uid] == Lock(token, expiry)
  }

  lemma AcquireGivesLock(s: State, a: Action, id: nat, uid: nat, token: nat)
    requires TokensUnique(s) && token !in s.tokens && Carries(Step(s, a), id, uid, token)
    ensures a.Acquire? && HoldsUntil(Step(s, a), id, uid, token, Step(s, a).clock + LOCK_TTL)
  {
    if !a.Acquire? && !a.Release? { OtherStepCarriesOver(s, a); }
  }

  lemma CarrierCarriedBefore(s: State, a: Action, id: nat, uid: nat, token: nat)
    requires TokensUnique(s) && token in s.tokens && Carries(Step(s, a), id, uid, token)
    ensures Carries(s, id, uid, token)
  {
    if !a.Acquire? && !a.Release? { OtherStepCarriesOver(s, a); }
  }

  lemma ClockRuns(s: State, a: Action)
    ensures s.clock <= Step(s, a).clock && s.tokens <= Step(s, a).tokens
  {
    if !a.Acquire? && !a.Release? { OtherStepCarriesOver(s, a); }
  }

  lemma LockStaysStored(s: State, a: Action, id: nat, uid: nat, token: nat, expiry: int)
    requires TokensUnique(s) && HoldsUntil(s, id, uid, token, expiry)
    requires Carries(Step(s, a), id, uid, token) && Step(s, a).clock < expiry
    ensures HoldsUntil(Step(s, a), id, uid, token, expiry)
  {
    ClockRuns(s, a);
    match a {
      case Acquire(_, _, _) =>
      case Release(i) => if i in s.tasks && i != id { assert TokensDiffer(s, i, id); }
      case _ => OtherStepCarriesOver(s, a);
    }
  }

  lemma StartIsUnique(run: seq<State>)
    requires FromStart(run)
    ensures TokensUnique(Last(run))
  {
    RunKeepsTokensUnique(run);
  }

  /**
   * For fifteen seconds from its acquisition a task owns the lock, in every run, for as long as it is at work: whatever
   * the others do meanwhile, late releases of earlier holders included.
   */
  lemma {:induction false} OwnsUntilTimeout(run: seq<State>, k: nat, id: nat, uid: nat, token: nat)
    requires FromStart(run) && AcquiredAt(run, k, id, uid, token) && Carries(Last(run), id, uid, token)
    ensures Last(run).clock >= run[k + 1].clock && token in Last(run).tokens
    ensures Last(run).clock < run[k + 1].clock + 15 ==>
              Owns(Last(run), id) && HoldsUntil(Last(run), id, uid, token, run[k + 1].clock + 15)
    decreases |run|
  {
    var before, t := run[..|run| - 1], Last(run);
    ExecutionSplits(run);
    StartIsUnique(before);
    StartIsUnique(run);
    var a :| t == Step(Last(before), a);
    if k + 2 == |run| {
      AcquireGivesLock(Last(before), a, id, uid, token);
    } else {
      assert AcquiredAt(before, k, id, uid, token);
      TokenStaysIssued(before, k + 1, token);
      CarrierCarriedBefore(Last(before), a, id, uid, token);
      OwnsUntilTimeout(before, k, id, uid, token);
      ClockRuns(Last(before), a);
      if t.clock < run[k + 1].clock + LOCK_TTL {
        LockStaysStored(Last(before), a, id, uid, token, run[k + 1].clock + LOCK_TTL);
      }
    }
  }

  lemma {:induction false} TokenStaysIssued(run: seq<State>, i: nat, token: nat)
    requires FromStart(run) && i < |run|
               && (token in run[i].tokens || exists id, uid :: Carries(run[i], id, uid, token))
    ensures token in Last(run).tokens
    decreases |run|
  {
    if i + 1 == |run| {
      StartIsUnique(run);
    } else {
      ExecutionSplits(run);
      TokenStaysIssued(run[..|run| - 1], i, token);
      var a :| Last(run) == Step(Last(run[..|run| - 1]), a);
      ClockRuns(Last(run[..|run| - 1]), a);
    }
  }

  /** Every task that is past the lock has acquired it at some point of the run. */
  lemma {:induction false} EveryCarrierAcquired(run: seq<State>, id: nat, uid: nat, token: nat)
    requires FromStart(run) && Carries(Last(run), id, uid, token)
    ensures exists k :: AcquiredAt(run, k, id, uid, token)
    decreases |run|
  {
    assert |run| > 1;
    var before := run[..|run| - 1];
    ExecutionSplits(run);
    var a :| Last(run) == Step(Last(before), a);
    if token in Last(before).tokens {
      StartIsUnique(before);
      CarrierCarriedBefore(Last(before), a, id, uid, token);
      EveryCarrierAcquired(before, id, uid, token);
      var k :| AcquiredAt(before, k, id, uid, token);
      assert AcquiredAt(run, k, id, uid, token);
    } else {
      assert AcquiredAt(run, |run| - 2, id, uid, token);
    }
  }

  /** Task `id` is still at work under a token that it acquired fifteen seconds ago or earlier. */
  ghost predicate Overdue(run: seq<State>, id: nat)
    requires run != []
  {
    exists k, uid, token ::
      AcquiredAt(run, k, id, uid, token) && Carries(Last(run), id, uid, token)
      && Last(run).clock >= run[k + 1].clock + 15
  }

  lemma OwnsUnlessOverdue(run: seq<State>, id: nat)
    requires FromStart(run) && id in Last(run).tasks && HasToken(Last(run).tasks[id])
    ensures Owns(Last(run), id) || Overdue(run, id)
  {
    var t := Last(run).tasks[id];
    EveryCarrierAcquired(run, id, t.uid, t.token);
    var k :| AcquiredAt(run, k, id, t.uid, t.token);
    OwnsUntilTimeout(run, k, id, t.uid, t.token);
  }

  /** In every run two tasks of one user can be past the lock only if one of them has outstayed its fifteen seconds. */
  lemma OnlyTheTimeoutAdmitsTwo(run: seq<State>, i: nat, j: nat)
    requires FromStart(run) && i in Last(run).tasks && j in Last(run).tasks && i != j
    requires HasToken(Last(run).tasks[i]) && HasToken(Last(run).tasks[j])
               && Last(run).tasks[i].uid == Last(run).tasks[j].uid
    ensures Overdue(run, i) || Overdue(run, j)
  {
    OwnsUnlessOverdue(run, i);
    OwnsUnlessOverdue(run, j);
    MutualExclusion(run, i, j);
  }

  // ----- what may happen without the lock's protection -----

  ghost predicate Reaches(s: State, t: State) {
    exists run :: Execution(run) && run[0] == s && Last(run) == t
  }

  lemma ReachesItself(s: State)
    ensures Reaches(s, s)
  {
    assert Execution([s]);
  }

  lemma ReachesNext(s: State, t: State, a: Action)
    requires Reaches(s, t)
    ensures Reaches(s, Step(t, a))
  {
    var run :| Execution(run) && run[0] == s && Last(run) == t;
    ExecutionGrows(run, a);
  }

  lemma ReachedInv(s: State, t: State)
    requires Reaches(s, t) && Inv(s)
    ensures Inv(t)
  {
    var run :| Execution(run) && run[0] == s && Last(run) == t;
    RunKeepsInv(run);
  }

  /** A manual invoice that is not paid. */
  predicate OpenManual(s: State, e: string) {
    e in s.db.invoices && s.db.invoices[e].provider == MANUAL && s.db.invoices[e].status != PAID
  }

  /** Whoever holds a user's lock, it is free once its time is up. */
  lemma LockRunsOut(s: State, uid: nat) returns (t: State)
    ensures Reaches(s, t) && !Locked(t, uid) && t == s.(clock := t.clock)
  {
    ReachesItself(s);
    t := s;
    if Locked(s, uid) {
      var rest: nat := s.locks[uid].expiry - s.clock;
      t := Step(s, Tick(rest));
      ReachesNext(s, s, Tick(rest));
    }
  }

  predicate BothPastTheLock(t: State, i: nat, j: nat) {
    && i in t.tasks && j in t.tasks && i != j
    && t.tasks[i].Holding? && t.tasks[j].Holding? && t.tasks[i].uid == t.tasks[j].uid
  }

  lemma BothApprovalsStart(s: State, e: string, i: nat, j: nat)
    requires OpenManual(s, e) && i != j && i !in s.tasks && j !in s.tasks
    ensures var inv := s.db.invoices[e];
            var job := Waiting(e, inv.userId, Approval(3, inv.expected));
            inv.expected > 0 ==> Reaches(s, s.(tasks := s.tasks[i := job][j := job]))
  {
    var expected := s.db.invoices[e].expected;
    if expected > 0 {
      ReachesItself(s);
      ReachesNext(s, s, Approve(i, e, 3, expected));
      ReachesNext(s, Step(s, Approve(i, e, 3, expected)), Approve(j, e, 3, expected));
    }
  }

  lemma LockTimesOut(s: State, i: nat, token: nat)
    requires i in s.tasks && s.tasks[i].Waiting? && token !in s.tokens && !Locked(s, s.tasks[i].uid)
    ensures var t := Step(AcquireStep(s, i, token, true), Tick(LOCK_TTL));
            && Reaches(s, t) && !Locked(t, s.tasks[i].uid)
            && t.tokens == s.tokens + {token}
            && t.tasks == s.tasks[i := Holding(s.tasks[i].ext, s.tasks[i].uid, s.tasks[i].job, token)]
  {
    ReachesItself(s);
    ReachesNext(s, s, Acquire(i, token, true));
    ReachesNext(s, AcquireStep(s, i, token, true), Tick(LOCK_TTL));
  }

  lemma ReachesOnward(s: State, t: State, u: State)
    requires Reaches(s, t) && Reaches(t, u)
    ensures Reaches(s, u)
  {
    var head :| Execution(head) && head[0] == s && Last(head) == t;
    var tail :| Execution(tail) && tail[0] == t && Last(tail) == u;
    var all := head + tail[1..];
    forall i: nat | i + 1 < |all| ensures Happens(all, i) {
      if i + 1 < |head| {
        assert Happens(head, i) && all[i] == head[i] && all[i + 1] == head[i + 1];
      } else {
        var k := i + 1 - |head|;
        assert Happens(tail, k) && all[i] == tail[k] && all[i + 1] == tail[k + 1];
      }
    }
    assert Execution(all) && all[0] == s && Last(all) == u;
  }

  lemma FreeLockIsOutlived(s: State, e: string, i: nat, j: nat, k: nat, l: nat)
    requires Inv(s) && OpenManual(s, e) && !Locked(s, s.db.invoices[e].userId)
    requires i != j && i !in s.tasks && j !in s.tasks && k != l && k !in s.tokens && l !in s.tokens
    ensures exists t :: Reaches(s, t) && BothPastTheLock(t, i, j)
  {
    var inv := s.db.invoices[e];
    assert InvoiceOk(s.db, e, inv);
    var job := Waiting(e, inv.userId, Approval(3, inv.expected));
    var s1 := s.(tasks := s.tasks[i := job][j := job]);
    BothApprovalsStart(s, e, i, j);
    var s2 := Step(AcquireStep(s1, i, k, true), Tick(LOCK_TTL));
    LockTimesOut(s1, i, k);
    ReachesOnward(s, s1, s2);
    var t := Step(s2, Acquire(j, l, true));
    ReachesNext(s, s2, Acquire(j, l, true));
    assert BothPastTheLock(t, i, j);
  }

  /**
   * From every reachable state with an unpaid manual invoice, two approvals of it can be past the lock at the same
   * time: the first one's lock times out before it commits.
   */
  lemma LockCanBeOutlived(s: State, e: string, i: nat, j: nat, k: nat, l: nat)
    requires Inv(s) && OpenManual(s, e)
    requires i != j && i !in s.tasks && j !in s.tasks && k != l && k !in s.tokens && l !in s.tokens
    ensures exists t :: Reaches(s, t) && BothPastTheLock(t, i, j)
  {
    var free := LockRunsOut(s, s.db.invoices[e].userId);
    ReachedInv(s, free);
    FreeLockIsOutlived(free, e, i, j, k, l);
    var t :| Reaches(free, t) && BothPastTheLock(t, i, j);
    ReachesOnward(s, free, t);
  }

  // ----- a run that starts in the shop -----

  const PLAN := 30
  const PRICES: Tariffs := map[PLAN := 2500, 7 := 400]
  const HEX := "0123456789abcdef0123"

  /** One user with an empty account and nothing booked. */
  function Start(): State {
    State(Db(map[7 := NEW_USER], map[], []), map[], map[], {}, 0, PRICES, map[], map[])
  }

  function OpenShop(hex: string): Action { OpenShopInvoice(7, MANUAL, PLAN, hex, None) }

  /** The shop has opened a manual invoice for the monthly plan of 25.00. */
  function Opened(): State { Step(Start(), OpenShop(HEX)) }

  function FirstId(): string { ShopId(MANUAL, 7, HEX) }

  lemma HexIsHex()
    ensures HexTail(HEX)
  {
    forall i | 0 <= i < |HEX| ensures IsHex(HEX[i]) {}
  }

  lemma StartIsInitial()
    ensures Initial(Start())
  {
  }

  lemma OpenedIsReached()
    ensures Reaches(Start(), Opened()) && Inv(Opened()) && OpenManual(Opened(), FirstId())
    ensures Opened().tasks == map[] && Opened().locks == map[] && Opened().tokens == {} && Opened().tariffs == PRICES
    ensures Opened().db == Start().db.(invoices := map[FirstId() := ShopInvoice(7, MANUAL, PLAN, 2500, 0, None)])
  {
    HexIsHex();
    StartIsInitial();
    InitialInv(Start());
    ReachesItself(Start());
    ReachesNext(Start(), Start(), OpenShop(HEX));
    StepKeepsInv(Start(), OpenShop(HEX));
  }

  /** So it happens in a run that starts with an order in the shop. */
  lemma LockIsOutlivedInARun()
    ensures Initial(Start()) && exists t :: Reaches(Start(), t) && BothPastTheLock(t, 0, 1)
  {
    StartIsInitial();
    OpenedIsReached();
    LockCanBeOutlived(Opened(), FirstId(), 0, 1, 10, 11);
    var t :| Reaches(Opened(), t) && BothPastTheLock(t, 0, 1);
    ReachesOnward(Start(), Opened(), t);
  }
}
