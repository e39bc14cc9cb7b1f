/**
 * The payment engine as a protocol: provider checks, approvals, uploads, rejections and expiries are tasks
 * whose reads may be arbitrarily old when they write, the Redis lock may time out under its holder, and
 * processes may crash between any two steps. Row locks make each database transaction one step.
 */
module Protocol {
  import opened Rows
  import opened Ledger
  import opened Payments

  const LOCK_TTL := 15

  /** What a task will apply once it holds the lock: a provider snapshot taken earlier, or an admin's amount. */
  datatype Job = Update(snap: Snapshot) | Approval(admin: nat, amount: int)

  datatype Task =
    | Waiting(ext: string, uid: nat, job: Job)
    | Holding(ext: string, uid: nat, job: Job, token: nat)
    | Releasing(uid: nat, token: nat)
    | Uploading(ext: string, actual: int, screenshot: string)
    | Rejecting(ext: string, admin: nat, reason: string)
    | Expiring(ext: string)

  datatype Lock = Lock(token: nat, expiry: int)

  datatype Renewal = Renewal(at: int, oldEnd: int, newEnd: int)

  /** `seen` and `renewals` are history: the amounts applied to each invoice and the renewals of each user. */
  datatype State = State(
    db: Db,
    tasks: map<nat, Task>,
    locks: map<nat, Lock>,
    tokens: set<nat>,
    clock: int,
    tariffs: Tariffs,
    seen: map<string, seq<int>>,
    renewals: map<nat, seq<Renewal>>)

  datatype Action =
    | Tick(seconds: nat)
    | Retariff(tariffs: Tariffs)
    | SignUp(uid: nat, referrer: Option<nat>)
    | OpenShopInvoice(uid: nat, provider: Provider, days: int, hex: string, expiresAt: Option<int>)
    | Fetch(id: nat, ext: string, reply: Option<Reply>)
    | Approve(id: nat, ext: string, admin: nat, amount: int)
    | Acquire(id: nat, token: nat, redisUp: bool)
    | Apply(id: nat)
    | Release(id: nat)
    | Crash(id: nat)
    | UploadRead(id: nat, ext: string, screenshot: string)
    | RejectRead(id: nat, ext: string, admin: nat, reason: string)
    | ExpireRead(id: nat, ext: string)
    | LateWrite(id: nat)
    | BuyFromBalance(uid: nat, plan: nat, bonus: int)
    | BouncerVisit(uid: nat, price: int, bonus: int, delay: nat)
    | JoinCommunity(uid: nat, hours: nat, text: string)
    | StartTrial(uid: nat, hours: nat, text: string)
    | SwitchRenewal(uid: nat, on: bool)

  function Seen(s: State, ext: string): seq<int> {
    if ext in s.seen then s.seen[ext] else []
  }

  function RenewalsOf(s: State, uid: nat): seq<Renewal> {
    if uid in s.renewals then s.renewals[uid] else []
  }

  function Spawn(s: State, id: nat, t: Task): State {
    if id in s.tasks then s else s.(tasks := s.tasks[id := t])
  }

  function Drop(s: State, id: nat): State {
    s.(tasks := s.tasks - {id})
  }

  // ----- the Redis lock -----

  predicate Live(locks: map<nat, Lock>, uid: nat, now: int) {
    uid in locks && now < locks[uid].expiry
  }

  predicate Locked(s: State, uid: nat) {
    Live(s.locks, uid, s.clock)
  }

  /** SET with NX and EX: succeeds when no live lock is stored. */
  function SetLock(locks: map<nat, Lock>, uid: nat, token: nat, ttl: nat, now: int): map<nat, Lock> {
    if Live(locks, uid, now) then locks else locks[uid := Lock(token, now + ttl)]
  }

  /** Compare-and-delete: only the token that is still stored removes the lock. */
  function Unlock(locks: map<nat, Lock>, uid: nat, token: nat, now: int): map<nat, Lock> {
    if Live(locks, uid, now) && locks[uid].token == token then locks - {uid} else locks
  }

  /** A busy lock or a Redis error ends the task; otherwise it goes on under a fresh token. */
  function AcquireStep(s: State, id: nat, token: nat, redisUp: bool): State {
    if id !in s.tasks || !s.tasks[id].Waiting? || token in s.tokens then s
    else
      var t := s.tasks[id];
      if !redisUp || Locked(s, t.uid) then Drop(s, id)
      else s.(locks := SetLock(s.locks, t.uid, token, LOCK_TTL, s.clock),
              tokens := s.tokens + {token},
              tasks := s.tasks[id := Holding(t.ext, t.uid, t.job, token)])
  }

  function ReleaseStep(s: State, id: nat): State {
    if id !in s.tasks || !s.tasks[id].Releasing? then s
    else
      var t := s.tasks[id];
      Drop(s, id).(locks := Unlock(s.locks, t.uid, t.token, s.clock))
  }

  // ----- the transactions -----

  function Perform(db: Db, ext: string, job: Job, tariffs: Tariffs, now: int): Outcome {
    match job
    case Update(snap) => ApplyUpdate(db, ext, snap, tariffs, now)
    case Approval(admin, amount) => ApplyApproval(db, ext, admin, amount, tariffs, now)
  }

  function JobAmount(job: Job): int {
    if job.Update? then job.snap.amount else job.amount
  }

  function ApplyStep(s: State, id: nat): State {
    if id !in s.tasks || !s.tasks[id].Holding? then s
    else
      var t := s.tasks[id];
      s.(db := Perform(s.db, t.ext, t.job, s.tariffs, s.clock).db,
         seen := s.seen[t.ext := Seen(s, t.ext) + [JobAmount(t.job)]],
         tasks := s.tasks[id := Releasing(t.uid, t.token)])
  }

  function FetchStep(s: State, id: nat, ext: string, reply: Option<Reply>): State {
    if ext !in s.db.invoices then s
    else
      var snap := TakeSnapshot(s.db.invoices[ext], reply, s.tariffs);
      if snap.None? then s else Spawn(s, id, Waiting(ext, s.db.invoices[ext].userId, Update(snap.value)))
  }

  function ApproveStep(s: State, id: nat, ext: string, admin: nat, amount: int): State {
    if ext in s.db.invoices && s.db.invoices[ext].provider == MANUAL && s.db.invoices[ext].status != PAID && amount > 0
    then Spawn(s, id, Waiting(ext, s.db.invoices[ext].userId, Approval(admin, amount))) else s
  }

  function UploadReadStep(s: State, id: nat, ext: string, screenshot: string): State {
    if ext in s.db.invoices && UploadAllowed(s.db.invoices[ext])
    then Spawn(s, id, Uploading(ext, s.db.invoices[ext].actual, screenshot)) else s
  }

  function RejectReadStep(s: State, id: nat, ext: string, admin: nat, reason: string): State {
    if ext in s.db.invoices && RejectAllowed(s.db.invoices[ext]) then Spawn(s, id, Rejecting(ext, admin, reason)) else s
  }

  function ExpireReadStep(s: State, id: nat, ext: string): State {
    if ext in s.db.invoices && WorkerDecision(s.db.invoices[ext], s.clock).Expire?
      then Spawn(s, id, Expiring(ext)) else s
  }

  /** The row a late handler writes, whatever happened to the row since it was read. */
  function LateRow(inv: Invoice, t: Task): Invoice
    requires t.Uploading? || t.Rejecting? || t.Expiring?
  {
    match t
    case Uploading(_, actual, screenshot) => UploadedRow(inv, actual, screenshot)
    case Rejecting(_, admin, reason) => RejectedRow(inv, admin, reason)
    case Expiring(_) => inv.(status := EXPIRED)
  }

  function LateWriteStep(s: State, id: nat): State {
    if id !in s.tasks || !(s.tasks[id].Uploading? || s.tasks[id].Rejecting? || s.tasks[id].Expiring?) then s
    else
      var t := s.tasks[id];
      if t.ext !in s.db.invoices then Drop(s, id)
      else Drop(s, id).(db := SetInvoice(s.db, t.ext, LateRow(s.db.invoices[t.ext], t)))
  }

  function BuyStep(s: State, uid: nat, plan: nat, bonus: int): State {
    var price := PriceOf(s.tariffs, plan);
    if price != 0 && IsReferralBonus(price, bonus)
    then s.(db := ChargeAndActivate(s.db, uid, plan, price, Purchase(plan), bonus, s.clock)) else s
  }

  function BouncerStep(s: State, uid: nat, price: int, bonus: int, delay: nat): State {
    if !IsReferralBonus(price, bonus) then s
    else
      var later := s.clock + delay;
      var db := Bounce(s.db, uid, price, bonus, s.clock, later);
      var after := s.(db := db, clock := later);
      if RenewalDue(s.db, uid, price, s.clock) then
        var oldEnd := s.db.users[uid].subscriptionEnd.value;
        after.(renewals := s.renewals[uid := RenewalsOf(s, uid)
          + [Renewal(s.clock, oldEnd, NewEnd(Some(oldEnd), RENEWAL_DAYS * DAY, later))]])
      else after
  }

  predicate TariffsOk(tariffs: Tariffs) {
    forall d <- tariffs :: d > 0
  }

  function Step(s: State, a: Action): State {
    match a
    case Tick(seconds) => s.(clock := s.clock + seconds)
    case Retariff(tariffs) => if TariffsOk(tariffs) then s.(tariffs := tariffs) else s
    case SignUp(uid, referrer) => s.(db := Register(s.db, uid, referrer))
    case OpenShopInvoice(uid, p, days, hex, expiresAt) =>
      if HexTail(hex) && (p == MANUAL || p == CACTUS)
      then s.(db := OpenInvoice(s.db, uid, p, days, hex, s.tariffs, s.clock, expiresAt)) else s
    case Fetch(id, ext, reply) => FetchStep(s, id, ext, reply)
    case Approve(id, ext, admin, amount) => ApproveStep(s, id, ext, admin, amount)
    case Acquire(id, token, redisUp) => AcquireStep(s, id, token, redisUp)
    case Apply(id) => ApplyStep(s, id)
    case Release(id) => ReleaseStep(s, id)
    case Crash(id) => Drop(s, id)
    case UploadRead(id, ext, screenshot) => UploadReadStep(s, id, ext, screenshot)
    case RejectRead(id, ext, admin, reason) => RejectReadStep(s, id, ext, admin, reason)
    case ExpireRead(id, ext) => ExpireReadStep(s, id, ext)
    case LateWrite(id) => LateWriteStep(s, id)
    case BuyFromBalance(uid, plan, bonus) => BuyStep(s, uid, plan, bonus)
    case BouncerVisit(uid, price, bonus, delay) => BouncerStep(s, uid, price, bonus, delay)
    case JoinCommunity(uid, hours, text) => s.(db := CommunityBonus(s.db, uid, hours, text, s.clock))
    case StartTrial(uid, hours, text) => s.(db := ActivateTrial(s.db, uid, hours, text, s.clock))
    case SwitchRenewal(uid, on) => s.(db := SetAutoRenewal(s.db, uid, on))
  }

  /** Some action leads from one state to the other. */
  ghost predicate Next(s: State, t: State) {
    exists a :: t == Step(s, a)
  }

  ghost predicate Happens(run: seq<State>, i: nat)
    requires i + 1 < |run|
  {
    Next(run[i], run[i + 1])
  }

  /** A run: its states, from the first to the last. */
  ghost predicate Execution(run: seq<State>) {
    run != [] && forall i: nat {:trigger Happens(run, i)} :: i + 1 < |run| ==> Happens(run, i)
  }

  function Last(run: seq<State>): State
    requires run != []
  {
    run[|run| - 1]
  }

  /** A run of more than one state is a shorter run and a step. */
  lemma ExecutionSplits(run: seq<State>)
    requires Execution(run) && |run| > 1
    ensures Execution(run[..|run| - 1]) && run[..|run| - 1][0] == run[0]
    ensures Next(Last(run[..|run| - 1]), Last(run))
  {
    var before := run[..|run| - 1];
    forall i: nat | i + 1 < |before| ensures Happens(before, i) {
      assert Happens(run, i) && before[i] == run[i] && before[i + 1] == run[i + 1];
    }
    assert Happens(run, |run| - 2);
  }

  lemma ExecutionGrows(run: seq<State>, a: Action)
    requires Execution(run)
    ensures Execution(run + [Step(Last(run), a)])
  {
    var longer := run + [Step(Last(run), a)];
    forall i: nat | i + 1 < |longer| ensures Happens(longer, i) {
      if i + 1 < |run| {
        assert Happens(run, i) && longer[i] == run[i] && longer[i + 1] == run[i + 1];
      } else {
        assert longer[i + 1] == Step(longer[i], a);
      }
    }
  }
}
