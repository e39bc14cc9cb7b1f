/** The database rows the payment engine reads and writes. Money is in cents, time in seconds. */
module Rows {

  datatype Option<+T> = None | Some(value: T) {
    function GetOr(default: T): T {
      if Some? then value else default
    }
  }

  datatype Provider = CRYPTOMUS | CRYPTOPAY | MANUAL | CACTUS

  datatype Status = PENDING | PARTIAL | PAID | EXPIRED | WAITING_ADMIN

  /** What the JSON payload of an invoice says: action `a`, days `d` and price at creation `u`. */
  datatype Payload = Payload(action: Option<string>, days: Option<int>, price: Option<int>)

  datatype User = User(
    balance: int,
    subscriptionEnd: Option<int>,
    referrer: Option<nat>,
    autoRenewal: bool,
    trialUsed: bool,
    communityBonusUsed: bool)

  datatype Invoice = Invoice(
    userId: nat,
    provider: Provider,
    expected: int,
    actual: int,
    actualNative: int,
    payload: Payload,
    status: Status,
    createdAt: int,
    expiresAt: Option<int>,
    screenshot: Option<string>,
    approvedBy: Option<nat>,
    rejection: Option<string>)

  datatype TxKind = DEPOSIT | WITHDRAW | REWARD | BONUS

  /** The description of a transaction; `Ledger.Render` gives the text that is stored and searched. */
  datatype Note =
    | ProviderDeposit(provider: Provider, ext: string, status: string)
    | ManualDeposit(ext: string, admin: nat)
    | DirectPay(ext: string)
    | Purchase(days: nat)
    | AutoRenewal
    | ReferralReward(buyer: nat)
    | BonusNote(text: string)

  datatype Transaction = Transaction(userId: nat, amount: int, kind: TxKind, note: Note)

  datatype Db = Db(users: map<nat, User>, invoices: map<string, Invoice>, ledger: seq<Transaction>)

  const DAY := 86400

  function Max(a: int, b: int): int {
    if a < b then b else a
  }
}
