/**
 The paid-credit ledger behind schedule solving: the wallet of a tenant, the
 immutable ledger rows, the deterministic row ids of a job's debit and refund,
 and the database function that returns credit value to a wallet.
 */
module Credits {
  import opened Results

  // Postgres INTEGER, and the largest wallet the worker accepts.
  const MAX_INTEGER: int := 2_147_483_647

  datatype Wallet = Wallet(balance: int, debt: int) {
    function Net(): int {
      balance - debt
    }
  }

  datatype LedgerRow = LedgerRow(
    tenant: string,
    amount: int,
    debtAmount: int,
    reason: string,
    balanceAfter: Option<int>,
    debtAfter: int)

  type Ledger = map<string, LedgerRow>

  /** A job's `creditConsumption` document: the exact three-field object, or anything else. */
  datatype Charge = Malformed | Credits(consumed: int, newBalance: int)

  predicate ValidCharge(charge: Charge) {
    && charge.Credits?
    && 0 < charge.consumed <= MAX_INTEGER
    && 0 <= charge.newBalance <= MAX_INTEGER
    && charge.consumed <= MAX_INTEGER - charge.newBalance
  }

  function DebitId(job: string): string {
    "schedule-credit-" + job
  }

  function RefundId(job: string): string {
    "schedule-credit-refund-" + job
  }

  function DebitReason(job: string): string {
    "Schedule generation (" + job + ")"
  }

  function RefundReason(job: string): string {
    "Schedule generation refund (" + job + ")"
  }

  /** Both id schemes are injective on their own. */
  lemma IdsInjective(a: string, b: string)
    ensures DebitId(a) == DebitId(b) ==> a == b
    ensures RefundId(a) == RefundId(b) ==> a == b
  {
    assert DebitId(a)[16..] == a && DebitId(b)[16..] == b;
    assert RefundId(a)[23..] == a && RefundId(b)[23..] == b;
  }

  /** The two schemes meet exactly when one job's id is "refund-" followed by the other's. */
  lemma IdsClashExactly(a: string, b: string)
    ensures DebitId(a) == RefundId(b) <==> a == "refund-" + b
  {
    assert RefundId(b) == DebitId("refund-" + b);
    IdsInjective(a, "refund-" + b);
  }

  /** The job ids for which debit and refund rows can never be confused. */
  ghost predicate NoIdClash(ids: set<string>) {
    forall a, b :: a in ids && b in ids ==> a != "refund-" + b
  }

  /** One debit row that proves the charge, including its post-debit balance. */
  predicate ExactDebit(ledger: Ledger, tenant: string, job: string, charge: Charge)
    requires charge.Credits?
  {
    && SameDebit(ledger, tenant, job, charge)
    && ledger[DebitId(job)].debtAmount == 0
    && ledger[DebitId(job)].debtAfter == 0
  }

  /** The same proof without the two debt columns, as the terminal outcome check reads it. */
  predicate SameDebit(ledger: Ledger, tenant: string, job: string, charge: Charge)
    requires charge.Credits?
  {
    && DebitId(job) in ledger
    && var row := ledger[DebitId(job)];
    && row.tenant == tenant
    && row.amount == -charge.consumed
    && row.reason == DebitReason(job)
    && row.balanceAfter == Some(charge.newBalance)
  }

  /** One refund row worth exactly `value`, whatever part of it repaid debt. */
  predicate ExactRefund(ledger: Ledger, tenant: string, job: string, value: int) {
    && RefundId(job) in ledger
    && var row := ledger[RefundId(job)];
    && row.tenant == tenant
    && row.amount >= 0
    && row.debtAmount <= 0
    && row.debtAfter >= 0
    && row.amount - row.debtAmount == value
    && row.reason == RefundReason(job)
    && row.balanceAfter.Some?
    && row.balanceAfter.value >= 0
  }

  datatype Settlement = Rejected | Replayed | Settled(wallet: Wallet, row: LedgerRow)

  /**
   Returns `value` to a wallet: debt is repaid before anything becomes
   spendable, and the inserted row records both parts and both results.
   */
  function Settle(wallet: Wallet, ledger: Ledger, tenant: string, value: int, reason: string, id: string): (s: Settlement)
    ensures s.Settled? ==>
      && 0 < value
      && id !in ledger
      && s.wallet.Net() == wallet.Net() + value
      && 0 <= s.wallet.balance <= MAX_INTEGER
      && 0 <= s.wallet.debt <= wallet.debt
      && (s.wallet.debt > 0 ==> s.wallet.balance == wallet.balance)
      && s.row.tenant == tenant
      && s.row.reason == reason
      && s.row.amount == s.wallet.balance - wallet.balance >= 0
      && s.row.debtAmount == s.wallet.debt - wallet.debt <= 0
      && s.row.amount - s.row.debtAmount == value
      && s.row.balanceAfter == Some(s.wallet.balance)
      && s.row.debtAfter == s.wallet.debt
    ensures 0 < value && 0 <= wallet.balance <= MAX_INTEGER - value && 0 <= wallet.debt && id !in ledger ==> s.Settled?
    ensures s.Replayed? ==> id in ledger && ledger[id].amount - ledger[id].debtAmount == value
  {
    if value <= 0 || wallet.balance < 0 || wallet.debt < 0 then
      Rejected
    else if id in ledger then
      var row := ledger[id];
      if || row.tenant != tenant
         || row.reason != reason
         || row.amount < 0
         || row.debtAmount > 0
         || row.balanceAfter.None?
         || row.balanceAfter.value < 0
         || row.debtAfter < 0
         || row.amount - row.debtAmount != value
      then Rejected
      else Replayed
    else
      var repaid := if wallet.debt < value then wallet.debt else value;
      var spendable := value - repaid;
      var balance := wallet.balance + spendable;
      if balance > MAX_INTEGER then
        Rejected
      else
        Settled(
          Wallet(balance, wallet.debt - repaid),
          LedgerRow(tenant, spendable, -repaid, reason, Some(balance), wallet.debt - repaid))
  }
}
