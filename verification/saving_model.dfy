/** The savings account document: one per user, a running total and the
    list of deposits and withdrawals that produced it. */
module SavingModel {
  import opened Common

  /** The transaction type enum: "deposit" or "withdrawal". */
  datatype TxnType = Deposit | Withdrawal

  function TxnTypeName(t: TxnType): (name: string)
    ensures name == "deposit" || name == "withdrawal"
    ensures t.Deposit? <==> name == "deposit"
  {
    match t
    case Deposit => "deposit"
    case Withdrawal => "withdrawal"
  }

  datatype Transaction = Transaction(kind: TxnType, amount: real, date: int)

  datatype Account = Account(
    userId: UserId,
    ipssNumber: Option<int>,
    totalAmount: real,
    lastUpdated: int,
    transaction: seq<Transaction>)

  const DEFAULT_TOTAL: real := 0.0

  /** A freshly inserted account: the schema defaults, no transactions yet. */
  function NewAccount(userId: UserId, ipssNumber: Option<int>, now: int): (a: Account)
    ensures a.totalAmount == DEFAULT_TOTAL == 0.0 && a.transaction == []
    ensures a.userId == userId && a.ipssNumber == ipssNumber
  {
    Account(userId, ipssNumber, DEFAULT_TOTAL, now, [])
  }

  function Signed(t: Transaction): real
  {
    if t.kind == Deposit then t.amount else -t.amount
  }

  /** Deposits minus withdrawals, oldest first. */
  function Net(txns: seq<Transaction>): real
  {
    if txns == [] then 0.0 else Net(txns[..|txns| - 1]) + Signed(txns[|txns| - 1])
  }

  lemma NetAppend(txns: seq<Transaction>, t: Transaction)
    ensures Net(txns + [t]) == Net(txns) + Signed(t)
  {
    assert (txns + [t])[..|txns|] == txns;
  }

  /** Sum of the amounts of one kind. */
  function Total(txns: seq<Transaction>, kind: TxnType): real
  {
    if txns == [] then 0.0
    else Total(txns[..|txns| - 1], kind) + (if txns[|txns| - 1].kind == kind then txns[|txns| - 1].amount else 0.0)
  }

  /** The net is the sum of deposits minus the sum of withdrawals. */
  lemma {:induction false} NetIsDepositsMinusWithdrawals(txns: seq<Transaction>)
    ensures Net(txns) == Total(txns, Deposit) - Total(txns, Withdrawal)
  {
    if txns != [] {
      NetIsDepositsMinusWithdrawals(txns[..|txns| - 1]);
    }
  }

  /** An account whose total is accounted for by its transactions. */
  predicate Consistent(a: Account)
  {
    && a.totalAmount == Net(a.transaction)
    && a.totalAmount >= 0.0
    && forall i :: 0 <= i < |a.transaction| ==> a.transaction[i].amount > 0.0
  }

  /** The schema's per-document constraints on ipssNumber. */
  predicate AccountSchemaValid(a: Account)
  {
    a.ipssNumber.Some? && IpssInRange(a.ipssNumber.value)
  }
}
