/** The stored loan document and the constraints its schema declares. */
module LoanModel {
  import opened Common

  /** The statuses the schema's enum admits. */
  const LOAN_STATUSES: seq<string> := ["pending", "rejected", "approved", "completed"]

  /** One entry of `monthlyInstallment`; `penaltyApplied` may be absent. */
  datatype InstallmentDoc = InstallmentDoc(month: nat, amount: real, paid: bool, penaltyApplied: Option<bool>)

  /** A loan document. The fields the schema requires but a document may
      still lack are optional here. */
  datatype LoanRecord = LoanRecord(
    userId: UserId,
    fullName: string,
    ipssNumber: Option<int>,
    amount: real,
    termMonth: nat,
    status: string,
    totalInterest: real,
    interestAmount: real,
    totalInterestAmount: Option<real>,
    repaymentAmount: real,
    recurringFee: Option<real>,
    finalPayment: Option<real>,
    monthlyInstallment: seq<InstallmentDoc>,
    createdAt: Date)

  predicate InstallmentSchemaValid(d: InstallmentDoc)
  {
    d.penaltyApplied.Some?
  }

  /** Whether a document passes the schema's validators: every required
      field present, the ipssNumber in range, the status in the enum. */
  predicate LoanSchemaValid(r: LoanRecord)
  {
    && r.fullName != ""
    && r.ipssNumber.Some? && IpssInRange(r.ipssNumber.value)
    && r.status in LOAN_STATUSES
    && r.totalInterestAmount.Some?
    && r.recurringFee.Some?
    && r.finalPayment.Some?
    && forall i :: 0 <= i < |r.monthlyInstallment| ==> InstallmentSchemaValid(r.monthlyInstallment[i])
  }
}
