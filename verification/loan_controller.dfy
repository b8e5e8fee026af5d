/** The loan handlers: a terms preview that persists nothing, and loan
    creation, which admits a borrower only while none of their loans is
    still unpaid and appends the new record to the loan collection. */
module LoanController {
  import opened Common
  import opened LoanInterest
  import opened LoanModel
  import opened UserModel

  /** The status the handler writes, and the only status it treats as settled. */
  const CREATED_STATUS: string := "active"
  const SETTLED_STATUS: string := "paid"

  const MSG_REQUIRED: string := "amount and term_month are required"
  const MSG_INVALID: string := "Invalid loan amount or term_month"
  const MSG_ACTIVE_LOAN: string := "You still have an active loan! Please pay up to take another Loan"

  /** One more than the largest length a JavaScript array can have. */
  const ARRAY_LENGTH_LIMIT: int := 0x1_0000_0000

  /** The body checks both handlers run before any lookup: falsy fields
      first, then anything that is not a positive number. */
  function LoanInputError(amount: Value, term: Value): (e: Option<string>)
    ensures e.None? <==> amount.Num? && amount.n > 0.0 && term.Num? && term.n > 0.0
    ensures e == Some(MSG_REQUIRED) <==> Falsy(amount) || Falsy(term)
    ensures e.Some? ==> e.value == MSG_REQUIRED || e.value == MSG_INVALID
  {
    if Falsy(amount) || Falsy(term) then Some(MSG_REQUIRED)
    else if !amount.Num? || amount.n <= 0.0 || !term.Num? || term.n <= 0.0 then Some(MSG_INVALID)
    else None
  }

  /** Whether the schedule can be built for a positive term: `Array(term - 1)`
      throws on a fractional length, and the final `push` throws once the
      array would reach the length limit; the handler answers 500. */
  predicate ScheduleBuildable(term: real)
  {
    IsInteger(term) && term < ARRAY_LENGTH_LIMIT as real
  }

  /** `loanModel.find({ userId })`. */
  function LoansOf(loans: seq<LoanRecord>, id: Option<UserId>): (mine: seq<LoanRecord>)
    ensures forall l :: l in mine ==> l in loans && Some(l.userId) == id
    ensures forall l :: l in loans && Some(l.userId) == id ==> l in mine
  {
    if loans == [] then []
    else (if Some(loans[0].userId) == id then [loans[0]] else []) + LoansOf(loans[1..], id)
  }

  /** `loans.some(loan => loan.status !== 'paid')`. */
  function SomeNotPaid(loans: seq<LoanRecord>): bool
  {
    loans != [] && (loans[0].status != SETTLED_STATUS || SomeNotPaid(loans[1..]))
  }

  /** The admission check: the borrower already holds a loan not marked paid. */
  predicate HasActiveLoan(loans: seq<LoanRecord>, id: Option<UserId>)
  {
    SomeNotPaid(LoansOf(loans, id))
  }

  lemma {:induction false} SomeNotPaidExists(loans: seq<LoanRecord>)
    ensures SomeNotPaid(loans) <==> exists l :: l in loans && l.status != SETTLED_STATUS
  {
    if loans != [] {
      SomeNotPaidExists(loans[1..]);
      assert forall l :: l in loans <==> l == loans[0] || l in loans[1..];
    }
  }

  /** A borrower is refused exactly when one of their loans is not "paid";
      an empty history, or one where every loan is paid, is admitted. */
  lemma HasActiveLoanIff(loans: seq<LoanRecord>, id: Option<UserId>)
    ensures HasActiveLoan(loans, id)
        <==> exists i :: 0 <= i < |loans| && Some(loans[i].userId) == id && loans[i].status != SETTLED_STATUS
  {
    SomeNotPaidExists(LoansOf(loans, id));
  }

  /** The collection invariant the admission check keeps: at most one loan
      per borrower that is not marked paid. */
  ghost predicate AtMostOneActive(loans: seq<LoanRecord>)
  {
    forall i, j :: 0 <= i < j < |loans| && loans[i].userId == loans[j].userId ==>
      loans[i].status == SETTLED_STATUS || loans[j].status == SETTLED_STATUS
  }

  function InstallmentDocs(s: seq<Installment>): (docs: seq<InstallmentDoc>)
    ensures |docs| == |s|
    ensures forall i :: 0 <= i < |s| ==>
              docs[i] == InstallmentDoc(s[i].month, s[i].amount, s[i].paid, None)
  {
    seq(|s|, i requires 0 <= i < |s| => InstallmentDoc(s[i].month, s[i].amount, s[i].paid, None))
  }

  /** `new loanModel({...})` as the handler fills it in. */
  function BuildLoanRecord(user: User, amount: real, term: nat, terms: LoanTerms, now: Date): LoanRecord
  {
    LoanRecord(
      userId := user.id,
      fullName := user.fullName,
      ipssNumber := user.ipssNumber,
      amount := amount,
      termMonth := term,
      status := CREATED_STATUS,
      totalInterest := terms.totalInterest,
      interestAmount := terms.interestAmount,
      totalInterestAmount := None,
      repaymentAmount := terms.repaymentAmount,
      recurringFee := None,
      finalPayment := None,
      monthlyInstallment := InstallmentDocs(terms.installments),
      createdAt := now)
  }

  /** The record createLoan builds does not satisfy the loan schema: its
      status is outside the enum and four required fields are missing. */
  lemma CreatedRecordViolatesSchema(user: User, amount: real, term: nat, now: Date)
    requires term >= 1
    ensures var r := BuildLoanRecord(user, amount, term, CalculateLoanInterest(amount, term), now);
      && r.status !in LOAN_STATUSES
      && r.totalInterestAmount.None? && r.recurringFee.None? && r.finalPayment.None?
      && r.monthlyInstallment[term - 1].penaltyApplied.None?
      && !LoanSchemaValid(r)
  {
    var r := BuildLoanRecord(user, amount, term, CalculateLoanInterest(amount, term), now);
    assert r.status == "active";
    assert r.status != LOAN_STATUSES[0] && r.status != LOAN_STATUSES[1];
    assert r.status != LOAN_STATUSES[2] && r.status != LOAN_STATUSES[3];
  }

  class LoanStore {
    /** The loan collection, in insertion order. */
    var loans: seq<LoanRecord>

    ghost predicate Valid()
      reads this
    {
      AtMostOneActive(loans)
    }

    constructor ()
      ensures loans == [] && Valid()
    {
      loans := [];
    }

    /** `calculateLoanTerms`: the preview; any authenticated role may ask. */
    method CalculateLoanTerms(caller: Caller, body: Body) returns (reply: Reply<LoanTerms>)
      ensures var amount, term := Field(body, "amount"), Field(body, "term_month");
        && (LoanInputError(amount, term).Some? ==> reply == Fail(400, LoanInputError(amount, term).value))
        && (LoanInputError(amount, term).None? && HasActiveLoan(loans, caller.id) ==> reply == Fail(400, MSG_ACTIVE_LOAN))
        && (reply.Success? <==> LoanInputError(amount, term).None? && !HasActiveLoan(loans, caller.id)
                                && ScheduleBuildable(term.n))
        && (reply.Success? ==> reply.code == 200 && term.n.Floor >= 1
                               && reply.value == CalculateLoanInterest(amount.n, term.n.Floor))
        && (reply.Failure? ==> reply.code == 400 || reply == Fail(500, "Unable to get loan terms"))
    {
      var amount, term := Field(body, "amount"), Field(body, "term_month");
      var inputError := LoanInputError(amount, term);
      if inputError.Some? {
        return Fail(400, inputError.value);
      }
      if HasActiveLoan(loans, caller.id) {
        return Fail(400, MSG_ACTIVE_LOAN);
      }
      if !ScheduleBuildable(term.n) {
        return Fail(500, "Unable to get loan terms");
      }
      reply := Success(200, CalculateLoanInterest(amount.n, term.n.Floor));
    }

    /** `createLoan`: role check, body checks, borrower lookup, admission
      check, then the new record is appended. */
    method CreateLoan(caller: Caller, body: Body, directory: seq<User>, now: Date) returns (reply: Reply<LoanRecord>)
      requires Valid()
      modifies this
      ensures Valid()
      ensures caller.role != ROLE_USER ==> reply == Fail(403, "Access denied! Login with a user account")
      ensures var amount, term := Field(body, "amount"), Field(body, "term_month");
        && (caller.role == ROLE_USER && LoanInputError(amount, term).Some? ==>
              reply == Fail(400, LoanInputError(amount, term).value))
        && (caller.role == ROLE_USER && LoanInputError(amount, term).None? && FindUser(directory, caller.id).None? ==>
              reply == Fail(404, "No user found"))
        && ((caller.role == ROLE_USER && LoanInputError(amount, term).None? && FindUser(directory, caller.id).Some?
             && HasActiveLoan(old(loans), caller.id)) ==> reply == Fail(400, MSG_ACTIVE_LOAN))
        && (reply.Success? <==>
              && caller.role == ROLE_USER
              && LoanInputError(amount, term).None?
              && FindUser(directory, caller.id).Some?
              && !HasActiveLoan(old(loans), caller.id)
              && ScheduleBuildable(term.n))
        && (reply.Success? ==>
              && reply.code == 200
              && term.n.Floor >= 1
              && reply.value == BuildLoanRecord(FindUser(directory, caller.id).value, amount.n, term.n.Floor,
                                                CalculateLoanInterest(amount.n, term.n.Floor), now)
              && loans == old(loans) + [reply.value]
              && HasActiveLoan(loans, caller.id))
      ensures reply.Failure? ==> loans == old(loans)
    {
      if caller.role != ROLE_USER {
        return Fail(403, "Access denied! Login with a user account");
      }
      var amount, term := Field(body, "amount"), Field(body, "term_month");
      var inputError := LoanInputError(amount, term);
      if inputError.Some? {
        return Fail(400, inputError.value);
      }
      var user := FindUser(directory, caller.id);
      if user.None? {
        return Fail(404, "No user found");
      }
      if HasActiveLoan(loans, caller.id) {
        return Fail(400, MSG_ACTIVE_LOAN);
      }
      if !ScheduleBuildable(term.n) {
        return Fail(500, "Unable to create loan");
      }
      var months := term.n.Floor;
      var record := BuildLoanRecord(user.value, amount.n, months, CalculateLoanInterest(amount.n, months), now);
      HasActiveLoanIff(loans, caller.id);
      loans := loans + [record];
      HasActiveLoanIff(loans, caller.id);
      assert loans[|loans| - 1] == record;
      reply := Success(200, record);
    }
  }
}
