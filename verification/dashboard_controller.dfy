/** The two dashboards: a user's own summary (savings, last transaction and
    the approved loan's figures, with zero defaults) and the admin's counts
    and interest revenue for the current month and year. */
module DashboardController {
  import opened Common
  import opened UserModel
  import opened SavingModel
  import opened LoanModel
  import LoanController

  const APPROVED_STATUS: string := "approved"
  const COMPLETED_STATUS: string := "completed"
  const MSG_DENIED: string := "Access denied!"
  const MSG_ERROR: string := "An error occured"

  const MONTH_NAMES: seq<string> :=
    ["January", "February", "March", "April", "May", "June",
     "July", "August", "September", "October", "November", "December"]

  // ---------------------------------------------------------------- user

  /** `approvedLoanUnpaidMonths`: installments with `paid === false`. */
  function CountUnpaid(ds: seq<InstallmentDoc>): (n: nat)
    ensures n <= |ds|
    ensures n == 0 <==> forall i :: 0 <= i < |ds| ==> ds[i].paid
    ensures n == |ds| <==> forall i :: 0 <= i < |ds| ==> !ds[i].paid
  {
    if ds == [] then 0
    else CountUnpaid(ds[..|ds| - 1]) + (if ds[|ds| - 1].paid then 0 else 1)
  }

  /** The `$slice: -1` projection: the newest transaction, if any. */
  function LastTransaction(txns: seq<Transaction>): (last: seq<Transaction>)
    ensures |last| == (if txns == [] then 0 else 1)
    ensures last == txns[|txns| - |last|..]
  {
    if txns == [] then [] else [txns[|txns| - 1]]
  }

  /** `savingModel.findOne({userId})`: the first account of the user. */
  function FirstAccount(accounts: seq<Account>, u: UserId): (r: Option<nat>)
    ensures r.Some? ==> r.value < |accounts| && accounts[r.value].userId == u
    ensures r.Some? ==> forall j :: 0 <= j < r.value ==> accounts[j].userId != u
    ensures r.None? ==> forall j :: 0 <= j < |accounts| ==> accounts[j].userId != u
  {
    if accounts == [] then None
    else if accounts[0].userId == u then Some(0)
    else match FirstAccount(accounts[1..], u)
      case None => None
      case Some(k) => Some(k + 1)
  }

  predicate ApprovedLoanOf(l: LoanRecord, u: UserId)
  {
    l.userId == u && l.status == APPROVED_STATUS
  }

  /** `loanModel.findOne({userId, status: "approved"})`. */
  function FirstApproved(loans: seq<LoanRecord>, u: UserId): (r: Option<nat>)
    ensures r.Some? ==> r.value < |loans| && ApprovedLoanOf(loans[r.value], u)
    ensures r.Some? ==> forall j :: 0 <= j < r.value ==> !ApprovedLoanOf(loans[j], u)
    ensures r.None? ==> forall j :: 0 <= j < |loans| ==> !ApprovedLoanOf(loans[j], u)
  {
    if loans == [] then None
    else if ApprovedLoanOf(loans[0], u) then Some(0)
    else match FirstApproved(loans[1..], u)
      case None => None
      case Some(k) => Some(k + 1)
  }

  /** The JSON body of a successful `userDashboard`. A fee or final payment
      the loan document lacks stays absent. */
  datatype UserSummary = UserSummary(
    totalSaving: real,
    lastSavingTransaction: seq<Transaction>,
    approvedLoanBalance: real,
    approvedLoanRecurringFee: Option<real>,
    approvedLoanFinalPayment: Option<real>,
    approvedLoanUnpaidMonths: nat)

  /** `userDashboard`. A caller whose user document is gone makes the
      handler dereference null, which its catch answers with 500. */
  function UserDashboard(caller: Caller, users: seq<User>, accounts: seq<Account>, loans: seq<LoanRecord>)
    : (r: Reply<UserSummary>)
    ensures caller.role != ROLE_USER ==> r == Fail(403, MSG_DENIED)
    ensures caller.role == ROLE_USER && FindUser(users, caller.id).None? ==> r == Fail(500, MSG_ERROR)
    ensures r.Success? <==> caller.role == ROLE_USER && FindUser(users, caller.id).Some?
    ensures r.Success? ==> r.code == 200
    ensures r.Success? && (forall j :: 0 <= j < |accounts| ==> accounts[j].userId != caller.id.value) ==>
              r.value.totalSaving == 0.0 && r.value.lastSavingTransaction == []
    ensures r.Success? && (forall j :: 0 <= j < |loans| ==> !ApprovedLoanOf(loans[j], caller.id.value)) ==>
              && r.value.approvedLoanBalance == 0.0
              && r.value.approvedLoanRecurringFee == Some(0.0)
              && r.value.approvedLoanFinalPayment == Some(0.0)
              && r.value.approvedLoanUnpaidMonths == 0
    ensures r.Success? ==> |r.value.lastSavingTransaction| <= 1
    ensures r.Success? && FirstAccount(accounts, caller.id.value).Some? ==>
              var a := accounts[FirstAccount(accounts, caller.id.value).value];
              && r.value.totalSaving == a.totalAmount
              && r.value.lastSavingTransaction == LastTransaction(a.transaction)
    ensures r.Success? && FirstApproved(loans, caller.id.value).Some? ==>
              var l := loans[FirstApproved(loans, caller.id.value).value];
              && r.value.approvedLoanBalance == l.repaymentAmount
              && r.value.approvedLoanRecurringFee == l.recurringFee
              && r.value.approvedLoanFinalPayment == l.finalPayment
              && r.value.approvedLoanUnpaidMonths == CountUnpaid(l.monthlyInstallment)
              && r.value.approvedLoanUnpaidMonths <= |l.monthlyInstallment|
  {
    if caller.role != ROLE_USER then Fail(403, MSG_DENIED)
    else match FindUser(users, caller.id)
      case None => Fail(500, MSG_ERROR)
      case Some(user) =>
        var saving := FirstAccount(accounts, user.id);
        var loan := FirstApproved(loans, user.id);
        Success(200, UserSummary(
          totalSaving := if saving.Some? then accounts[saving.value].totalAmount else 0.0,
          lastSavingTransaction := if saving.Some? then LastTransaction(accounts[saving.value].transaction) else [],
          approvedLoanBalance := if loan.Some? then loans[loan.value].repaymentAmount else 0.0,
          approvedLoanRecurringFee := if loan.Some? then loans[loan.value].recurringFee else Some(0.0),
          approvedLoanFinalPayment := if loan.Some? then loans[loan.value].finalPayment else Some(0.0),
          approvedLoanUnpaidMonths := if loan.Some? then CountUnpaid(loans[loan.value].monthlyInstallment) else 0))
  }

  /** Loans as `createLoan` writes them are never "approved", so a user
      whose loans all came from it sees zero balances. */
  lemma CreatedLoansShowNoBalance(caller: Caller, users: seq<User>, accounts: seq<Account>, loans: seq<LoanRecord>)
    requires caller.role == ROLE_USER && FindUser(users, caller.id).Some?
    requires forall j :: 0 <= j < |loans| ==> loans[j].status == LoanController.CREATED_STATUS
    ensures UserDashboard(caller, users, accounts, loans).value.approvedLoanBalance == 0.0
    ensures UserDashboard(caller, users, accounts, loans).value.approvedLoanUnpaidMonths == 0
  {
    forall j | 0 <= j < |loans|
      ensures !ApprovedLoanOf(loans[j], caller.id.value)
    {
      assert loans[j].status == "active";
    }
  }

  // --------------------------------------------------------------- admin

  /** The `$group` over savings: the sum of every account's total. */
  function SumTotals(accounts: seq<Account>): real
  {
    if accounts == [] then 0.0 else SumTotals(accounts[..|accounts| - 1]) + accounts[|accounts| - 1].totalAmount
  }

  /** With every account consistent the total savings are never negative. */
  lemma {:induction false} SumTotalsNonNegative(accounts: seq<Account>)
    ensures (forall i :: 0 <= i < |accounts| ==> Consistent(accounts[i])) ==> SumTotals(accounts) >= 0.0
  {
    if accounts != [] {
      SumTotalsNonNegative(accounts[..|accounts| - 1]);
    }
  }

  /** `countDocuments({status: "approved"})`. */
  function CountApproved(loans: seq<LoanRecord>): (n: nat)
    ensures n <= |loans|
    ensures n == 0 <==> forall i :: 0 <= i < |loans| ==> loans[i].status != APPROVED_STATUS
  {
    if loans == [] then 0
    else CountApproved(loans[..|loans| - 1]) + (if loans[|loans| - 1].status == APPROVED_STATUS then 1 else 0)
  }

  /** `countDocuments({role: "user"})`. */
  function CountUsers(users: seq<User>): (n: nat)
    ensures n <= |users|
    ensures n == 0 <==> forall i :: 0 <= i < |users| ==> users[i].role != ROLE_USER
  {
    if users == [] then 0
    else CountUsers(users[..|users| - 1]) + (if users[|users| - 1].role == ROLE_USER then 1 else 0)
  }

  /** The revenue `$match`: approved or completed, created in `year` and,
      for the monthly figure, in `month`. */
  predicate Earns(l: LoanRecord, year: int, month: Option<int>)
  {
    && (l.status == APPROVED_STATUS || l.status == COMPLETED_STATUS)
    && l.createdAt.year == year
    && (month.Some? ==> l.createdAt.month == month.value)
  }

  /** `$sum` skips a document without `totalInterestAmount`. */
  function InterestOf(l: LoanRecord): real
  {
    if l.totalInterestAmount.Some? then l.totalInterestAmount.value else 0.0
  }

  /** The loans the `$match` stage lets through, in order. */
  function Selected(loans: seq<LoanRecord>, year: int, month: Option<int>): (s: seq<LoanRecord>)
    ensures |s| <= |loans|
    ensures forall l :: l in s ==> l in loans && Earns(l, year, month)
    ensures forall l :: l in loans && Earns(l, year, month) ==> l in s
  {
    if loans == [] then []
    else
      var last := loans[|loans| - 1];
      Selected(loans[..|loans| - 1], year, month) + (if Earns(last, year, month) then [last] else [])
  }

  /** The `$group` stage: the sum of `totalInterestAmount`. */
  function SumInterest(loans: seq<LoanRecord>): real
  {
    if loans == [] then 0.0 else SumInterest(loans[..|loans| - 1]) + InterestOf(loans[|loans| - 1])
  }

  /** Filter, then sum; 0 when nothing matches. */
  function Revenue(loans: seq<LoanRecord>, year: int, month: Option<int>): real
  {
    SumInterest(Selected(loans, year, month))
  }

  /** A new loan adds its interest exactly when it matches. */
  lemma RevenueAppend(loans: seq<LoanRecord>, l: LoanRecord, year: int, month: Option<int>)
    ensures Revenue(loans + [l], year, month)
         == Revenue(loans, year, month) + (if Earns(l, year, month) then InterestOf(l) else 0.0)
  {
    assert (loans + [l])[..|loans|] == loans;
    var s := Selected(loans, year, month);
    if Earns(l, year, month) {
      assert (s + [l])[..|s|] == s;
    } else {
      assert s + [] == s;
    }
  }

  /** A loan as `createLoan` writes it ("active", no interest total) never
      changes the revenue. */
  lemma CreatedLoanEarnsNothing(loans: seq<LoanRecord>, l: LoanRecord, year: int, month: Option<int>)
    requires l.status == LoanController.CREATED_STATUS
    ensures Revenue(loans + [l], year, month) == Revenue(loans, year, month)
  {
    RevenueAppend(loans, l, year, month);
  }

  /** With no negative interest, a month never earns more than its year. */
  lemma {:induction false} MonthlyAtMostYearly(loans: seq<LoanRecord>, year: int, month: int)
    requires forall i :: 0 <= i < |loans| ==> InterestOf(loans[i]) >= 0.0
    ensures Revenue(loans, year, Some(month)) <= Revenue(loans, year, None)
  {
    if loans != [] {
      var n := |loans| - 1;
      MonthlyAtMostYearly(loans[..n], year, month);
      assert loans == loans[..n] + [loans[n]];
      RevenueAppend(loans[..n], loans[n], year, Some(month));
      RevenueAppend(loans[..n], loans[n], year, None);
    }
  }

  /** With no negative interest no revenue figure is negative. */
  lemma {:induction false} SumInterestNonNegative(loans: seq<LoanRecord>)
    requires forall l :: l in loans ==> InterestOf(l) >= 0.0
    ensures SumInterest(loans) >= 0.0
  {
    if loans != [] {
      SumInterestNonNegative(loans[..|loans| - 1]);
      assert loans[|loans| - 1] in loans;
    }
  }

  /** The dashboard's two revenue figures, when no interest is negative. */
  lemma RevenueBounds(loans: seq<LoanRecord>, year: int, month: int)
    ensures (forall i :: 0 <= i < |loans| ==> InterestOf(loans[i]) >= 0.0) ==>
              0.0 <= Revenue(loans, year, Some(month)) <= Revenue(loans, year, None)
  {
    if forall i :: 0 <= i < |loans| ==> InterestOf(loans[i]) >= 0.0 {
      MonthlyAtMostYearly(loans, year, month);
      var s := Selected(loans, year, Some(month));
      forall l | l in s
        ensures InterestOf(l) >= 0.0
      {
        assert l in loans;
      }
      SumInterestNonNegative(s);
    }
  }

  /** The revenue of months 1..k of a year. */
  function MonthsRevenue(loans: seq<LoanRecord>, year: int, k: nat): real
  {
    if k == 0 then 0.0 else MonthsRevenue(loans, year, k - 1) + Revenue(loans, year, Some(k))
  }

  /** One loan's share of months 1..k. */
  lemma {:induction false} MonthsRevenueAppend(loans: seq<LoanRecord>, l: LoanRecord, year: int, k: nat)
    ensures MonthsRevenue(loans + [l], year, k)
         == MonthsRevenue(loans, year, k)
            + (if Earns(l, year, None) && 1 <= l.createdAt.month <= k then InterestOf(l) else 0.0)
  {
    if k > 0 {
      MonthsRevenueAppend(loans, l, year, k - 1);
      RevenueAppend(loans, l, year, Some(k));
    }
  }

  /** The yearly revenue is the sum of the twelve monthly revenues. */
  lemma {:induction false} YearlyIsSumOfMonths(loans: seq<LoanRecord>, year: int)
    requires forall i :: 0 <= i < |loans| ==> 1 <= loans[i].createdAt.month <= 12
    ensures Revenue(loans, year, None) == MonthsRevenue(loans, year, 12)
  {
    if loans == [] {
      assert MonthsRevenue(loans, year, 0) == 0.0;
      ZeroMonths(year, 12);
    } else {
      var n := |loans| - 1;
      YearlyIsSumOfMonths(loans[..n], year);
      assert loans == loans[..n] + [loans[n]];
      RevenueAppend(loans[..n], loans[n], year, None);
      MonthsRevenueAppend(loans[..n], loans[n], year, 12);
    }
  }

  lemma {:induction false} ZeroMonths(year: int, k: nat)
    ensures MonthsRevenue([], year, k) == 0.0
  {
    if k > 0 {
      ZeroMonths(year, k - 1);
    }
  }

  /** The JSON body of a successful `adminDashboard`: the monthly figure
      is keyed by the month's name, the yearly one by the year. */
  datatype AdminSummary = AdminSummary(
    totalSavings: real,
    totalApprovedLoans: nat,
    totalUsers: nat,
    monthName: string,
    monthlyRevenue: real,
    year: int,
    yearlyRevenue: real)

  /** `adminDashboard`; `today` stands for the server clock's date. */
  function AdminDashboard(caller: Caller, today: Date, accounts: seq<Account>, loans: seq<LoanRecord>, users: seq<User>)
    : (r: Reply<AdminSummary>)
    requires 1 <= today.month <= 12
    ensures caller.role != ROLE_ADMIN ==> r == Fail(403, MSG_DENIED)
    ensures r.Success? <==> caller.role == ROLE_ADMIN
    ensures r.Success? ==>
      && r.code == 200
      && r.value.monthName == MONTH_NAMES[today.month - 1]
      && r.value.year == today.year
      && r.value.totalSavings == SumTotals(accounts)
      && r.value.totalApprovedLoans == CountApproved(loans)
      && r.value.totalUsers == CountUsers(users)
      && r.value.monthlyRevenue == Revenue(loans, today.year, Some(today.month))
      && r.value.yearlyRevenue == Revenue(loans, today.year, None)
      && r.value.totalApprovedLoans <= |loans|
      && r.value.totalUsers <= |users|
      && ((forall i :: 0 <= i < |loans| ==> InterestOf(loans[i]) >= 0.0) ==>
            0.0 <= r.value.monthlyRevenue <= r.value.yearlyRevenue)
      && ((forall i :: 0 <= i < |accounts| ==> Consistent(accounts[i])) ==> r.value.totalSavings >= 0.0)
  {
    if caller.role != ROLE_ADMIN then Fail(403, MSG_DENIED)
    else
      var monthly := Revenue(loans, today.year, Some(today.month));
      var yearly := Revenue(loans, today.year, None);
      RevenueBounds(loans, today.year, today.month);
      SumTotalsNonNegative(accounts);
      Success(200, AdminSummary(
        totalSavings := SumTotals(accounts),
        totalApprovedLoans := CountApproved(loans),
        totalUsers := CountUsers(users),
        monthName := MONTH_NAMES[today.month - 1],
        monthlyRevenue := monthly,
        year := today.year,
        yearlyRevenue := yearly))
  }
}
