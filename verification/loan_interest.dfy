/** The loan terms calculator: from a principal and a term in months to the
    interest rate, the interest, the amount to repay and a month-by-month
    installment schedule whose last entry absorbs the rounding remainder. */
module LoanInterest {

  /** Configuration, fixed at the defaults the server falls back to. */
  const BASE_MONTH: nat := 3
  const BASE_INTEREST: real := 2.5
  const SINGLE_INTEREST: real := 0.8333
  const SERVICE_CHARGE: real := 300.0

  datatype Installment = Installment(month: nat, amount: real, paid: bool)

  datatype LoanTerms = LoanTerms(
    totalInterest: real,
    interestAmount: real,
    repaymentAmount: real,
    installments: seq<Installment>)

  /** The rate in percent before rounding: whole blocks of BASE_MONTH
      months at BASE_INTEREST, the months left over at SINGLE_INTEREST. */
  function UnroundedRate(term: nat): real
  {
    if term < BASE_MONTH then term as real * SINGLE_INTEREST
    else (term / BASE_MONTH) as real * BASE_INTEREST + (term % BASE_MONTH) as real * SINGLE_INTEREST
  }

  /** `Number(x.toFixed(2))` for a non-negative x: round half up to cents. */
  function RoundToCents(x: real): real
  {
    (x * 100.0 + 0.5).Floor as real / 100.0
  }

  /** The rate in hundredths of a percent, in closed form. */
  function RateCents(term: nat): nat
  {
    250 * (term / 3) + (if term % 3 == 0 then 0 else if term % 3 == 1 then 83 else 167)
  }

  /** The rounded rate the calculator uses, in percent. */
  function Rate(term: nat): (r: real)
    ensures r == RateCents(term) as real / 100.0
  {
    RateInCents(term);
    RoundToCents(UnroundedRate(term))
  }

  lemma RateInCents(term: nat)
    ensures RoundToCents(UnroundedRate(term)) == RateCents(term) as real / 100.0
  {
    var q, m := term / 3, term % 3;
    var x := UnroundedRate(term) * 100.0 + 0.5;
    assert UnroundedRate(term) == q as real * 2.5 + m as real * 0.8333;
    assert x == 250.0 * q as real + 83.33 * m as real + 0.5;
    var c := RateCents(term);
    assert c as real <= x < c as real + 1.0;
    assert x.Floor == c;
  }

  /** The unified formula also covers the short-term branch. */
  lemma {:induction false} ShortTermAgreesWithBlockFormula(term: nat)
    requires 1 <= term < BASE_MONTH
    ensures UnroundedRate(term)
         == (term / BASE_MONTH) as real * BASE_INTEREST + (term % BASE_MONTH) as real * SINGLE_INTEREST
  {
    assert term / BASE_MONTH == 0 && term % BASE_MONTH == term;
  }

  /** `Math.floor(repaymentAmount / term)`. */
  function FixedInstallment(repayment: real, term: nat): real
    requires term >= 1
  {
    (repayment / term as real).Floor as real
  }

  /** The floored share is at most the exact share and loses less than a unit per month. */
  lemma FixedInstallmentBounds(repayment: real, term: nat)
    requires term >= 1
    ensures FixedInstallment(repayment, term) * term as real <= repayment
    ensures repayment < FixedInstallment(repayment, term) * term as real + term as real
  {
    var t := term as real;
    var share := repayment / t;
    var f := FixedInstallment(repayment, term);
    assert f <= share < f + 1.0;
    assert share * t == repayment;
    MulMonotone(f, share, t);
    MulMonotoneStrict(share, f + 1.0, t);
    assert repayment < (f + 1.0) * t;
    assert (f + 1.0) * t == f * t + t;
    assert repayment < f * t + t;
  }

  lemma MulMonotone(a: real, b: real, t: real)
    requires a <= b && t > 0.0
    ensures a * t <= b * t
  {}

  lemma MulMonotoneStrict(a: real, b: real, t: real)
    requires a < b && t > 0.0
    ensures a * t < b * t
  {}

  function FinalInstallment(repayment: real, term: nat): real
    requires term >= 1
  {
    repayment - FixedInstallment(repayment, term) * (term - 1) as real
  }

  /** `Array(term - 1).fill().map(...)` followed by the push of the final installment. */
  function Schedule(repayment: real, term: nat): (s: seq<Installment>)
    requires term >= 1
    ensures |s| == term
    ensures forall i :: 0 <= i < |s| ==> s[i].month == i + 1 && !s[i].paid
  {
    var fixed := FixedInstallment(repayment, term);
    seq(term - 1, i requires 0 <= i < term - 1 => Installment(i + 1, fixed, false))
      + [Installment(term, FinalInstallment(repayment, term), false)]
  }

  function SumAmounts(s: seq<Installment>): real
  {
    if s == [] then 0.0 else s[0].amount + SumAmounts(s[1..])
  }

  lemma {:induction false} SumAmountsAppend(a: seq<Installment>, b: seq<Installment>)
    ensures SumAmounts(a + b) == SumAmounts(a) + SumAmounts(b)
  {
    if a != [] {
      assert (a + b)[1..] == a[1..] + b;
      SumAmountsAppend(a[1..], b);
    } else {
      assert a + b == b;
    }
  }

  lemma {:induction false} SumAmountsConstant(s: seq<Installment>, f: real)
    requires forall i :: 0 <= i < |s| ==> s[i].amount == f
    ensures SumAmounts(s) == |s| as real * f
  {
    if s != [] {
      SumAmountsConstant(s[1..], f);
    }
  }

  /** The schedule's amounts add up to the repayment amount exactly. */
  lemma ScheduleSum(repayment: real, term: nat)
    requires term >= 1
    ensures SumAmounts(Schedule(repayment, term)) == repayment
  {
    var s := Schedule(repayment, term);
    var fixed := FixedInstallment(repayment, term);
    var last := FinalInstallment(repayment, term);
    SumAmountsAppend(s[..term - 1], [s[term - 1]]);
    assert s == s[..term - 1] + [s[term - 1]];
    SumAmountsConstant(s[..term - 1], fixed);
    assert SumAmounts([s[term - 1]]) == last;
  }

  /** Every installment but the last is the floored share; the last is the
      remainder, never smaller than the share and exceeding it by less
      than the number of months. */
  lemma ScheduleAmounts(repayment: real, term: nat)
    requires term >= 1
    ensures forall i :: 0 <= i < term - 1 ==>
              Schedule(repayment, term)[i].amount == (repayment / term as real).Floor as real
    ensures Schedule(repayment, term)[term - 1].amount
         == repayment - (repayment / term as real).Floor as real * (term - 1) as real
    ensures (repayment / term as real).Floor as real <= Schedule(repayment, term)[term - 1].amount
    ensures Schedule(repayment, term)[term - 1].amount < (repayment / term as real).Floor as real + term as real
  {
    FixedInstallmentBounds(repayment, term);
    var f := FixedInstallment(repayment, term);
    assert f * term as real == f * (term - 1) as real + f;
  }

  /** `calculateLoanInterest(amount, term_month)` for an integral term of at least one month. */
  function CalculateLoanInterest(amount: real, term: nat): (terms: LoanTerms)
    requires term >= 1
    ensures terms.totalInterest == RateCents(term) as real / 100.0
    ensures terms.interestAmount == terms.totalInterest / 100.0 * amount
    ensures terms.repaymentAmount == amount + terms.interestAmount + SERVICE_CHARGE
    ensures |terms.installments| == term
    ensures terms.installments == Schedule(terms.repaymentAmount, term)
    ensures SumAmounts(terms.installments) == terms.repaymentAmount
  {
    var rate := Rate(term);
    var interest := rate / 100.0 * amount;
    var repayment := amount + interest + SERVICE_CHARGE;
    ScheduleSum(repayment, term);
    LoanTerms(rate, interest, repayment, Schedule(repayment, term))
  }

  /** A one-month loan is repaid in a single installment of the whole amount. */
  lemma OneMonthTerm(amount: real)
    ensures CalculateLoanInterest(amount, 1).installments
         == [Installment(1, CalculateLoanInterest(amount, 1).repaymentAmount, false)]
  {
    var r := CalculateLoanInterest(amount, 1).repaymentAmount;
    assert FinalInstallment(r, 1) == r;
  }

  /** 20000 over 3 months: rate 2.5, interest 500, repayment 20800, 6933 + 6933 + 6934. */
  lemma ThreeMonthExample()
    ensures CalculateLoanInterest(20000.0, 3)
         == LoanTerms(2.5, 500.0, 20800.0,
                      [Installment(1, 6933.0, false), Installment(2, 6933.0, false), Installment(3, 6934.0, false)])
  {
    assert Rate(3) == 2.5;
    var f := FixedInstallment(20800.0, 3);
    assert (20800.0 / 3.0).Floor == 6933 by {
      assert 6933.0 <= 20800.0 / 3.0 < 6934.0;
    }
    assert f == 6933.0;
    var s := Schedule(20800.0, 3);
    assert s[0] == Installment(1, 6933.0, false);
    assert s[1] == Installment(2, 6933.0, false);
    assert s[2] == Installment(3, 6934.0, false);
  }
}
