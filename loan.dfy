/** A loan: the annuity formula for its fixed monthly payment, its default, risk
    and value measures, and the bookkeeping of its monthly payments. Money, rates
    and ratios are exact reals. */
module Loans {

  /** `x ** n` for a natural exponent. */
  function Power(x: real, n: nat): real
  {
    if n == 0 then 1.0 else x * Power(x, n - 1)
  }

  lemma {:induction false} PowerOfOne(n: nat)
    ensures Power(1.0, n) == 1.0
  {
    if n > 0 {
      PowerOfOne(n - 1);
    }
  }

  /** `a * b <= a * c` for a non-negative `a` and `b <= c`. */
  lemma MulLeft(a: real, b: real, c: real)
    requires a >= 0.0 && b <= c
    ensures a * b <= a * c
  {
  }

  lemma {:induction false} PowerAtLeastOne(x: real, n: nat)
    requires x >= 1.0
    ensures Power(x, n) >= 1.0
  {
    if n > 0 {
      PowerAtLeastOne(x, n - 1);
      MulLeft(x, 1.0, Power(x, n - 1));
    }
  }

  lemma {:induction false} PowerAboveOne(x: real, n: nat)
    requires x > 1.0 && n >= 1
    ensures Power(x, n) > 1.0
  {
    PowerAtLeastOne(x, n - 1);
    MulLeft(x, 1.0, Power(x, n - 1));
  }

  /** `a * b` is positive for positive `a` and `b`. */
  lemma MulPositive(a: real, b: real)
    requires a > 0.0 && b > 0.0
    ensures a * b > 0.0
  {
  }

  /** The ring identity behind one step of `PowerGrowth`. */
  lemma GrowthStep(x: real, k: real, y: real, p: real)
    ensures x * (k * y * p) + y * (x * p) == (k + 1.0) * y * (x * p)
  {
  }

  /** How fast a power grows: `x ** n - 1 <= n * (x - 1) * x ** n` for `x >= 1`. */
  lemma {:induction false} PowerGrowth(x: real, n: nat)
    requires x >= 1.0
    ensures Power(x, n) - 1.0 <= (n as real) * (x - 1.0) * Power(x, n)
  {
    if n > 0 {
      var p := Power(x, n - 1);
      var k := (n - 1) as real;
      var y := x - 1.0;
      PowerGrowth(x, n - 1);
      PowerAtLeastOne(x, n - 1);
      MulLeft(x, 1.0, p);
      GrowthBound(x, k, y, p);
      assert Power(x, n) == x * p;
      assert (k + 1.0) == n as real;
    }
  }

  /** One step of `PowerGrowth`: from `p - 1 <= k * y * p`, `p >= 1` and `x * p >= 1`
      with `y == x - 1 >= 0`, `x * p - 1 <= (k + 1) * y * (x * p)`. */
  lemma GrowthBound(x: real, k: real, y: real, p: real)
    requires x >= 1.0 && y == x - 1.0 && x * p >= 1.0
    requires p - 1.0 <= k * y * p
    ensures x * p - 1.0 <= (k + 1.0) * y * (x * p)
  {
    MulLeft(x, p - 1.0, k * y * p);
    MulLeft(y, 1.0, x * p);
    GrowthStep(x, k, y, p);
  }

  /** The monthly rate `r` of an annual interest rate. */
  function MonthlyRate(rate: real): real
  {
    rate / 12.0
  }

  /** The annuity formula divides by `(1 + r) ** n - 1`, so it has a value exactly
      when that is not zero. */
  predicate AnnuityDefined(rate: real, term: nat)
  {
    Power(1.0 + MonthlyRate(rate), term) != 1.0
  }

  /** `P * r * (1 + r) ** n / ((1 + r) ** n - 1)` with `r = rate / 12`; its
      contract is the equation the division solves. */
  function Annuity(amount: real, rate: real, term: nat): (m: real)
    requires AnnuityDefined(rate, term)
    ensures m * (Power(1.0 + MonthlyRate(rate), term) - 1.0)
         == amount * MonthlyRate(rate) * Power(1.0 + MonthlyRate(rate), term)
  {
    var r := MonthlyRate(rate);
    var g := Power(1.0 + r, term);
    amount * r * g / (g - 1.0)
  }

  /** A zero interest rate, or a zero term, leaves the payment undefined. */
  lemma ZeroRateOrTermUndefined(rate: real, term: nat)
    requires rate == 0.0 || term == 0
    ensures !AnnuityDefined(rate, term)
  {
    if rate == 0.0 {
      PowerOfOne(term);
    }
  }

  /** With a positive rate and term the payment exists, and it is positive for a
      positive principal. */
  lemma PositiveRatePayment(amount: real, rate: real, term: nat)
    requires rate > 0.0 && term >= 1
    ensures AnnuityDefined(rate, term)
    ensures amount >= 0.0 ==> Annuity(amount, rate, term) >= 0.0
    ensures amount > 0.0 ==> Annuity(amount, rate, term) > 0.0
  {
    var r := MonthlyRate(rate);
    var g := Power(1.0 + r, term);
    PowerAboveOne(1.0 + r, term);
    var m := Annuity(amount, rate, term);
    assert m * (g - 1.0) == amount * (r * g);
    if amount > 0.0 {
      MulPositive(r, g);
      MulPositive(amount, r * g);
      QuotientSign(m, g - 1.0);
    } else if amount == 0.0 {
      assert m * (g - 1.0) == 0.0;
      QuotientSign(m, g - 1.0);
    }
  }

  /** With `d > 0` the product `m * d` has the sign of `m`. */
  lemma QuotientSign(m: real, d: real)
    requires d > 0.0
    ensures m * d > 0.0 ==> m > 0.0
    ensures m * d >= 0.0 ==> m >= 0.0
  {
    if m < 0.0 {
      MulPositive(-m, d);
    }
  }

  /** A part smaller than a positive whole is a share in [0, 1). */
  lemma ShareBelowOne(part: real, whole: real)
    requires 0.0 <= part < whole
    ensures 0.0 <= part / whole < 1.0
  {
    var share := part / whole;
    assert share * whole == part;
    QuotientSign(share, whole);
    assert (1.0 - share) * whole == whole - part;
    QuotientSign(1.0 - share, whole);
  }

  /** The balance of a standard amortization schedule after `months` months:
      each month interest at rate `r` accrues and one payment is subtracted. */
  function Remaining(principal: real, r: real, payment: real, months: nat): real
  {
    if months == 0 then principal
    else Remaining(principal, r, payment, months - 1) * (1.0 + r) - payment
  }

  /** `r * q` is what the closed form of the annuity gives for a balance `q`
      after the months over which `(1 + r)` has compounded to `g`:
      `r * q == P * r * g - m * (g - 1)`. */
  predicate ClosedForm(principal: real, r: real, payment: real, q: real, g: real)
  {
    r * q == principal * r * g - payment * (g - 1.0)
  }

  lemma {:induction false} RemainingClosedForm(principal: real, r: real, payment: real, months: nat)
    ensures ClosedForm(principal, r, payment, Remaining(principal, r, payment, months), Power(1.0 + r, months))
  {
    if months > 0 {
      RemainingClosedForm(principal, r, payment, months - 1);
      ClosedFormStep(principal, r, payment,
        Remaining(principal, r, payment, months - 1), Power(1.0 + r, months - 1),
        Remaining(principal, r, payment, months), Power(1.0 + r, months));
    } else {
      ClosedFormBase(principal, r, payment, Remaining(principal, r, payment, 0), Power(1.0 + r, 0));
    }
  }

  /** Month zero of `RemainingClosedForm`: nothing is paid, nothing has grown. */
  lemma ClosedFormBase(principal: real, r: real, payment: real, q: real, g: real)
    requires q == principal && g == 1.0
    ensures ClosedForm(principal, r, payment, q, g)
  {
  }

  /** One month of `RemainingClosedForm`: if a balance `q` has the closed form
      with `g = (1 + r) ** months`, the next month's balance `q'` has it with
      `g' = (1 + r) * g`. */
  lemma ClosedFormStep(principal: real, r: real, payment: real, q: real, g: real, q': real, g': real)
    requires ClosedForm(principal, r, payment, q, g)
    requires q' == q * (1.0 + r) - payment && g' == (1.0 + r) * g
    ensures ClosedForm(principal, r, payment, q', g')
  {
    calc {
      r * q';
      (1.0 + r) * (r * q) - payment * r;
      (1.0 + r) * (principal * r * g - payment * (g - 1.0)) - payment * r;
      principal * r * g' - payment * (g' - 1.0);
    }
  }

  /** The annuity payment retires the principal exactly at the end of the term. */
  lemma AnnuityRetiresPrincipal(amount: real, rate: real, term: nat)
    requires AnnuityDefined(rate, term)
    ensures Remaining(amount, MonthlyRate(rate), Annuity(amount, rate, term), term) == 0.0
  {
    var r := MonthlyRate(rate);
    if r == 0.0 {
      PowerOfOne(term);
      assert false;
    }
    RemainingClosedForm(amount, r, Annuity(amount, rate, term), term);
  }

  /** With a positive rate the payments over the term add up to at least the
      principal. */
  lemma TotalPaidCoversPrincipal(amount: real, rate: real, term: nat)
    requires amount >= 0.0 && rate > 0.0 && term >= 1
    ensures AnnuityDefined(rate, term)
    ensures Annuity(amount, rate, term) * (term as real) >= amount
  {
    PositiveRatePayment(amount, rate, term);
    var r := MonthlyRate(rate);
    var g := Power(1.0 + r, term);
    PowerAboveOne(1.0 + r, term);
    PowerGrowth(1.0 + r, term);
    CoverStep(Annuity(amount, rate, term), term as real, amount, r, g);
  }

  /** The algebra of `TotalPaidCoversPrincipal`: from `m * (g - 1) == P * r * g`
      and `g - 1 <= n * r * g` with `g > 1` and `P >= 0`, `m * n >= P`. */
  lemma CoverStep(m: real, n: real, amount: real, r: real, g: real)
    requires g > 1.0 && amount >= 0.0
    requires m * (g - 1.0) == amount * r * g
    requires g - 1.0 <= n * r * g
    ensures m * n >= amount
  {
    MulLeft(amount, g - 1.0, n * r * g);
    assert (m * n - amount) * (g - 1.0) == n * (amount * r * g) - amount * (g - 1.0);
    QuotientSign(m * n - amount, g - 1.0);
  }

  /** What `Borrower.make_payment` did when the loan called it: it returned a
      boolean, or its `loans.remove(loan)` raised ValueError. */
  datatype Outcome = Returned(paid: bool) | RemoveError

  class Loan {
    const lender: int
    const borrower: int
    const amount: real
    const interestRate: real
    const term: nat
    var balance: real
    var paymentsMade: nat
    var missedPayments: nat
    var isActive: bool
    var totalInterestPaid: real

    /** The state of a loan as issued: the whole amount outstanding, nothing paid
        or missed, no interest accrued. */
    ghost predicate AsIssued()
      reads this
    {
      balance == amount && paymentsMade == 0 && missedPayments == 0 &&
      isActive && totalInterestPaid == 0.0
    }

    constructor (lender: int, borrower: int, amount: real, interestRate: real, term: nat)
      ensures this.lender == lender && this.borrower == borrower
      ensures this.amount == amount && this.interestRate == interestRate && this.term == term
      ensures AsIssued()
    {
      this.lender := lender;
      this.borrower := borrower;
      this.amount := amount;
      this.interestRate := interestRate;
      this.term := term;
      balance := amount;
      paymentsMade := 0;
      missedPayments := 0;
      isActive := true;
      totalInterestPaid := 0.0;
    }

    method Reset()
      modifies this
      ensures AsIssued()
    {
      balance := amount;
      paymentsMade := 0;
      missedPayments := 0;
      isActive := true;
      totalInterestPaid := 0.0;
    }

    /** The monthly payment can be computed (no division by zero). */
    predicate Payable()
    {
      AnnuityDefined(interestRate, term)
    }

    /** The fixed monthly payment; paid every month for the term, with interest
        at the monthly rate on what is left, it retires the amount exactly. */
    function MonthlyPayment(): (m: real)
      requires Payable()
      ensures Remaining(amount, MonthlyRate(interestRate), m, term) == 0.0
    {
      AnnuityRetiresPrincipal(amount, interestRate, term);
      Annuity(amount, interestRate, term)
    }

    /** Three missed payments default a loan whatever the borrower's
        debt-to-income ratio `dti`; otherwise it defaults when `dti` exceeds 0.6. */
    function IsDefaulted(dti: real): (d: bool)
      reads this
      ensures missedPayments >= 3 ==> d
      ensures dti > 0.6 ==> d
      ensures d ==> missedPayments >= 3 || dti > 0.6
    {
      missedPayments >= 3 || dti > 0.6
    }

    /** The weighted risk before capping: debt-to-income, share of missed
        payments, distance of the credit score from 850, and length of term.
        With a score in [300, 850] the missed share and the score factor add
        less than 0.5 to the debt-to-income and term parts. */
    function RiskFactors(dti: real, creditScore: int): (f: real)
      reads this
      ensures 300 <= creditScore <= 850 ==>
                dti * 0.3 + term as real / 300.0 <= f < dti * 0.3 + term as real / 300.0 + 0.5
    {
      var history := missedPayments as real / (paymentsMade + missedPayments + 1) as real;
      ShareBelowOne(missedPayments as real, (paymentsMade + missedPayments + 1) as real);
      var creditFactor := 1.0 - (creditScore - 300) as real / 550.0;
      var termFactor := term as real / 60.0;
      dti * 0.3 + history * 0.3 + creditFactor * 0.2 + termFactor * 0.2
    }

    function RiskScore(dti: real, creditScore: int): (s: real)
      reads this
      ensures s <= 1.0
      ensures IsDefaulted(dti) ==> s == 1.0
      ensures !IsDefaulted(dti) && RiskFactors(dti, creditScore) <= 1.0 ==> s == RiskFactors(dti, creditScore)
      ensures !IsDefaulted(dti) && RiskFactors(dti, creditScore) > 1.0 ==> s == 1.0
    {
      if IsDefaulted(dti) then 1.0
      else
        var score := RiskFactors(dti, creditScore);
        if score < 1.0 then score else 1.0
    }

    /** What the loan is worth: half the balance once defaulted, otherwise the
        payments still due; before any payment that is the amount plus the total
        interest. */
    function CurrentValue(dti: real): (v: real)
      reads this
      requires !IsDefaulted(dti) ==> Payable()
      ensures IsDefaulted(dti) ==> v == balance * 0.5
      ensures IsDefaulted(dti) && balance >= 0.0 ==> 0.0 <= v <= balance
      ensures !IsDefaulted(dti) ==> v == MonthlyPayment() * (term - paymentsMade) as real
      ensures !IsDefaulted(dti) && paymentsMade == 0 ==> v == amount + TotalInterest()
    {
      if IsDefaulted(dti) then balance * 0.5
      else MonthlyPayment() * (term - paymentsMade) as real
    }

    /** The payments still due, less the share the risk score expects to lose,
        less what the balance has moved away from the amount. */
    function ExpectedReturn(dti: real, creditScore: int): (e: real)
      reads this
      requires !IsDefaulted(dti) ==> Payable()
      ensures IsDefaulted(dti) ==> e == -CurrentValue(dti)
      ensures !IsDefaulted(dti) ==>
                e == CurrentValue(dti) * (1.0 - RiskScore(dti, creditScore)) - (balance - amount)
    {
      if IsDefaulted(dti) then -balance * 0.5
      else
        var totalExpectedPayments := MonthlyPayment() * (term - paymentsMade) as real;
        var expectedLoss := totalExpectedPayments * RiskScore(dti, creditScore);
        totalExpectedPayments - expectedLoss - (balance - amount)
    }

    /** All payments over the term less the amount; never negative for a positive
        rate and term. */
    function TotalInterest(): (t: real)
      requires Payable()
      ensures t + amount == MonthlyPayment() * term as real
      ensures amount >= 0.0 && interestRate > 0.0 && term >= 1 ==> t >= 0.0
    {
      if amount >= 0.0 && interestRate > 0.0 && term >= 1 then
        TotalPaidCoversPrincipal(amount, interestRate, term);
        MonthlyPayment() * term as real - amount
      else
        MonthlyPayment() * term as real - amount
    }

    /** `Loan.make_payment`, given what the borrower's `make_payment(self)` did.
        An inactive loan does not call the borrower and changes nothing; an
        exception from the borrower leaves the loan's own fields as they were. */
    method MakePayment(settled: Outcome) returns (r: Outcome)
      requires isActive ==> Payable()
      modifies this
      ensures !old(isActive) ==> r == Returned(false) && unchanged(this)
      ensures old(isActive) && settled == RemoveError ==> r == RemoveError && unchanged(this)
      ensures old(isActive) && settled == Returned(false) ==>
                r == Returned(false) && missedPayments == old(missedPayments) + 1 &&
                balance == old(balance) && paymentsMade == old(paymentsMade) &&
                isActive && totalInterestPaid == old(totalInterestPaid)
      ensures old(isActive) && settled == Returned(true) ==>
                r == Returned(true) && balance == old(balance) - MonthlyPayment() &&
                paymentsMade == old(paymentsMade) + 1 && missedPayments == old(missedPayments) &&
                totalInterestPaid == old(totalInterestPaid) + balance * MonthlyRate(interestRate) &&
                (isActive <==> balance > 0.0)
    {
      if !isActive {
        return Returned(false);
      }
      var payment := MonthlyPayment();
      match settled
      case RemoveError =>
        r := RemoveError;
      case Returned(true) =>
        balance := balance - payment;
        paymentsMade := paymentsMade + 1;
        var interestPortion := balance * MonthlyRate(interestRate);
        totalInterestPaid := totalInterestPaid + interestPortion;
        if balance <= 0.0 {
          isActive := false;
        }
        r := Returned(true);
      case Returned(false) =>
        missedPayments := missedPayments + 1;
        r := Returned(false);
    }
  }

  /** With a non-negative debt-to-income ratio and a credit score in [300, 850],
      the risk score lies in [0, 1]. */
  lemma RiskScoreInUnitInterval(l: Loan, dti: real, creditScore: int)
    requires dti >= 0.0 && 300 <= creditScore <= 850
    ensures 0.0 <= l.RiskScore(dti, creditScore) <= 1.0
  {
  }
}
