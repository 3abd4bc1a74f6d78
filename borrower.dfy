/** A borrower's credit bookkeeping and the rule-based side of its loan decisions:
    payment history and success rate, debt-to-income ratio, affordability,
    applying for, paying and recovering loans, the accept veto around the learned
    policy's choice, and the reward window and replay-memory bookkeeping of a
    training update. Random draws, the epsilon schedule and the network's choice
    are parameters. */
module Borrowers {
  import opened Loans
  import opened Replay

  const MinCreditScore := 300
  const MaxCreditScore := 850
  const DefaultCreditScore := 600
  const DefaultIncome := 55000
  /** Capacity of the replay memory. */
  const MemoryCapacity := 50000
  /** Experiences needed before a training step runs. */
  const BatchSize := 128
  /** Length of the trailing payment window and of the reward window. */
  const Window := 100
  /** Debt-to-income ratio below which a borrower may borrow. */
  const BorrowLimit := 0.6
  /** Credit-score points for paying a loan off. */
  const PayoffBonus := 10

  // ---------------------------------------------------------------------------
  // Lists of loans

  /** The first position of `x` in `s`. */
  function IndexOf<T(==)>(s: seq<T>, x: T): (i: nat)
    requires x in s
    ensures i < |s| && s[i] == x && x !in s[..i]
  {
    if s[0] == x then 0
    else
      var j := IndexOf(s[1..], x);
      assert s[..j + 1] == [s[0]] + s[1..][..j];
      j + 1
  }

  /** `list.remove(x)` on a list that holds `x` drops its first occurrence; the
      model's callers decide what happens when `x` is absent, and then the list
      is returned as it was. */
  function RemoveFirst<T(==)>(s: seq<T>, x: T): (r: seq<T>)
    ensures x !in s ==> r == s
    ensures x in s ==> |r| == |s| - 1 && multiset(r) == multiset(s) - multiset{x}
    ensures x in s ==> r[..IndexOf(s, x)] == s[..IndexOf(s, x)]
    ensures x in s ==> r[IndexOf(s, x)..] == s[IndexOf(s, x) + 1..]
  {
    if x in s then
      var i := IndexOf(s, x);
      assert s == s[..i] + [x] + s[i + 1..];
      s[..i] + s[i + 1..]
    else s
  }

  /** Every loan's monthly payment can be computed. */
  predicate AllPayable(loans: seq<Loan>)
  {
    forall l :: l in loans ==> l.Payable()
  }

  /** No loan has a negative monthly payment. */
  predicate NoNegativePayment(loans: seq<Loan>)
    requires AllPayable(loans)
  {
    forall l :: l in loans ==> l.MonthlyPayment() >= 0.0
  }

  /** The sum of the monthly payments of `loans`. */
  function TotalPayments(loans: seq<Loan>): real
    requires AllPayable(loans)
  {
    if loans == [] then 0.0 else loans[0].MonthlyPayment() + TotalPayments(loans[1..])
  }

  lemma {:induction false} TotalPaymentsAppend(loans: seq<Loan>, l: Loan)
    requires AllPayable(loans) && l.Payable()
    ensures AllPayable(loans + [l])
    ensures TotalPayments(loans + [l]) == TotalPayments(loans) + l.MonthlyPayment()
  {
    if loans == [] {
      assert [] + [l] == [l];
    } else {
      assert (loans + [l])[1..] == loans[1..] + [l];
      TotalPaymentsAppend(loans[1..], l);
    }
  }

  /** A sum of payments none of which is negative is not negative. */
  lemma {:induction false} TotalPaymentsNonNegative(loans: seq<Loan>)
    requires AllPayable(loans) && NoNegativePayment(loans)
    ensures TotalPayments(loans) >= 0.0
  {
    if loans != [] {
      TotalPaymentsNonNegative(loans[1..]);
    }
  }

  // ---------------------------------------------------------------------------
  // Ratios

  /** Monthly loan payments over monthly income; 0 when there is no income. */
  function DebtToIncome(loans: seq<Loan>, income: int): (r: real)
    requires income > 0 ==> AllPayable(loans)
    ensures income <= 0 ==> r == 0.0
    ensures income > 0 ==> r * (income as real / 12.0) == TotalPayments(loans)
  {
    if income > 0 then
      QuotientTimes(TotalPayments(loans), income as real / 12.0);
      TotalPayments(loans) / (income as real / 12.0)
    else 0.0
  }

  lemma QuotientTimes(a: real, d: real)
    requires d != 0.0
    ensures (a / d) * d == a
  {
  }

  /** With no loan of negative payment, the ratio is never negative. */
  lemma DebtToIncomeNonNegative(loans: seq<Loan>, income: int)
    requires income > 0 ==> AllPayable(loans) && NoNegativePayment(loans)
    ensures DebtToIncome(loans, income) >= 0.0
  {
    if income > 0 {
      TotalPaymentsNonNegative(loans);
      QuotientSign(DebtToIncome(loans, income), income as real / 12.0);
    }
  }

  /** Taking on a loan raises the ratio by that loan's payment over monthly income. */
  lemma DebtToIncomeAfterLoan(loans: seq<Loan>, l: Loan, income: int)
    requires AllPayable(loans) && l.Payable()
    ensures AllPayable(loans + [l])
    ensures DebtToIncome(loans + [l], income)
         == DebtToIncome(loans, income) + (if income > 0 then l.MonthlyPayment() / (income as real / 12.0) else 0.0)
  {
    TotalPaymentsAppend(loans, l);
    if income > 0 {
      DivideSum(TotalPayments(loans), l.MonthlyPayment(), income as real / 12.0);
    }
  }

  lemma DivideSum(a: real, b: real, c: real)
    requires c != 0.0
    ensures (a + b) / c == a / c + b / c
  {
  }

  /** `can_borrow` (and `not_defaulted`, the same test): the ratio is below 0.6,
      that is, the monthly payments are under 60% of the monthly income. */
  function CanBorrow(loans: seq<Loan>, income: int): (ok: bool)
    requires income > 0 ==> AllPayable(loans)
    ensures ok <==> income <= 0 || TotalPayments(loans) < BorrowLimit * (income as real / 12.0)
  {
    if income > 0 then
      BelowLimit(DebtToIncome(loans, income), income as real / 12.0, TotalPayments(loans));
      DebtToIncome(loans, income) < BorrowLimit
    else
      DebtToIncome(loans, income) < BorrowLimit
  }

  /** A ratio `r = total / monthly` is below the limit exactly when `total` is
      below the limit's share of `monthly`. */
  lemma BelowLimit(r: real, monthly: real, total: real)
    requires monthly > 0.0 && r * monthly == total
    ensures r < BorrowLimit <==> total < BorrowLimit * monthly
  {
    assert (BorrowLimit - r) * monthly == BorrowLimit * monthly - total;
    QuotientSign(BorrowLimit - r, monthly);
  }

  /** Monthly income less all monthly loan payments and a twelfth of the debt. */
  function Disposable(loans: seq<Loan>, income: int, debt: real): real
    requires AllPayable(loans)
  {
    income as real / 12.0 - TotalPayments(loans) - debt / 12.0
  }

  /** How much of `loan`'s payment the disposable income covers, clamped to [0, 1]. */
  function Affordability(loan: Loan, loans: seq<Loan>, income: int, debt: real): (a: real)
    requires loan.Payable() && AllPayable(loans)
    ensures 0.0 <= a <= 1.0
    ensures loan.MonthlyPayment() <= 0.0 ==> a == 0.0
    ensures loan.MonthlyPayment() > 0.0 ==>
              (a == 1.0 <==> Disposable(loans, income, debt) >= loan.MonthlyPayment()) &&
              (a == 0.0 <==> Disposable(loans, income, debt) <= 0.0) &&
              (0.0 < a < 1.0 ==> a * loan.MonthlyPayment() == Disposable(loans, income, debt))
  {
    var payment := loan.MonthlyPayment();
    var disposable := Disposable(loans, income, debt);
    if payment <= 0.0 then 0.0
    else
      var ratio := disposable / payment;
      assert ratio * payment == disposable;
      QuotientSign(ratio, payment);
      QuotientSign(ratio - 1.0, payment);
      if ratio > 1.0 then 1.0 else if ratio < 0.0 then 0.0 else ratio
  }

  /** The credit score moved into [300, 850]. */
  function ClampScore(score: int): (s: int)
    ensures MinCreditScore <= s <= MaxCreditScore
    ensures MinCreditScore <= score <= MaxCreditScore ==> s == score
    ensures score < MinCreditScore ==> s == MinCreditScore
    ensures score > MaxCreditScore ==> s == MaxCreditScore
  {
    if score > MaxCreditScore then MaxCreditScore
    else if score < MinCreditScore then MinCreditScore
    else score
  }

  // ---------------------------------------------------------------------------
  // Payment history

  /** Every entry records a failure (0) or a success (1). */
  predicate ZeroOne(s: seq<int>)
  {
    forall i :: 0 <= i < |s| ==> s[i] == 0 || s[i] == 1
  }

  function Sum(s: seq<int>): int
  {
    if s == [] then 0 else s[0] + Sum(s[1..])
  }

  lemma {:induction false} SumOfOutcomes(s: seq<int>)
    requires ZeroOne(s)
    ensures 0 <= Sum(s) <= |s|
  {
    if s != [] {
      SumOfOutcomes(s[1..]);
    }
  }

  /** The share of successes among the last 100 payments; 1.0 with no history. */
  function SuccessRate(history: seq<int>): (rate: real)
    ensures history == [] ==> rate == 1.0
    ensures history != [] ==>
              rate * |Last(history, Window)| as real == Sum(Last(history, Window)) as real
  {
    if history == [] then 1.0
    else
      var recent := Last(history, Window);
      Sum(recent) as real / |recent| as real
  }

  /** A history of 0/1 outcomes gives a rate in [0, 1]. */
  lemma SuccessRateInUnitInterval(history: seq<int>)
    ensures ZeroOne(history) ==> 0.0 <= SuccessRate(history) <= 1.0
  {
    if ZeroOne(history) && history != [] {
      var recent := Last(history, Window);
      assert ZeroOne(recent) by {
        forall i | 0 <= i < |recent|
          ensures recent[i] == 0 || recent[i] == 1
        {
          assert recent[i] == history[|history| - |recent| + i];
        }
      }
      SumOfOutcomes(recent);
      RatioInUnit(SuccessRate(history), |recent|, Sum(recent));
    }
  }

  /** A ratio `rate = sum / n` with `0 <= sum <= n` lies in [0, 1]. */
  lemma RatioInUnit(rate: real, n: int, sum: int)
    requires 0 <= sum <= n && 0 < n
    requires rate * n as real == sum as real
    ensures 0.0 <= rate <= 1.0
  {
    var d := n as real;
    QuotientSign(rate, d);
    assert (1.0 - rate) * d == d - sum as real;
    QuotientSign(1.0 - rate, d);
  }

  // ---------------------------------------------------------------------------
  // Rewards

  function SumReals(s: seq<real>): real
  {
    if s == [] then 0.0 else s[0] + SumReals(s[1..])
  }

  /** The average of a non-empty window of rewards. */
  function Mean(s: seq<real>): (m: real)
    requires s != []
    ensures m * |s| as real == SumReals(s)
  {
    SumReals(s) / |s| as real
  }

  // ---------------------------------------------------------------------------
  // Decisions

  /** The action the epsilon-greedy policy picks: the network's choice when the
      uniform `sample` exceeds the exploration threshold, else the random one. */
  function ChosenAction(sample: real, epsThreshold: real, greedyAction: int, randomAction: int): (a: int)
    ensures sample > epsThreshold ==> a == greedyAction
    ensures sample <= epsThreshold ==> a == randomAction
  {
    if sample > epsThreshold then greedyAction else randomAction
  }

  /** Whether a chosen "accept" survives the rule-based veto. */
  function Accepts(affordability: real, riskFactor: real, literacyFactor: real, successRate: real): (accept: bool)
    ensures affordability > 0.7 ==> accept
    ensures affordability <= 0.5 ==> !accept
    ensures accept && affordability <= 0.7 ==>
              riskFactor > 0.5 && literacyFactor > 0.5 && successRate > 0.7
    ensures affordability > 0.5 && riskFactor > 0.5 && literacyFactor > 0.5 && successRate > 0.7 ==> accept
  {
    affordability > 0.7 ||
    (affordability > 0.5 && riskFactor > 0.5 && literacyFactor > 0.5 && successRate > 0.7)
  }

  /** The veto never turns a more affordable loan into a rejection. */
  lemma AcceptsMonotone(a1: real, a2: real, riskFactor: real, literacyFactor: real, successRate: real)
    requires a1 <= a2 && Accepts(a1, riskFactor, literacyFactor, successRate)
    ensures Accepts(a2, riskFactor, literacyFactor, successRate)
  {
  }

  // ---------------------------------------------------------------------------
  // State encoding and experiences

  datatype MarketState = MarketState(economicCycle: int, marketLiquidity: real)

  /** A loan offer: interest rate, amount and term. */
  datatype Offer = Offer(interestRate: real, amount: real, term: int)

  datatype Experience = Experience(state: seq<real>, action: int, reward: real, nextState: seq<real>)

  function OfferOf(loan: Loan): Offer
  {
    Offer(loan.interestRate, loan.amount, loan.term)
  }

  class Borrower {
    const id: int
    var creditScore: int
    const income: int
    var debt: real
    var loans: seq<Loan>
    const riskTolerance: real
    const financialLiteracy: real
    var annualIncome: real
    var loanHistory: seq<int>
    var paymentHistory: seq<int>
    const memory: ReplayMemory<Experience>
    var stepsDone: nat
    var avgReward: real
    var rewardHistory: seq<real>

    ghost predicate Valid()
      reads this, memory
    {
      memory.Valid() && memory.capacity == MemoryCapacity &&
      |rewardHistory| <= Window &&
      ZeroOne(loanHistory) && ZeroOne(paymentHistory)
    }

    /** The bookkeeping of a new borrower: no loans, no history, nothing learnt. */
    ghost predicate Initial()
      reads this, memory
    {
      loans == [] && annualIncome == income as real &&
      loanHistory == [] && paymentHistory == [] &&
      stepsDone == 0 && avgReward == 0.0 && rewardHistory == [] && memory.memory == []
    }

    /** A borrower without supplied values: score 600, income 55000, no debt.
        The two draws for risk tolerance and financial literacy are parameters. */
    constructor (id: int, riskTolerance: real, financialLiteracy: real)
      ensures Valid() && Initial() && fresh(memory)
      ensures this.id == id && creditScore == DefaultCreditScore && income == DefaultIncome && debt == 0.0
      ensures this.riskTolerance == riskTolerance && this.financialLiteracy == financialLiteracy
    {
      this.id := id;
      creditScore := DefaultCreditScore;
      income := DefaultIncome;
      debt := 0.0;
      loans := [];
      this.riskTolerance := riskTolerance;
      this.financialLiteracy := financialLiteracy;
      annualIncome := DefaultIncome as real;
      loanHistory := [];
      paymentHistory := [];
      memory := new ReplayMemory(MemoryCapacity);
      stepsDone := 0;
      avgReward := 0.0;
      rewardHistory := [];
    }

    /** A borrower built from supplied best values (each a supplied value or its
        random default, already truncated to an integer). */
    constructor WithValues(id: int, creditScore: int, income: int, debt: int,
                           riskTolerance: real, financialLiteracy: real)
      ensures Valid() && Initial() && fresh(memory)
      ensures this.id == id && this.creditScore == creditScore && this.income == income
      ensures this.debt == debt as real
      ensures this.riskTolerance == riskTolerance && this.financialLiteracy == financialLiteracy
    {
      this.id := id;
      this.creditScore := creditScore;
      this.income := income;
      this.debt := debt as real;
      loans := [];
      this.riskTolerance := riskTolerance;
      this.financialLiteracy := financialLiteracy;
      annualIncome := income as real;
      loanHistory := [];
      paymentHistory := [];
      memory := new ReplayMemory(MemoryCapacity);
      stepsDone := 0;
      avgReward := 0.0;
      rewardHistory := [];
    }

    /** The 8 features the network sees: normalized credit score, debt-to-income
        ratio, payment success rate, the offer's rate, amount and term, and the
        market's cycle and liquidity. */
    function StateFeatures(market: MarketState, offer: Offer): (f: seq<real>)
      reads this`creditScore, this`loans, this`paymentHistory
      requires income > 0 ==> AllPayable(loans)
      ensures |f| == 8
      ensures f[1] == DebtToIncome(loans, income) && f[2] == SuccessRate(paymentHistory)
      ensures ZeroOne(paymentHistory) ==> 0.0 <= f[2] <= 1.0
      ensures MinCreditScore <= creditScore <= MaxCreditScore ==> 0.0 < f[0] <= 1.0
    {
      SuccessRateInUnitInterval(paymentHistory);
      [creditScore as real / 850.0,
       DebtToIncome(loans, income),
       SuccessRate(paymentHistory),
       offer.interestRate,
       offer.amount / 100000.0,
       offer.term as real / 36.0,
       market.economicCycle as real,
       market.marketLiquidity]
    }

    /** Whether the monthly income, rounded down to a whole amount, covers the
        payment. The rounding costs at most 11 a year: when it holds, twelve
        payments fit in the income, and it holds whenever twelve payments fit in
        the income less 11. */
    function CanPay(loan: Loan): (ok: bool)
      requires loan.Payable()
      ensures ok ==> loan.MonthlyPayment() * 12.0 <= income as real
      ensures loan.MonthlyPayment() * 12.0 <= (income - 11) as real ==> ok
    {
      (income / 12) as real >= loan.MonthlyPayment()
    }

    method ImproveCreditScore(points: int)
      modifies this`creditScore
      ensures creditScore == ClampScore(old(creditScore) + points)
    {
      creditScore := ClampScore(creditScore + points);
    }

    /** Default handling: drop the loan if held (no error otherwise), write off
        half its balance from the debt without going below 0, record a default. */
    method RecoverLoan(loan: Loan)
      requires Valid()
      modifies this`loans, this`debt, this`loanHistory
      ensures Valid()
      ensures loans == RemoveFirst(old(loans), loan)
      ensures debt >= 0.0
      ensures old(debt) - loan.balance * 0.5 > 0.0 ==> debt == old(debt) - loan.balance * 0.5
      ensures old(debt) - loan.balance * 0.5 <= 0.0 ==> debt == 0.0
      ensures loanHistory == old(loanHistory) + [0]
    {
      loans := RemoveFirst(loans, loan);
      var reduced := debt - loan.balance * 0.5;
      debt := if reduced > 0.0 then reduced else 0.0;
      loanHistory := loanHistory + [0];
    }

    /** Takes the loan exactly when the ratio before it is below 0.6. */
    method ApplyForLoan(loan: Loan) returns (ok: bool)
      requires Valid() && (income > 0 ==> AllPayable(loans))
      modifies this`loans, this`debt, this`loanHistory
      ensures Valid()
      ensures ok == CanBorrow(old(loans), income)
      ensures ok ==> loans == old(loans) + [loan] && debt == old(debt) + loan.balance &&
                     loanHistory == old(loanHistory) + [1]
      ensures !ok ==> loans == old(loans) && debt == old(debt) && loanHistory == old(loanHistory)
    {
      if CanBorrow(loans, income) {
        loans := loans + [loan];
        debt := debt + loan.balance;
        loanHistory := loanHistory + [1];
        return true;
      }
      return false;
    }

    /** One monthly payment on `loan`. When the income covers it, the payment
        comes off the annual income and the loan's balance; a loan paid down to
        0 or below is removed (raising ValueError when it is not held, after
        those two changes) and earns 10 credit points. */
    method MakePayment(loan: Loan) returns (r: Outcome)
      requires Valid() && loan.Payable()
      modifies this`annualIncome, this`loans, this`creditScore, this`paymentHistory, loan`balance
      ensures Valid()
      ensures !CanPay(loan) ==>
                r == Returned(false) && paymentHistory == old(paymentHistory) + [0] &&
                loan.balance == old(loan.balance) && annualIncome == old(annualIncome) &&
                loans == old(loans) && creditScore == old(creditScore)
      ensures CanPay(loan) ==>
                annualIncome == old(annualIncome) - loan.MonthlyPayment() &&
                loan.balance == old(loan.balance) - loan.MonthlyPayment()
      ensures CanPay(loan) && loan.balance > 0.0 ==>
                r == Returned(true) && paymentHistory == old(paymentHistory) + [1] &&
                loans == old(loans) && creditScore == old(creditScore)
      ensures CanPay(loan) && loan.balance <= 0.0 && loan in old(loans) ==>
                r == Returned(true) && paymentHistory == old(paymentHistory) + [1] &&
                loans == RemoveFirst(old(loans), loan) &&
                creditScore == ClampScore(old(creditScore) + PayoffBonus)
      ensures CanPay(loan) && loan.balance <= 0.0 && loan !in old(loans) ==>
                r == RemoveError && paymentHistory == old(paymentHistory) &&
                loans == old(loans) && creditScore == old(creditScore)
    {
      var payment := loan.MonthlyPayment();
      if CanPay(loan) {
        annualIncome := annualIncome - payment;
        loan.balance := loan.balance - payment;
        if loan.balance <= 0.0 {
          if loan !in loans {
            return RemoveError;
          }
          loans := RemoveFirst(loans, loan);
          ImproveCreditScore(PayoffBonus);
        }
        paymentHistory := paymentHistory + [1];
        return Returned(true);
      }
      paymentHistory := paymentHistory + [0];
      return Returned(false);
    }

    /** Accept or reject an offer. A missing offer is rejected before anything
        else; otherwise the step counter advances, the policy picks an action
        (the network's choice on the encoded state, or a random one), and a
        chosen "accept" must survive the affordability veto. The uniform draws,
        the exploration threshold and the network's choice are parameters. */
    method EvaluateLoan(loan: Loan?, market: MarketState, sample: real, epsThreshold: real,
                        greedyAction: int, randomAction: int, riskDraw: real, literacyDraw: real)
      returns (accept: bool)
      requires loan != null && income > 0 ==> AllPayable(loans)
      requires loan != null && ChosenAction(sample, epsThreshold, greedyAction, randomAction) == 1 ==>
                 loan.Payable() && AllPayable(loans)
      modifies this`stepsDone
      ensures loan == null ==> !accept && stepsDone == old(stepsDone)
      ensures loan != null ==> stepsDone == old(stepsDone) + 1
      ensures accept ==> loan != null && ChosenAction(sample, epsThreshold, greedyAction, randomAction) == 1
      ensures loan != null && ChosenAction(sample, epsThreshold, greedyAction, randomAction) == 1 ==>
                accept == Accepts(Affordability(loan, loans, income, debt),
                                  riskDraw * riskTolerance, literacyDraw * financialLiteracy,
                                  SuccessRate(paymentHistory))
    {
      if loan == null {
        return false;
      }
      stepsDone := stepsDone + 1;
      // The network is evaluated on this state; its choice is `greedyAction`.
      var state := StateFeatures(market, OfferOf(loan));
      var action := ChosenAction(sample, epsThreshold, greedyAction, randomAction);
      accept := action == 1;
      if accept {
        var affordability := Affordability(loan, loans, income, debt);
        var riskFactor := riskDraw * riskTolerance;
        var literacyFactor := literacyDraw * financialLiteracy;
        var paymentHistoryFactor := SuccessRate(paymentHistory);
        accept := Accepts(affordability, riskFactor, literacyFactor, paymentHistoryFactor);
      }
    }

    /** The bookkeeping of a training update: the reward enters the 100-reward
        window and the average is recomputed, the experience enters the replay
        memory, and `trains` tells whether the memory now holds a full batch (a
        training step follows only then). */
    method UpdateState(market: MarketState, action: int, reward: real, nextMarket: MarketState, offer: Offer)
      returns (trains: bool)
      requires Valid() && (income > 0 ==> AllPayable(loans))
      modifies this`rewardHistory, this`avgReward, memory
      ensures Valid()
      ensures rewardHistory == BoundedAppend(old(rewardHistory), reward, Window)
      ensures avgReward == Mean(rewardHistory)
      ensures memory.memory == BoundedAppend(old(memory.memory),
                old(Experience(StateFeatures(market, offer), action, reward, StateFeatures(nextMarket, offer))),
                MemoryCapacity)
      ensures trains <==> |memory.memory| >= BatchSize
    {
      var experience := Experience(StateFeatures(market, offer), action, reward, StateFeatures(nextMarket, offer));
      rewardHistory := BoundedAppend(rewardHistory, reward, Window);
      avgReward := Mean(rewardHistory);
      memory.Push(experience);
      trains := memory.Length() >= BatchSize;
    }

    /** Clears loans, debt, histories and reward statistics; the credit score,
        annual income, step counter and replay memory are kept. */
    method Reset()
      requires Valid()
      modifies this`loans, this`debt, this`loanHistory, this`paymentHistory, this`rewardHistory, this`avgReward
      ensures Valid()
      ensures loans == [] && debt == 0.0 && loanHistory == [] && paymentHistory == []
      ensures rewardHistory == [] && avgReward == 0.0
    {
      loans := [];
      debt := 0.0;
      loanHistory := [];
      paymentHistory := [];
      rewardHistory := [];
      avgReward := 0.0;
    }
  }

  /** `Loan.make_payment` with its call into the borrower: an active loan asks
      the borrower to pay, and on success its balance falls a second time by the
      monthly payment (the borrower already lowered it once). */
  method LoanMakePayment(loan: Loan, borrower: Borrower) returns (r: Outcome)
    requires borrower.Valid() && (loan.isActive ==> loan.Payable())
    modifies loan, borrower`annualIncome, borrower`loans, borrower`creditScore, borrower`paymentHistory
    ensures borrower.Valid()
    ensures !old(loan.isActive) ==> r == Returned(false) && unchanged(loan) && unchanged(borrower)
    ensures old(loan.isActive) && !borrower.CanPay(loan) ==>
              r == Returned(false) && loan.missedPayments == old(loan.missedPayments) + 1 &&
              loan.balance == old(loan.balance) && loan.paymentsMade == old(loan.paymentsMade) &&
              loan.totalInterestPaid == old(loan.totalInterestPaid) && loan.isActive &&
              borrower.paymentHistory == old(borrower.paymentHistory) + [0] &&
              borrower.annualIncome == old(borrower.annualIncome) &&
              borrower.loans == old(borrower.loans) && borrower.creditScore == old(borrower.creditScore)
    ensures old(loan.isActive) && borrower.CanPay(loan) ==>
              borrower.annualIncome == old(borrower.annualIncome) - loan.MonthlyPayment()
    ensures old(loan.isActive) && borrower.CanPay(loan) &&
            old(loan.balance) - loan.MonthlyPayment() <= 0.0 && loan !in old(borrower.loans) ==>
              r == RemoveError && loan.balance == old(loan.balance) - loan.MonthlyPayment() &&
              loan.paymentsMade == old(loan.paymentsMade) && loan.missedPayments == old(loan.missedPayments) &&
              loan.totalInterestPaid == old(loan.totalInterestPaid) && loan.isActive &&
              borrower.paymentHistory == old(borrower.paymentHistory) &&
              borrower.loans == old(borrower.loans) && borrower.creditScore == old(borrower.creditScore)
    ensures old(loan.isActive) && borrower.CanPay(loan) &&
            (old(loan.balance) - loan.MonthlyPayment() > 0.0 || loan in old(borrower.loans)) ==>
              r == Returned(true) &&
              loan.balance == old(loan.balance) - 2.0 * loan.MonthlyPayment() &&
              loan.paymentsMade == old(loan.paymentsMade) + 1 &&
              loan.missedPayments == old(loan.missedPayments) &&
              loan.totalInterestPaid == old(loan.totalInterestPaid) + loan.balance * MonthlyRate(loan.interestRate) &&
              (loan.isActive <==> loan.balance > 0.0) &&
              borrower.paymentHistory == old(borrower.paymentHistory) + [1]
    ensures old(loan.isActive) && borrower.CanPay(loan) &&
            old(loan.balance) - loan.MonthlyPayment() > 0.0 ==>
              borrower.loans == old(borrower.loans) && borrower.creditScore == old(borrower.creditScore)
    ensures old(loan.isActive) && borrower.CanPay(loan) &&
            old(loan.balance) - loan.MonthlyPayment() <= 0.0 && loan in old(borrower.loans) ==>
              borrower.loans == RemoveFirst(old(borrower.loans), loan) &&
              borrower.creditScore == ClampScore(old(borrower.creditScore) + PayoffBonus)
  {
    if !loan.isActive {
      return Returned(false);
    }
    var settled := borrower.MakePayment(loan);
    r := loan.MakePayment(settled);
  }
}
