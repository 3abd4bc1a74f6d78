# Equiloan credit bookkeeping, modelled in Dafny

This project models the credit bookkeeping of the Equiloan loan-market simulation: the
part that surrounds each borrower's learning agent, not the agent. It has three pieces.

- **Replay memory** (`replay_memory.dfy`, module `Replay`). This is the borrower's bounded
  experience buffer, a `deque(maxlen = capacity)`. `Push` appends a new experience and
  evicts the oldest one once the buffer is full. `Sample` takes `n` experiences from `n`
  distinct positions. The same trailing-window notion, `Last`, also gives the
  100-payment window of the success rate and the 100-reward window.
- **Loan** (`loan.py`, modelled in `loan.dfy`, module `Loans`). A loan's monthly payment
  is the annuity `P·r·(1+r)^n / ((1+r)^n − 1)` with `r = rate/12`. The module proves
  three things about it:
  - this payment retires the principal over the term of a standard amortization
    schedule;
  - with a positive rate and a term of at least one month it exists, and it is
    non-negative for a non-negative amount;
  - under the same conditions the total interest is non-negative.

  The `Loan` class keeps the payment state that `make_payment` and `reset` update. Its
  default, risk, value and expected-return measures take the borrower's debt-to-income
  ratio and credit score as arguments.
- **Borrower** (`borrower.py`, modelled in `borrower.dfy`, module `Borrowers`). This covers:
  - the payment success rate;
  - the debt-to-income ratio and affordability;
  - credit-score clamping;
  - the `Borrower` class, whose methods apply for, pay and recover loans and reset the
    borrower;
  - the accept/reject decision of `evaluate_loan`, with the affordability veto;
  - the reward-window and replay-memory bookkeeping of `update_state`.

  `LoanMakePayment` composes `Loan.make_payment` with the borrower's `make_payment` it
  calls. On a successful payment the loan's balance falls twice by the monthly payment:
  once in the borrower (`borrower.py:212`) and once in the loan (`loan.py:31`). The model
  keeps this behaviour.

Money, rates and ratios are exact `real`s. `income` is an `int`, and `income // 12` is
Dafny's `/` on `int` with a positive divisor, which is floor division as in Python. The
draws of `evaluate_loan` (the exploration sample, the random action and the two veto
draws), the exploration threshold and the network's choice of action are parameters of
`EvaluateLoan`. The risk-tolerance and literacy draws of a new borrower are parameters of
the `Borrower` constructors.

Three facts about the source shape the model:
- Affordability subtracts the monthly payments of every loan the borrower holds
  (`borrower.py:188`), the offered loan's own payment aside.
- The debt-to-income ratio is 0 whenever the income is ≤ 0, whatever the loans
  (`borrower.py:124`). `DebtToIncomeNonNegative` gives a sufficient condition for a
  non-negative ratio: no income, or no loan with a negative payment.
  `RiskScoreInUnitInterval` gives one for a risk score in [0, 1]: a non-negative ratio
  and a credit score in [300, 850].
- Paying a loan compares the monthly income *rounded down* (`income // 12`) with the
  payment (`borrower.py:210`, `223`).

## Model

| member | source | states |
|---|---|---|
| `Replay.Last` | loan_market_simulation/borrower.py:103-106 | the window has `min(len, n)` elements and they are the last ones of the sequence, in order |
| `Replay.BoundedAppend` | loan_market_simulation/borrower.py:20-23 | after an append the length is `min(old + 1, capacity)` and never exceeds the capacity; for a positive capacity the new experience is last; below capacity nothing is lost; at a positive capacity that is full, exactly the oldest experience is evicted |
| `Replay.PushAllKeepsNewest` | loan_market_simulation/borrower.py:20-23 | any sequence of pushes leaves exactly the newest `capacity` experiences, in insertion order |
| `Replay.FifoEviction` | loan_market_simulation/borrower.py:20-23 | `capacity + 1` pushes into an empty buffer leave `capacity` experiences, all but the first; a first experience that is not repeated is gone |
| `Replay.ReplayMemory.constructor` | loan_market_simulation/borrower.py:19-20 | a new memory is empty and has the given capacity |
| `Replay.ReplayMemory.Push` | loan_market_simulation/borrower.py:22-23 | the new contents are the bounded append of the experience, and the length bound is kept |
| `Replay.ReplayMemory.Length` | loan_market_simulation/borrower.py:28-29 | the length is the number of stored experiences and at most the capacity |
| `Replay.ReplayMemory.Sample` | loan_market_simulation/borrower.py:25-26 | a request for `n <= len` returns exactly `n` experiences taken from `n` pairwise distinct positions, and the memory is unchanged; `n > len` is excluded |
| `Loans.Annuity` | loan_market_simulation/loan.py:23-25 | the payment `m` solves `m·((1+r)^n − 1) = P·r·(1+r)^n` with `r = rate/12`; it exists only when `(1+r)^n ≠ 1` |
| `Loans.ZeroRateOrTermUndefined` | loan_market_simulation/loan.py:23-25 | a zero rate or a zero term makes the payment formula divide by zero |
| `Loans.PositiveRatePayment` | loan_market_simulation/loan.py:23-25 | with a positive rate and term the payment exists; it is non-negative for a non-negative amount and positive for a positive one |
| `Loans.AnnuityRetiresPrincipal` | loan_market_simulation/loan.py:23-25 | paying the annuity every month while interest accrues at `rate/12` leaves a balance of exactly 0 after `term` months |
| `Loans.TotalPaidCoversPrincipal` | loan_market_simulation/loan.py:73-74 | with a positive rate, a term of at least one month and a non-negative amount, `monthly_payment·term >= amount` |
| `Loans.Loan.constructor` | loan_market_simulation/loan.py:4-14 | the loan keeps its lender, borrower, amount, rate and term, with `balance == amount`, no payments made or missed, active, and no interest paid |
| `Loans.Loan.Reset` | loan_market_simulation/loan.py:16-21 | the same issued state again: `balance == amount`, counters 0, active, no interest paid |
| `Loans.Loan.MonthlyPayment` | loan_market_simulation/loan.py:23-25 | the loan's annuity payment, which retires its amount over its term |
| `Loans.Loan.IsDefaulted` | loan_market_simulation/loan.py:43-44 | three or more missed payments default the loan whatever the debt-to-income ratio; a ratio above 0.6 defaults it too; nothing else does |
| `Loans.Loan.RiskFactors` | loan_market_simulation/loan.py:57-62 | for a credit score in [300, 850] the weighted sum lies between `0.3·dti + term/300` and that plus 0.5: the missed-payment share is in [0, 1) and the score factor in [0, 1] |
| `Loans.Loan.RiskScore` | loan_market_simulation/loan.py:53-63 | a defaulted loan scores exactly 1.0; the score never exceeds 1.0; otherwise it is the weighted sum, capped at 1.0 |
| `Loans.RiskScoreInUnitInterval` | loan_market_simulation/loan.py:53-63 | a non-negative ratio and a credit score in [300, 850] are enough for the risk score to lie in [0, 1] |
| `Loans.Loan.CurrentValue` | loan_market_simulation/loan.py:46-51 | a defaulted loan is worth half its balance, which lies between 0 and the balance; otherwise it is worth the payments still due, which for an unpaid loan is the amount plus the total interest |
| `Loans.Loan.ExpectedReturn` | loan_market_simulation/loan.py:65-71 | a defaulted loan returns minus its current value; otherwise the current value discounted by the risk score, less the change of the balance from the amount |
| `Loans.Loan.TotalInterest` | loan_market_simulation/loan.py:73-74 | the total interest plus the amount is all payments over the term; with a positive rate and term and a non-negative amount it is non-negative |
| `Loans.Loan.MakePayment` | loan_market_simulation/loan.py:27-41 | given the borrower's result: an inactive loan returns False and changes nothing; an exception from the borrower leaves the loan's fields as they are; a missed payment adds exactly 1 to `missed_payments` and leaves the balance and `payments_made` alone; a paid one lowers the balance by the monthly payment, adds 1 to `payments_made`, accrues the post-payment balance × rate/12 as interest, and deactivates the loan exactly when the balance is ≤ 0 |
| `Borrowers.LoanMakePayment` | loan_market_simulation/loan.py:27-41 | the whole payment cycle: inactive changes nothing; when the borrower cannot pay, one missed payment and a 0 in the payment history, and the balance, interest paid, annual income, held loans and score stay as they were; a successful payment lowers the balance by twice the monthly payment, counts the payment, records a 1, and deactivates the loan exactly when the balance is ≤ 0; the borrower drops the loan and gains 10 clamped points only when its first decrement already reached ≤ 0, so a loan that only the second decrement closes stays in the borrower's list; a loan paid off but not held by the borrower ends in the ValueError after one decrement, with the counters, interest, histories and score unchanged |
| `Borrowers.RemoveFirst` | loan_market_simulation/borrower.py:110-113 | removing a held loan drops exactly one occurrence, the first: the elements before it and the elements after it keep their order, and the multiset loses one copy; removing an absent loan changes nothing |
| `Borrowers.TotalPaymentsAppend` | loan_market_simulation/borrower.py:188 | the payment sum of `debt_to_income_ratio` and `calculate_affordability` grows by exactly a new loan's payment when the loan is appended |
| `Borrowers.TotalPaymentsNonNegative` | loan_market_simulation/borrower.py:124 | the payment sum is ≥ 0 when no loan's payment is negative |
| `Borrowers.DebtToIncome` | loan_market_simulation/borrower.py:122-124 | the ratio is 0 whenever the income is ≤ 0, for any loans, including ones whose payment cannot be computed; otherwise the ratio times the monthly income is the sum of the monthly payments |
| `Borrowers.DebtToIncomeNonNegative` | loan_market_simulation/borrower.py:122-124 | with no income, or with no negative monthly payment, the ratio is ≥ 0 |
| `Borrowers.DebtToIncomeAfterLoan` | loan_market_simulation/borrower.py:200-202 | adding a loan raises the ratio by that loan's payment over the monthly income, and by nothing without income |
| `Borrowers.CanBorrow` | loan_market_simulation/borrower.py:117-120 | borrowing is allowed exactly when there is no income or the monthly payments are under 60% of the monthly income |
| `Borrowers.Affordability` | loan_market_simulation/borrower.py:185-196 | the result lies in [0, 1]; it is 0 when the loan's payment is ≤ 0; otherwise it is 1 exactly when the disposable income covers the payment, 0 exactly when the disposable income is ≤ 0, and in between it is the disposable income over the payment |
| `Borrowers.ClampScore` | loan_market_simulation/borrower.py:225-227 | the score always lies in [300, 850], is unchanged inside that range, and is 300 below it and 850 above it |
| `Borrowers.SuccessRate` | loan_market_simulation/borrower.py:103-106 | the rate is 1.0 on an empty history; otherwise it is the mean of the last `min(100, len)` outcomes |
| `Borrowers.SuccessRateInUnitInterval` | loan_market_simulation/borrower.py:103-106 | a history of 0/1 outcomes gives a rate in [0, 1] |
| `Borrowers.Mean` | loan_market_simulation/borrower.py:232 | the average times the window length is the window's sum |
| `Borrowers.ChosenAction` | loan_market_simulation/borrower.py:162-167 | the epsilon-greedy choice: the network's action when the sample exceeds the threshold, the random action otherwise |
| `Borrowers.Accepts` | loan_market_simulation/borrower.py:177-181 | affordability above 0.7 always accepts; affordability ≤ 0.5 always rejects; in between, acceptance holds exactly when the risk factor, literacy factor and success rate clear 0.5, 0.5 and 0.7 |
| `Borrowers.AcceptsMonotone` | loan_market_simulation/borrower.py:177-181 | raising the affordability never turns an acceptance into a rejection |
| `Borrowers.Borrower.constructor` | loan_market_simulation/borrower.py:66-101 | a borrower without supplied values has score 600, income 55000 and no debt; it holds no loans or history, its step counter is 0 and its memory is empty with capacity 50000 |
| `Borrowers.Borrower.WithValues` | loan_market_simulation/borrower.py:62-65 | a borrower from supplied values keeps the supplied score, income and debt, with the same empty bookkeeping |
| `Borrowers.Borrower.StateFeatures` | loan_market_simulation/borrower.py:134-145 | the state has 8 features; the second is the debt-to-income ratio; the third is the success rate, in [0, 1] for a 0/1 history; the first is in (0, 1] for a score in [300, 850] |
| `Borrowers.Borrower.CanPay` | loan_market_simulation/borrower.py:221-223 | `can_pay` compares the payment with the monthly income rounded down: when it holds, twelve payments fit in the income, and it always holds when twelve payments fit in the income less 11 |
| `Borrowers.Borrower.ImproveCreditScore` | loan_market_simulation/borrower.py:225-227 | the new score is the old score plus the points, clamped into [300, 850] |
| `Borrowers.Borrower.RecoverLoan` | loan_market_simulation/borrower.py:108-115 | the loan is removed if held, and its absence is not an error; debt becomes `max(0, debt − balance/2)`, so it is ≥ 0; a 0 is appended to the loan history |
| `Borrowers.Borrower.ApplyForLoan` | loan_market_simulation/borrower.py:198-205 | the application succeeds exactly when the ratio before the loan is < 0.6; on success the loan is appended, the debt rises by its balance and a 1 is appended to the loan history; on failure nothing changes |
| `Borrowers.Borrower.MakePayment` | loan_market_simulation/borrower.py:207-219 | succeeds exactly when `income // 12 >= payment`. On failure it appends 0 and changes nothing else. On success the payment comes off the annual income and the balance and a 1 is appended; a balance ≤ 0 also removes the loan and adds 10 clamped points; if that loan is not held, it ends in ValueError after the first two changes |
| `Borrowers.Borrower.EvaluateLoan` | loan_market_simulation/borrower.py:147-183 | a missing offer is rejected and leaves `steps_done` alone; any other call adds exactly 1; a chosen action other than 1 always rejects; a chosen 1 accepts exactly when the veto passes on affordability, the two scaled draws and the success rate |
| `Borrowers.Borrower.UpdateState` | loan_market_simulation/borrower.py:229-241 | the reward enters the 100-reward window; the average is that window's mean; the experience built from both encoded states enters the replay memory; a training step follows exactly when the memory holds at least 128 experiences |
| `Borrowers.Borrower.Reset` | loan_market_simulation/borrower.py:266-272 | loans, debt, both histories, the reward window and the average are cleared; the frame keeps the credit score, annual income, step counter and memory |

## Left out

- The `DQN` network, the Adam optimizer, the Huber loss, gradient clipping and the training step (`borrower.py:39-57`, `84-90`, `243-264`) are left out, and so is `update_target_network` (`borrower.py:274-275`). They are PyTorch calls on floating-point tensors. `UpdateState` stops where a training step would start and reports whether one would run.
- The epsilon schedule (`borrower.py:153-154`) uses `math.exp` on floats. The exploration threshold is a parameter of `EvaluateLoan`.
- All random draws are parameters: the default attribute values (`borrower.py:63-65`), risk tolerance and literacy (`72-73`), the exploration sample (`151`), the random action (`167`) and the veto draws (`173-174`). The network's argmax (`164-165`) is the parameter `greedyAction`.
- `Replay.ReplayMemory.Sample` leaves the chosen positions open. It does not model the uniform distribution of `random.sample`, and the order of its result is arbitrary.
- Tensor and device plumbing in `state_to_tensor` is left out. The state is the 8-element `seq<real>` of `StateFeatures`, and the experience's action and reward are plain values.
- `update_credit_length` and `update_credit` (`borrower.py:277-295`) are left out. They read attributes that are never defined, call `append` on an integer, and use a bitwise `&` as a logical test, so no behaviour can be stated for them.
- The `print` calls (`borrower.py:118`, `199`) and `Loan.__str__` (`loan.py:76-77`) are console output only.
- `encode_economic_cycle` (`borrower.py:126-128`) returns its argument unchanged; `StateFeatures` uses the cycle directly.
- `not_defaulted` (`borrower.py:130-132`) evaluates the same test as `can_borrow`. Both are modelled by `Borrowers.CanBorrow`.
- Floating-point rounding is not modelled; all money and rate arithmetic is exact.
- `monthly_payment` raises ZeroDivisionError when `(1 + rate/12)^term == 1`, for example at a zero rate. The model makes it a precondition, `Payable()`, of every member that evaluates the payment.
- Members that compute the debt-to-income ratio with a positive income (`DebtToIncome`, `CanBorrow`, `StateFeatures`, `ApplyForLoan`, `EvaluateLoan`, `UpdateState`) require `AllPayable(loans)` only then; there the source would raise at the first loan whose payment cannot be computed. `EvaluateLoan` also requires it when the chosen action is 1, because `calculate_affordability` sums every payment (`borrower.py:188`).
- A loan's lender and borrower are object references in the source. The model keeps them as integer ids and passes the borrower to `LoanMakePayment`.
- A loan's term is a natural number; negative terms are not modelled.
- Supplied best values are taken as integers already truncated by `int(...)`.
- `Replay.ReplayMemory.Sample`: does not model the ValueError that `random.sample` raises for `n > len`; that call is excluded by its precondition.
