# Loan payoff calculator — a Dafny model

The calculator keeps a list of loans (id, name, amount, annual rate in percent,
and a per-loan payment) and one monthly budget chosen on a slider (0 to 2000,
step 10). On every change it recomputes:

- the total principal, the sum of the amounts;
- the weighted average rate, each rate weighted by amount / total;
- the months until paid off, `ceil(total / budget)`;
- a flat-rate interest estimate, `total × rate% × months / 12`;
- the "Principal Remaining" chart: `months + 1` points, point i being
  `max(total − budget·i, 0)`, with one month label per point.

Three actions change the list: "Add Loan" appends a blank loan named
`Loan n+1`, editing a field replaces that field of the loan(s) with the id,
and "Remove" filters out the loan(s) with the id.

Files and modules:

- `decimal.dfy` (`Decimal`): decimal text of a natural number (the `n` in
  `Loan n`), with its inverse.
- `loans.dfy` (`Loans`): the `Loan` record, the `Edit` of one field, and the
  three list transitions as functions `Added`, `Updated` and `Removed`, with
  their properties.
- `projection.dfy` (`Projection`): the sums as left folds (`reduce`), the
  weighted average, `Ceil`, the months, the interest estimate, the series and
  its labels, and `Project`, which gathers them.
- `edit_effects.dfy` (`EditEffects`): how each list edit moves the figures.
- `calculator.dfy` (`Calculator`): the class `LoanCalculator` holding `loans`
  and `monthlyPayment`. Its methods replace the list with the transition
  functions' results.

Money and rates are exact `real`s. The budget is a `nat`. Divisions are
guarded by preconditions: the budget must be positive, and the total must be
non-zero unless there are no loans. With no loans the source's fold never
divides, so the average rate is 0; the model keeps that case.

The code does not raise the budget to a minimum before dividing, and its
chart has one aggregate series built from the budget, not one series per loan
built from each loan's own payment.

## Model

| member | source | states |
|---|---|---|
| Decimal.FromNat | app/page.tsx:84 | the text of n is non-empty and all decimal digits, with no leading zero, and is one character exactly when n < 10 |
| Decimal.ToNatFromNat | app/page.tsx:84 | reading the decimal text of n back gives n |
| Decimal.FromNatInjective | app/page.tsx:84 | two numbers have the same decimal text if and only if they are equal |
| Loans.LoanName | app/page.tsx:84 | the template literal `Loan ${n}`: "Loan " followed by the decimal text of n |
| Loans.LoanNameInjective | app/page.tsx:84 | `Loan m` and `Loan n` are the same name if and only if m = n; the name records the list length at the time of adding, not a unique label |
| Loans.NamesCanRepeat | app/page.tsx:79-100 | names repeat: from the seeded list, Add Loan, removing loan "1" and Add Loan again gives two loans both named `Loan 2` |
| Loans.BlankLoan | app/page.tsx:82-88 | the loan "Add Loan" appends: the given id, name `Loan {count + 1}`, and amount, rate and payment 0 |
| Loans.Added | app/page.tsx:79-90 | `[...loans, blank]`: the old list followed by the blank loan named after the old length |
| Loans.Apply | app/page.tsx:94 | `{ ...loan, [field]: value }`: the loan with one field replaced |
| Loans.Updated | app/page.tsx:92-96 | `loans.map`: each loan whose id equals the given id has the edit applied, every other loan is kept, positions unchanged |
| Loans.Removed | app/page.tsx:98-100 | `loans.filter`: the loans whose id differs from the given id, in their original order |
| Loans.AddedShape | app/page.tsx:79-90 | adding gives the old list unchanged as a prefix plus one loan at the end: the fresh id, name `Loan {old length + 1}`, amount, rate and payment 0; the ids become the old ids plus the fresh one |
| Loans.AddedKeepsUniqueIds | app/page.tsx:79-90 | when the new id is fresh, adding keeps the ids distinct |
| Loans.ApplyOnlyEdits | app/page.tsx:94 | an edit sets its own field to the given value and leaves the id and every other field as they were |
| Loans.UpdatedShape | app/page.tsx:92-96 | an update keeps length and order; loans with another id are unchanged; loans with the id differ only in the edited field; the set of ids is unchanged |
| Loans.UpdatedAbsentId | app/page.tsx:92-96 | updating an id no loan has leaves the list unchanged |
| Loans.UpdatedUnique | app/page.tsx:92-96 | when the id of position k is unique, the update changes position k alone |
| Loans.AddThenFillIn | app/page.tsx:79-96 | with a fresh id, "Add Loan" and then entering an amount and a rate in the new row gives the old list plus one loan with that id, the positional name, that amount and rate, and payment 0 |
| Loans.RemovedAppend | app/page.tsx:98-100 | removal distributes over concatenation, so the survivors keep their relative order |
| Loans.RemovedSingle | app/page.tsx:99 | one loan survives removal exactly when its id differs from the removed id |
| Loans.RemovedMembers | app/page.tsx:98-100 | a loan is in the result if and only if it is in the list and its id differs; the list does not grow |
| Loans.RemovedAbsentId | app/page.tsx:98-100 | removing an id no loan has leaves the list unchanged |
| Loans.RemovedIdempotent | app/page.tsx:98-100 | removing the same id twice gives the same list as removing it once |
| Loans.RemovedBetween | app/page.tsx:98-100 | removing the id of a loan that no loan before or after it carries takes out that loan alone, the rest kept in order |
| Loans.RemovedUnique | app/page.tsx:98-100 | when the id of position k is unique, removal takes out exactly position k |
| Loans.RemovedKeepsUniqueIds | app/page.tsx:98-100 | removal keeps the ids distinct |
| Projection.TotalPrincipal | app/page.tsx:47 | left fold of `sum + loan.amount` from 0 over the list in order |
| Projection.SumByAppend | app/page.tsx:47 | a fold-sum over two concatenated lists is the sum of the two fold-sums |
| Projection.SumByPermutation | app/page.tsx:47-48 | lists with the same elements in any order have the same fold-sum |
| Projection.TotalPrincipalEmpty | app/page.tsx:47 | the total principal of no loans is 0 |
| Projection.TotalPrincipalPermutation | app/page.tsx:47 | the total principal does not depend on the order of the loans |
| Projection.WeightedRate | app/page.tsx:48 | left fold of `sum + rate·(amount / p)` from 0 over the list in order; with no loans nothing is divided and the result is 0 |
| Projection.AverageRate | app/page.tsx:48 | the weighted fold with p the total principal; defined when the total is non-zero or there are no loans |
| Projection.WeightedRateScaled | app/page.tsx:48 | the fold of rate·(amount/p), multiplied by p, equals Σ rate·amount |
| Projection.AverageRateIsRatio | app/page.tsx:48 | for a non-zero total, the average rate equals Σ(rate·amount) / total |
| Projection.AverageRatePermutation | app/page.tsx:47-48 | reordering the loans changes neither the total nor the average rate |
| Projection.RateAmountSumBounds | app/page.tsx:48 | with amounts ≥ 0 and rates in [lo, hi], lo·total ≤ Σ rate·amount ≤ hi·total |
| Projection.AverageRateWithin | app/page.tsx:48 | with amounts ≥ 0 and a positive total, the average rate lies in any [lo, hi] that holds every rate |
| Projection.AverageRateBetweenMinAndMax | app/page.tsx:48 | with amounts ≥ 0 and a positive total, minimum rate ≤ average rate ≤ maximum rate |
| Projection.Ceil | app/page.tsx:51 | `Math.ceil`: the result is the integer n with x ≤ n < x + 1 |
| Projection.MonthsUntilPaidOff | app/page.tsx:51 | `Math.ceil(total / budget)` for a positive budget |
| Projection.MonthsIsLeast | app/page.tsx:51 | for a positive budget B, the months m satisfy m·B ≥ P and (m−1)·B < P; m ≥ 0 when P ≥ 0 and m ≥ 1 when P > 0 |
| Projection.MonthsIsMinimal | app/page.tsx:51 | every whole k with k·B ≥ P is at least m, so m is the least such number |
| Projection.TotalInterest | app/page.tsx:56 | `(total · (rate / 100) · months) / 12`, in that order of operations |
| Projection.TotalInterestNonNegative | app/page.tsx:56 | the interest estimate is ≥ 0 when principal, rate and months are ≥ 0 |
| Projection.TotalInterestFromRates | app/page.tsx:47-56 | for a non-zero total, the estimate equals Σ(rate·amount)·months / 1200; the total cancels |
| Projection.SeriesLength | app/page.tsx:59-72 | the array length `Array.from` builds for `months + 1`: months + 1, or 0 when that is negative |
| Projection.Remaining | app/page.tsx:71 | point i of the chart: `Math.max(total − budget·i, 0)` |
| Projection.PrincipalSeries | app/page.tsx:70-72 | the "Principal Remaining" data: point i is the remaining principal after i payments, for i from 0 to months |
| Projection.LabelOffsets | app/page.tsx:59-63 | one label per point, label i naming the month i months from now |
| Projection.ChartTooLongForLargeTotal | app/page.tsx:51-72 | a total of 1e11 at a budget of 10 needs 1e10 months, more points than a JavaScript array can hold, so `Array.from` would throw |
| Projection.ChartFitsForSliderBudgets | app/page.tsx:51-72 | for the seeded total of 10000, every non-zero slider budget needs at most 1000 months, so the chart can be built |
| Projection.SeriesShape | app/page.tsx:59-72 | the series and the labels have the same length, months + 1 when months ≥ −1; every point is ≥ 0; point 0 is P when P ≥ 0; points never increase |
| Projection.SeriesEndsAtZero | app/page.tsx:51-72 | with the computed month count and a positive budget, a non-empty series ends at 0 |
| Projection.Project | app/page.tsx:47-72 | all figures of one render: total, average rate, months, interest, labels and series, each from the functions above |
| Projection.ProjectionFacts | app/page.tsx:47-72 | with amounts ≥ 0, a positive total and a positive budget: months ≥ 1; series and labels have months + 1 points; the series starts at the total and ends at 0; the average rate lies between the rates' minimum and maximum; the interest is ≥ 0 when the rates are |
| Projection.ProjectEmpty | app/page.tsx:47-72 | with no loans every figure is 0 and the chart is the single point 0 |
| Projection.ProjectSeeded | app/page.tsx:36-56 | the initial state gives total 10000, average rate 5, 20 months, interest 10000·0.05·20/12, 21 points, 5000 left after 10 months |
| Projection.AverageRateTwoLoans | app/page.tsx:47-48 | loans of 6000 at 4% and 4000 at 8% give total 10000 and average rate 5.6 |
| EditEffects.AddedKeepsProjection | app/page.tsx:79-90 | for a non-zero total, adding a blank loan changes neither the total nor any displayed figure (from an empty list the source's average becomes NaN, which the model does not reach) |
| EditEffects.SameSumsSameProjection | app/page.tsx:47-72 | two lists with the same total and the same Σ rate·amount show the same figures |
| EditEffects.NameOrPaymentEditKeepsProjection | app/page.tsx:92-96 | renaming a loan or changing its own payment changes no figure, since neither field is read |
| EditEffects.AmountEditMovesTotal | app/page.tsx:92-96 | when the id is unique, setting a loan's amount to a moves the total by a − old amount |
| EditEffects.RemovedLowersTotal | app/page.tsx:98-100 | when the id is unique, removal lowers the total by that loan's amount and Σ rate·amount by its rate·amount |
| EditEffects.RemoveThenReAddKeepsSums | app/page.tsx:79-100 | when the id is unique, removing a loan and then appending one with the same amount and rate gives back the same total and the same Σ rate·amount |
| EditEffects.RemoveThenReAddKeepsProjection | app/page.tsx:79-100 | when the id is unique and the total non-zero, removing a loan and then appending one with the same amount and rate gives the same total and the same figures |
| EditEffects.RemoveThenAddAndFillInKeepsProjection | app/page.tsx:79-100 | when the id is unique and the total non-zero, removing a loan, pressing "Add Loan" and typing the removed amount and rate into the new row gives back the same total and the same figures |
| Calculator.LoanCalculator.constructor | app/page.tsx:36-45 | the initial state: one loan of 10000 at 5% with payment 200, and a budget of 500 |
| Calculator.LoanCalculator.Figures | app/page.tsx:47-72 | the figures rendered for the current loans and budget, when the budget and total can be divided by |
| Calculator.LoanCalculator.SetMonthlyPayment | app/page.tsx:125-131 | the slider sets the budget to a multiple of 10 in [0, 2000]; the loans are unchanged |
| Calculator.LoanCalculator.AddLoan | app/page.tsx:79-90 | the list becomes the old list plus the blank loan `Loan {n+1}` with the fresh id; ids stay distinct; the budget is unchanged; with a positive budget and a non-zero total, the total and the rendered figures are unchanged |
| Calculator.LoanCalculator.UpdateLoan | app/page.tsx:92-96 | the list becomes the updated list: same length, other loans unchanged, matching loans differ only in the edited field, an absent id changes nothing, and the one loan holding the id is the only change |
| Calculator.LoanCalculator.RemoveLoan | app/page.tsx:98-100 | the list becomes the filtered list: survivors are exactly the loans with another id, none carries the id, an absent id changes nothing, and the one loan holding the id is the only loan removed |

## Left out

- Rendering, styling, the form widgets and the chart library (app/page.tsx:102-259, 4-24): presentation only. Only the numbers the chart receives are modelled.
- The payoff date and the label text (app/page.tsx:52-53, 59-63): these need the clock and the host locale. Each label is modelled by its month offset from today, so only the label count is compared with the series.
- Floating point: amounts, rates and results are exact reals; rounding is not modelled. NaN and Infinity are not values of the model, and the divisions that produce them (app/page.tsx:48, 51) are excluded by preconditions.
- Projection.MonthsUntilPaidOff: requires a positive budget, but the slider reaches 0. With a zero budget and a positive total (the seeded state with the slider moved to 0) the source computes Infinity months, and `Array.from` with length Infinity + 1 throws a RangeError, so the page fails to render; with a zero budget and a total ≤ 0 it gets NaN or −Infinity months and an empty chart. None of this is modelled.
- Projection.Project: does not require ChartFits. The source throws a RangeError when months + 1 exceeds 2^32 − 1 (a total of 1e11 at a budget of 10, see ChartTooLongForLargeTotal); the model returns the long series instead.
- Projection.AverageRate: requires a non-zero total unless there are no loans. Loans whose amounts are all 0 (the state after "Add Loan" on an empty list) give a NaN average rate and NaN interest in the source.
- The conversion `Number(value)` of typed text (app/page.tsx:94): an `Edit` carries an already-numeric value. Text that is not a number is not modelled.
- Editing the `id` field through `updateLoan` (app/page.tsx:92): the type allows it, but no control does it.
- `Math.random()` ids (app/page.tsx:83): the caller supplies an id that no loan has yet.
- The payment strategy (app/page.tsx:35, 108-117): no computation reads it, so it is absent from the state.
- Calculator.LoanCalculator.AddLoan: requires a fresh id and keeps ids distinct as a class invariant. The source's random ids are distinct only with high probability.
