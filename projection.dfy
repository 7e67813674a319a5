/** The figures the calculator derives from its loans and its monthly budget on
    every change: total principal, weighted average rate, months until paid
    off, a flat-rate interest estimate and the "Principal Remaining" series. */
module Projection {
  import opened Loans

  // ---- Sums over the loan list ----

  /** `loans.reduce((sum, loan) => sum + f(loan), 0)`: a fold from the left. */
  function SumBy(loans: seq<Loan>, f: Loan -> real): real {
    if loans == [] then 0.0 else SumBy(loans[..|loans| - 1], f) + f(loans[|loans| - 1])
  }

  function AmountOf(loan: Loan): real {
    loan.amount
  }

  function RateTimesAmount(loan: Loan): real {
    loan.rate * loan.amount
  }

  /** The "Principal Remaining" card: the sum of the loan amounts. */
  function TotalPrincipal(loans: seq<Loan>): real {
    SumBy(loans, AmountOf)
  }

  /** Σ rate·amount, the numerator of the weighted average rate. */
  function RateAmountSum(loans: seq<Loan>): real {
    SumBy(loans, RateTimesAmount)
  }

  lemma {:induction false} SumByAppend(a: seq<Loan>, b: seq<Loan>, f: Loan -> real)
    ensures SumBy(a + b, f) == SumBy(a, f) + SumBy(b, f)
    decreases |b|
  {
    if b == [] {
      assert a + b == a;
    } else {
      assert (a + b)[..|a + b| - 1] == a + b[..|b| - 1];
      SumByAppend(a, b[..|b| - 1], f);
    }
  }

  lemma SumBySingle(x: Loan, f: Loan -> real)
    ensures SumBy([x], f) == f(x)
  {
    assert [x][..0] == [];
  }

  /** A sum over the loans does not depend on their order. */
  lemma {:induction false} SumByPermutation(a: seq<Loan>, b: seq<Loan>, f: Loan -> real)
    requires multiset(a) == multiset(b)
    ensures SumBy(a, f) == SumBy(b, f)
    decreases |a|
  {
    if a == [] {
      assert |b| == |multiset(b)| == 0;
    } else {
      var x := a[|a| - 1];
      var a' := a[..|a| - 1];
      assert a == a' + [x];
      assert x in multiset(b);
      var j :| 0 <= j < |b| && b[j] == x;
      var b' := b[..j] + b[j + 1..];
      assert b == b[..j] + [x] + b[j + 1..];
      assert multiset(b) == multiset(b[..j]) + multiset{x} + multiset(b[j + 1..]);
      assert multiset(a) == multiset(a') + multiset{x};
      assert multiset(b') == multiset(b[..j]) + multiset(b[j + 1..]);
      assert multiset(a') == multiset(a) - multiset{x};
      assert multiset(b') == multiset(b) - multiset{x};
      SumByPermutation(a', b', f);
      SumByAppend(b[..j] + [x], b[j + 1..], f);
      SumByAppend(b[..j], [x], f);
      SumByAppend(b[..j], b[j + 1..], f);
      SumBySingle(x, f);
    }
  }

  lemma TotalPrincipalEmpty()
    ensures TotalPrincipal([]) == 0.0
  {
  }

  lemma TotalPrincipalPermutation(a: seq<Loan>, b: seq<Loan>)
    requires multiset(a) == multiset(b)
    ensures TotalPrincipal(a) == TotalPrincipal(b)
  {
    SumByPermutation(a, b, AmountOf);
  }

  // ---- Weighted average rate ----

  /** `loans.reduce((sum, loan) => sum + loan.rate * (loan.amount / p), 0)`; the
      division is only performed when there is a loan, so p may be zero for no loans. */
  function WeightedRate(loans: seq<Loan>, p: real): real
    requires p != 0.0 || loans == []
  {
    if loans == [] then 0.0
    else WeightedRate(loans[..|loans| - 1], p) + loans[|loans| - 1].rate * (loans[|loans| - 1].amount / p)
  }

  /** The "Average Rate" card. With no loans the fold never divides and gives 0. */
  function AverageRate(loans: seq<Loan>): real
    requires loans == [] || TotalPrincipal(loans) != 0.0
  {
    WeightedRate(loans, TotalPrincipal(loans))
  }

  lemma {:induction false} WeightedRateScaled(loans: seq<Loan>, p: real)
    requires p != 0.0
    ensures WeightedRate(loans, p) * p == RateAmountSum(loans)
  {
    if loans != [] {
      var x := loans[|loans| - 1];
      WeightedRateScaled(loans[..|loans| - 1], p);
      calc {
        WeightedRate(loans, p) * p;
        WeightedRate(loans[..|loans| - 1], p) * p + x.rate * (x.amount / p) * p;
        RateAmountSum(loans[..|loans| - 1]) + x.rate * x.amount;
      }
    }
  }

  /** The average rate is Σ(rate·amount) / Σ amount. */
  lemma AverageRateIsRatio(loans: seq<Loan>)
    requires TotalPrincipal(loans) != 0.0
    ensures AverageRate(loans) == RateAmountSum(loans) / TotalPrincipal(loans)
  {
    WeightedRateScaled(loans, TotalPrincipal(loans));
  }

  /** Reordering the loans changes neither the total nor the average rate. */
  lemma AverageRatePermutation(a: seq<Loan>, b: seq<Loan>)
    requires multiset(a) == multiset(b)
    requires TotalPrincipal(a) != 0.0
    ensures TotalPrincipal(b) != 0.0 && AverageRate(a) == AverageRate(b)
  {
    TotalPrincipalPermutation(a, b);
    SumByPermutation(a, b, RateTimesAmount);
    AverageRateIsRatio(a);
    AverageRateIsRatio(b);
  }

  predicate NonNegativeAmounts(loans: seq<Loan>) {
    forall i :: 0 <= i < |loans| ==> loans[i].amount >= 0.0
  }

  predicate RatesWithin(loans: seq<Loan>, lo: real, hi: real) {
    forall i :: 0 <= i < |loans| ==> lo <= loans[i].rate <= hi
  }

  lemma MulLeftMono(a: real, b: real, c: real)
    requires a <= b && c >= 0.0
    ensures a * c <= b * c
  {
  }

  lemma MulStrictMono(a: real, b: real, c: real)
    requires a < b && c > 0.0
    ensures a * c < b * c
  {
  }

  lemma MulDistributes(a: real, b: real, c: real)
    ensures a * (b + c) == a * b + a * c
  {
  }

  lemma {:induction false} RateAmountSumBounds(loans: seq<Loan>, lo: real, hi: real)
    requires NonNegativeAmounts(loans) && RatesWithin(loans, lo, hi)
    ensures lo * TotalPrincipal(loans) <= RateAmountSum(loans) <= hi * TotalPrincipal(loans)
  {
    if loans != [] {
      var x := loans[|loans| - 1];
      var init := loans[..|loans| - 1];
      assert NonNegativeAmounts(init) && RatesWithin(init, lo, hi);
      RateAmountSumBounds(init, lo, hi);
      MulLeftMono(lo, x.rate, x.amount);
      MulLeftMono(x.rate, hi, x.amount);
      var t := TotalPrincipal(init);
      assert TotalPrincipal(loans) == t + x.amount;
      assert RateAmountSum(loans) == RateAmountSum(init) + x.rate * x.amount;
      MulDistributes(lo, t, x.amount);
      MulDistributes(hi, t, x.amount);
    }
  }

  /** With non-negative amounts and a positive total, the average rate is a
      convex combination of the loan rates: it lies within any bounds they do. */
  lemma AverageRateWithin(loans: seq<Loan>, lo: real, hi: real)
    requires NonNegativeAmounts(loans) && RatesWithin(loans, lo, hi)
    requires TotalPrincipal(loans) > 0.0
    ensures lo <= AverageRate(loans) <= hi
  {
    var p := TotalPrincipal(loans);
    RateAmountSumBounds(loans, lo, hi);
    AverageRateIsRatio(loans);
    assert lo * p / p == lo && hi * p / p == hi;
  }

  function MinRate(loans: seq<Loan>): (r: real)
    requires loans != []
    ensures exists i :: 0 <= i < |loans| && loans[i].rate == r
    ensures forall i :: 0 <= i < |loans| ==> r <= loans[i].rate
  {
    if |loans| == 1 then loans[0].rate
    else
      var m := MinRate(loans[..|loans| - 1]);
      if loans[|loans| - 1].rate < m then loans[|loans| - 1].rate else m
  }

  function MaxRate(loans: seq<Loan>): (r: real)
    requires loans != []
    ensures exists i :: 0 <= i < |loans| && loans[i].rate == r
    ensures forall i :: 0 <= i < |loans| ==> loans[i].rate <= r
  {
    if |loans| == 1 then loans[0].rate
    else
      var m := MaxRate(loans[..|loans| - 1]);
      if loans[|loans| - 1].rate > m then loans[|loans| - 1].rate else m
  }

  /** The average rate lies between the smallest and the largest loan rate. */
  lemma AverageRateBetweenMinAndMax(loans: seq<Loan>)
    requires NonNegativeAmounts(loans) && TotalPrincipal(loans) > 0.0
    ensures loans != [] && MinRate(loans) <= AverageRate(loans) <= MaxRate(loans)
  {
    assert loans != [];
    AverageRateWithin(loans, MinRate(loans), MaxRate(loans));
  }

  // ---- Months until paid off ----

  /** `Math.ceil` on an exact real. */
  function Ceil(x: real): (n: int)
    ensures x <= n as real < x + 1.0
  {
    -((-x).Floor)
  }

  /** `Math.ceil(totalPrincipal / monthlyPayment)`. */
  function MonthsUntilPaidOff(p: real, budget: nat): int
    requires budget > 0
  {
    Ceil(p / budget as real)
  }

  lemma DivTimes(p: real, b: real)
    requires b != 0.0
    ensures (p / b) * b == p
  {
  }

  /** The defining bounds of MonthsUntilPaidOff, stated on q = p / budget. */
  lemma MonthsCeilBounds(p: real, budget: nat)
    requires budget > 0
    ensures var q := p / budget as real;
      q <= MonthsUntilPaidOff(p, budget) as real && (MonthsUntilPaidOff(p, budget) - 1) as real < q
  {
  }

  /** m is the least whole number of monthly payments of `budget` that covers p. */
  lemma MonthsIsLeast(p: real, budget: nat)
    requires budget > 0
    ensures var m := MonthsUntilPaidOff(p, budget);
      && (m as real) * (budget as real) >= p
      && ((m - 1) as real) * (budget as real) < p
      && (p >= 0.0 ==> m >= 0)
      && (p > 0.0 ==> m >= 1)
  {
    var m := MonthsUntilPaidOff(p, budget);
    var b := budget as real;
    var q := p / b;
    DivTimes(p, b);
    MonthsCeilBounds(p, budget);
    MulLeftMono(q, m as real, b);
    MulStrictMono((m - 1) as real, q, b);
    if p >= 0.0 {
      MulLeftMono(0.0, p, 1.0 / b);
      assert q >= 0.0;
    }
    if p > 0.0 {
      MulStrictMono(0.0, p, 1.0 / b);
      assert q > 0.0;
    }
  }

  lemma MonthsIsMinimal(p: real, budget: nat, k: int)
    requires budget > 0
    requires (k as real) * (budget as real) >= p
    ensures k >= MonthsUntilPaidOff(p, budget)
  {
    MonthsIsLeast(p, budget);
    var m := MonthsUntilPaidOff(p, budget);
    if k < m {
      MulLeftMono(k as real, (m - 1) as real, budget as real);
      assert false;
    }
  }

  // ---- Total interest ----

  /** The "Total Interest" card: a flat-rate estimate, principal × rate% × months / 12. */
  function TotalInterest(p: real, averageRate: real, months: int): real {
    (p * (averageRate / 100.0) * months as real) / 12.0
  }

  lemma TotalInterestNonNegative(p: real, averageRate: real, months: int)
    requires p >= 0.0 && averageRate >= 0.0 && months >= 0
    ensures TotalInterest(p, averageRate, months) >= 0.0
  {
    MulLeftMono(0.0, p, averageRate / 100.0);
    MulLeftMono(0.0, p * (averageRate / 100.0), months as real);
  }

  /** Since the average rate is weighted by amount / p, the principal cancels:
      the estimate is Σ(rate·amount) × months / 1200. */
  lemma TotalInterestFromRates(loans: seq<Loan>, months: int)
    requires TotalPrincipal(loans) != 0.0
    ensures TotalInterest(TotalPrincipal(loans), AverageRate(loans), months)
         == RateAmountSum(loans) * months as real / 1200.0
  {
    var p := TotalPrincipal(loans);
    WeightedRateScaled(loans, p);
  }

  // ---- Chart data ----

  /** `Array.from({ length: n })` takes a negative length as 0. */
  function SeriesLength(months: int): nat {
    if months + 1 < 0 then 0 else months + 1
  }

  /** The longest array JavaScript can build, 2^32 − 1 elements; `Array.from`
      throws a RangeError for a longer requested length. */
  const MaxArrayLength: nat := 0x1_0000_0000 - 1

  /** The chart arrays for this month count can be built at all. */
  predicate ChartFits(months: int) {
    SeriesLength(months) <= MaxArrayLength
  }

  /** A large but finite total defeats the chart: 1e11 at a budget of 10 needs
      1e10 months, and an array of 1e10 + 1 points cannot be built. */
  lemma ChartTooLongForLargeTotal()
    ensures MonthsUntilPaidOff(100000000000.0, 10) == 10000000000
    ensures !ChartFits(MonthsUntilPaidOff(100000000000.0, 10))
  {
    assert 100000000000.0 / 10 as real == 10000000000.0;
  }

  /** The seeded loan at any slider budget from 10 up needs at most 1000 months,
      well within the array limit. */
  lemma ChartFitsForSliderBudgets(budget: nat)
    requires 10 <= budget <= 2000
    ensures MonthsUntilPaidOff(10000.0, budget) <= 1000
    ensures ChartFits(MonthsUntilPaidOff(10000.0, budget))
  {
    MonthsIsMinimal(10000.0, budget, 1000);
    MonthsIsLeast(10000.0, budget);
  }

  /** Point i of the "Principal Remaining" series: `Math.max(p - budget * i, 0)`. */
  function Remaining(p: real, budget: nat, i: nat): real {
    var left := p - (budget * i) as real;
    if left > 0.0 then left else 0.0
  }

  function PrincipalSeries(p: real, budget: nat, months: int): seq<real> {
    seq(SeriesLength(months), i requires 0 <= i => Remaining(p, budget, i))
  }

  /** The chart labels, as the number of months after the current month each one names. */
  function LabelOffsets(months: int): seq<nat> {
    seq(SeriesLength(months), i requires 0 <= i => i)
  }

  lemma MulNatMono(budget: nat, i: nat, j: nat)
    requires i <= j
    ensures budget * i <= budget * j
  {
  }

  lemma SeriesShape(p: real, budget: nat, months: int)
    ensures |PrincipalSeries(p, budget, months)| == |LabelOffsets(months)|
    ensures months >= -1 ==> |PrincipalSeries(p, budget, months)| == months + 1
    ensures forall i :: 0 <= i < |PrincipalSeries(p, budget, months)| ==> PrincipalSeries(p, budget, months)[i] >= 0.0
    ensures months >= 0 && p >= 0.0 ==> PrincipalSeries(p, budget, months)[0] == p
    ensures forall i, j :: 0 <= i <= j < |PrincipalSeries(p, budget, months)| ==>
      PrincipalSeries(p, budget, months)[j] <= PrincipalSeries(p, budget, months)[i]
  {
    var s := PrincipalSeries(p, budget, months);
    forall i, j | 0 <= i <= j < |s| ensures s[j] <= s[i] {
      MulNatMono(budget, i, j);
    }
  }

  /** With the month count from MonthsUntilPaidOff, the series ends at zero. */
  lemma SeriesEndsAtZero(p: real, budget: nat)
    requires budget > 0
    requires SeriesLength(MonthsUntilPaidOff(p, budget)) > 0
    ensures var s := PrincipalSeries(p, budget, MonthsUntilPaidOff(p, budget));
      s[|s| - 1] == 0.0
  {
    var m := MonthsUntilPaidOff(p, budget);
    MonthsIsLeast(p, budget);
    assert (budget * m) as real == (m as real) * (budget as real);
  }

  // ---- The whole projection ----

  datatype Summary = Summary(
    totalPrincipal: real,
    averageRate: real,
    monthsUntilPaidOff: int,
    totalInterest: real,
    labels: seq<nat>,
    principalRemaining: seq<real>)

  /** Everything the calculator shows, for a positive budget and a total that
      can be divided by (or no loans at all). */
  function Project(loans: seq<Loan>, budget: nat): Summary
    requires budget > 0
    requires loans == [] || TotalPrincipal(loans) != 0.0
  {
    var p := TotalPrincipal(loans);
    var rate := AverageRate(loans);
    var m := MonthsUntilPaidOff(p, budget);
    Summary(p, rate, m, TotalInterest(p, rate, m), LabelOffsets(m), PrincipalSeries(p, budget, m))
  }

  /** The projection of non-negative loans with a positive total. */
  lemma ProjectionFacts(loans: seq<Loan>, budget: nat)
    requires budget > 0
    requires NonNegativeAmounts(loans) && TotalPrincipal(loans) > 0.0
    ensures var r := Project(loans, budget);
      && r.monthsUntilPaidOff >= 1
      && |r.principalRemaining| == |r.labels| == r.monthsUntilPaidOff + 1
      && r.principalRemaining[0] == r.totalPrincipal
      && r.principalRemaining[r.monthsUntilPaidOff] == 0.0
      && MinRate(loans) <= r.averageRate <= MaxRate(loans)
      && (RatesWithin(loans, 0.0, MaxRate(loans)) ==> r.totalInterest >= 0.0)
  {
    var p := TotalPrincipal(loans);
    var m := MonthsUntilPaidOff(p, budget);
    MonthsIsLeast(p, budget);
    SeriesShape(p, budget, m);
    SeriesEndsAtZero(p, budget);
    AverageRateBetweenMinAndMax(loans);
    if RatesWithin(loans, 0.0, MaxRate(loans)) {
      AverageRateWithin(loans, 0.0, MaxRate(loans));
      TotalInterestNonNegative(p, AverageRate(loans), m);
    }
  }

  /** With no loans every figure is zero and the chart has the single point 0. */
  lemma ProjectEmpty(budget: nat)
    requires budget > 0
    ensures Project([], budget) == Summary(0.0, 0.0, 0, 0.0, [0], [0.0])
  {
  }

  /** The initial state: one loan of 10000 at 5% and a budget of 500. */
  lemma ProjectSeeded()
    ensures var r := Project([Loan("1", "Loan 1", 10000.0, 5.0, 200.0)], 500);
      && r.totalPrincipal == 10000.0
      && r.averageRate == 5.0
      && r.monthsUntilPaidOff == 20
      && r.totalInterest == 10000.0 * 0.05 * 20.0 / 12.0
      && |r.principalRemaining| == 21
      && r.principalRemaining[10] == 5000.0
  {
    var loans := [Loan("1", "Loan 1", 10000.0, 5.0, 200.0)];
    SumBySingle(loans[0], AmountOf);
    SumBySingle(loans[0], RateTimesAmount);
    AverageRateIsRatio(loans);
    assert MonthsUntilPaidOff(10000.0, 500) == Ceil(20.0);
  }

  /** Two loans of 6000 at 4% and 4000 at 8%: the average rate is 5.6. */
  lemma AverageRateTwoLoans()
    ensures var loans := [Loan("1", "Loan 1", 6000.0, 4.0, 0.0), Loan("2", "Loan 2", 4000.0, 8.0, 0.0)];
      TotalPrincipal(loans) == 10000.0 && AverageRate(loans) == 5.6
  {
    var loans := [Loan("1", "Loan 1", 6000.0, 4.0, 0.0), Loan("2", "Loan 2", 4000.0, 8.0, 0.0)];
    assert loans[..1] == [loans[0]];
    SumBySingle(loans[0], AmountOf);
    SumBySingle(loans[0], RateTimesAmount);
    AverageRateIsRatio(loans);
  }
}
