/** How each edit of the loan list moves the derived figures. */
module EditEffects {
  import opened Loans
  import opened Projection

  lemma {:induction false} SumByPointwise(a: seq<Loan>, b: seq<Loan>, f: Loan -> real)
    requires |a| == |b|
    requires forall i :: 0 <= i < |a| ==> f(a[i]) == f(b[i])
    ensures SumBy(a, f) == SumBy(b, f)
  {
    if a != [] {
      SumByPointwise(a[..|a| - 1], b[..|b| - 1], f);
    }
  }

  /** A blank loan adds nothing to the total or to Σ rate·amount, so the
      figures shown do not move when "Add Loan" is pressed. */
  lemma AddedKeepsProjection(loans: seq<Loan>, freshId: string, budget: nat)
    requires budget > 0 && TotalPrincipal(loans) != 0.0
    ensures TotalPrincipal(Added(loans, freshId)) == TotalPrincipal(loans)
    ensures Project(Added(loans, freshId), budget) == Project(loans, budget)
  {
    var r := Added(loans, freshId);
    var x := BlankLoan(freshId, |loans|);
    SumByAppend(loans, [x], AmountOf);
    SumByAppend(loans, [x], RateTimesAmount);
    SumBySingle(x, AmountOf);
    SumBySingle(x, RateTimesAmount);
    AverageRateIsRatio(loans);
    AverageRateIsRatio(r);
  }

  lemma AppendedSums(loans: seq<Loan>, x: Loan)
    ensures TotalPrincipal(loans + [x]) == TotalPrincipal(loans) + x.amount
    ensures RateAmountSum(loans + [x]) == RateAmountSum(loans) + RateTimesAmount(x)
  {
    SumByAppend(loans, [x], AmountOf);
    SumByAppend(loans, [x], RateTimesAmount);
    SumBySingle(x, AmountOf);
    SumBySingle(x, RateTimesAmount);
  }

  /** Figures of two lists agree when their totals and Σ rate·amount agree. */
  lemma SameSumsSameProjection(a: seq<Loan>, b: seq<Loan>, budget: nat)
    requires budget > 0 && TotalPrincipal(a) != 0.0
    requires TotalPrincipal(b) == TotalPrincipal(a) && RateAmountSum(b) == RateAmountSum(a)
    ensures Project(b, budget) == Project(a, budget)
  {
    AverageRateIsRatio(a);
    AverageRateIsRatio(b);
  }

  /** Renaming a loan or changing its own payment field changes no figure:
      neither field is read by the projection. */
  lemma NameOrPaymentEditKeepsProjection(loans: seq<Loan>, id: string, e: Edit, budget: nat)
    requires e.SetName? || e.SetPayment?
    requires budget > 0 && TotalPrincipal(loans) != 0.0
    ensures TotalPrincipal(Updated(loans, id, e)) == TotalPrincipal(loans)
    ensures Project(Updated(loans, id, e), budget) == Project(loans, budget)
  {
    var r := Updated(loans, id, e);
    UpdatedShape(loans, id, e);
    SumByPointwise(loans, r, AmountOf);
    SumByPointwise(loans, r, RateTimesAmount);
    SameSumsSameProjection(loans, r, budget);
  }

  /** Changing the amount of the loan at position k (its id unique) moves the
      total by exactly the difference. */
  lemma AmountEditMovesTotal(loans: seq<Loan>, k: nat, a: real)
    requires IdOnlyAt(loans, k)
    ensures TotalPrincipal(Updated(loans, loans[k].id, SetAmount(a)))
         == TotalPrincipal(loans) - loans[k].amount + a
  {
    var r := Updated(loans, loans[k].id, SetAmount(a));
    UpdatedUnique(loans, k, SetAmount(a));
    assert r[..k] + r[k + 1..] == loans[..k] + loans[k + 1..];
    SumByWithout(loans, k, AmountOf);
    SumByWithout(r, k, AmountOf);
  }

  lemma SumByFirst(loans: seq<Loan>, f: Loan -> real)
    requires loans != []
    ensures SumBy(loans, f) == f(loans[0]) + SumBy(loans[1..], f)
  {
    assert loans == [loans[0]] + loans[1..];
    SumByAppend([loans[0]], loans[1..], f);
    SumBySingle(loans[0], f);
  }

  lemma SumBySplit(loans: seq<Loan>, k: nat, f: Loan -> real)
    requires k <= |loans|
    ensures SumBy(loans, f) == SumBy(loans[..k], f) + SumBy(loans[k..], f)
  {
    assert loans == loans[..k] + loans[k..];
    SumByAppend(loans[..k], loans[k..], f);
  }

  lemma SumByWithout(loans: seq<Loan>, k: nat, f: Loan -> real)
    requires k < |loans|
    ensures SumBy(loans[..k] + loans[k + 1..], f) == SumBy(loans, f) - f(loans[k])
  {
    SumBySplit(loans, k, f);
    SumByFirst(loans[k..], f);
    assert loans[k..][1..] == loans[k + 1..];
    SumByAppend(loans[..k], loans[k + 1..], f);
  }

  /** Removing the loan at position k (its id unique) takes its amount off the total. */
  lemma RemovedLowersTotal(loans: seq<Loan>, k: nat)
    requires IdOnlyAt(loans, k)
    ensures TotalPrincipal(Removed(loans, loans[k].id)) == TotalPrincipal(loans) - loans[k].amount
    ensures RateAmountSum(Removed(loans, loans[k].id)) == RateAmountSum(loans) - RateTimesAmount(loans[k])
  {
    var rest := Removed(loans, loans[k].id);
    RemovedUnique(loans, k);
    assert rest == loans[..k] + loans[k + 1..];
    SumByWithout(loans, k, AmountOf);
    SumByWithout(loans, k, RateTimesAmount);
    assert TotalPrincipal(rest) == TotalPrincipal(loans) - loans[k].amount;
    assert RateAmountSum(rest) == RateAmountSum(loans) - RateTimesAmount(loans[k]);
  }

  lemma ReplacedAtEndKeepsSums(loans: seq<Loan>, k: nat, again: Loan)
    requires k < |loans|
    requires again.amount == loans[k].amount && again.rate == loans[k].rate
    ensures TotalPrincipal(loans[..k] + loans[k + 1..] + [again]) == TotalPrincipal(loans)
    ensures RateAmountSum(loans[..k] + loans[k + 1..] + [again]) == RateAmountSum(loans)
  {
    var rest := loans[..k] + loans[k + 1..];
    SumByWithout(loans, k, AmountOf);
    SumByWithout(loans, k, RateTimesAmount);
    AppendedSums(rest, again);
    assert RateTimesAmount(again) == RateTimesAmount(loans[k]);
  }

  /** Removing a loan and appending one with the same amount and rate gives
      back the same total and the same Σ rate·amount. */
  lemma RemoveThenReAddKeepsSums(loans: seq<Loan>, k: nat, again: Loan)
    requires IdOnlyAt(loans, k)
    requires again.amount == loans[k].amount && again.rate == loans[k].rate
    ensures TotalPrincipal(Removed(loans, loans[k].id) + [again]) == TotalPrincipal(loans)
    ensures RateAmountSum(Removed(loans, loans[k].id) + [again]) == RateAmountSum(loans)
  {
    RemovedUnique(loans, k);
    ReplacedAtEndKeepsSums(loans, k, again);
  }

  /** ... and therefore the same average rate and every other figure. */
  lemma RemoveThenReAddKeepsProjection(loans: seq<Loan>, k: nat, again: Loan, budget: nat)
    requires IdOnlyAt(loans, k)
    requires again.amount == loans[k].amount && again.rate == loans[k].rate
    requires budget > 0 && TotalPrincipal(loans) != 0.0
    ensures TotalPrincipal(Removed(loans, loans[k].id) + [again]) == TotalPrincipal(loans)
    ensures Project(Removed(loans, loans[k].id) + [again], budget) == Project(loans, budget)
  {
    RemoveThenReAddKeepsSums(loans, k, again);
    SameSumsSameProjection(loans, Removed(loans, loans[k].id) + [again], budget);
  }

  /** The same, reached the way the page reaches it: remove the loan, press
      "Add Loan", then type the removed loan's amount and rate into the new row. */
  lemma RemoveThenAddAndFillInKeepsProjection(loans: seq<Loan>, k: nat, freshId: string, budget: nat)
    requires IdOnlyAt(loans, k)
    requires freshId !in Ids(Removed(loans, loans[k].id))
    requires budget > 0 && TotalPrincipal(loans) != 0.0
    ensures var rest := Removed(loans, loans[k].id);
      var after := Updated(Updated(Added(rest, freshId), freshId, SetAmount(loans[k].amount)),
                           freshId, SetRate(loans[k].rate));
      && after == rest + [Loan(freshId, LoanName(|rest| + 1), loans[k].amount, loans[k].rate, 0.0)]
      && TotalPrincipal(after) == TotalPrincipal(loans)
      && Project(after, budget) == Project(loans, budget)
  {
    var rest := Removed(loans, loans[k].id);
    var again := Loan(freshId, LoanName(|rest| + 1), loans[k].amount, loans[k].rate, 0.0);
    AddThenFillIn(rest, freshId, loans[k].amount, loans[k].rate);
    RemoveThenReAddKeepsProjection(loans, k, again, budget);
  }
}
