/** The calculator's state: the list of loans and the monthly budget chosen on
    the slider. Each button or field edit replaces the list with a new one. */
module Calculator {
  import opened Loans
  import opened Projection
  import opened EditEffects

  /** The budget slider runs from 0 to 2000 in steps of 10. */
  const MaxMonthlyPayment: nat := 2000
  const PaymentStep: nat := 10

  class LoanCalculator {
    var loans: seq<Loan>
    var monthlyPayment: nat

    /** Ids stay distinct, and the budget is a value the slider can produce. */
    ghost predicate Valid()
      reads this
    {
      && UniqueIds(loans)
      && monthlyPayment <= MaxMonthlyPayment
      && monthlyPayment % PaymentStep == 0
    }

    /** The initial state: one loan of 10000 at 5% (own payment 200) and a budget of 500. */
    constructor ()
      ensures Valid()
      ensures loans == [Loan("1", "Loan 1", 10000.0, 5.0, 200.0)]
      ensures monthlyPayment == 500
    {
      loans := [Loan("1", "Loan 1", 10000.0, 5.0, 200.0)];
      monthlyPayment := 500;
    }

    /** The figures on screen, for a budget that can be divided by and a total
        that can be divided by (or no loans). */
    function Figures(): Summary
      reads this
      requires monthlyPayment > 0
      requires loans == [] || TotalPrincipal(loans) != 0.0
    {
      Project(loans, monthlyPayment)
    }

    method SetMonthlyPayment(value: nat)
      requires Valid()
      requires value <= MaxMonthlyPayment && value % PaymentStep == 0
      modifies this
      ensures Valid()
      ensures monthlyPayment == value && loans == old(loans)
    {
      monthlyPayment := value;
    }

    /** "Add Loan": append a blank loan named after its position; the caller
        supplies an id no loan has yet. */
    method AddLoan(freshId: string)
      requires Valid()
      requires freshId !in Ids(loans)
      modifies this
      ensures Valid()
      ensures loans == Added(old(loans), freshId)
      ensures |loans| == |old(loans)| + 1 && loans[..|old(loans)|] == old(loans)
      ensures loans[|old(loans)|] == Loan(freshId, LoanName(|old(loans)| + 1), 0.0, 0.0, 0.0)
      ensures monthlyPayment == old(monthlyPayment)
      ensures old(monthlyPayment) > 0 && old(TotalPrincipal(loans)) != 0.0 ==>
        TotalPrincipal(loans) == old(TotalPrincipal(loans)) && Figures() == old(Figures())
    {
      AddedKeepsUniqueIds(loans, freshId);
      AddedShape(loans, freshId);
      if monthlyPayment > 0 && TotalPrincipal(loans) != 0.0 {
        AddedKeepsProjection(loans, freshId, monthlyPayment);
      }
      loans := Added(loans, freshId);
    }

    /** An edit of one field of the loan(s) with the given id. */
    method UpdateLoan(id: string, e: Edit)
      requires Valid()
      modifies this
      ensures Valid()
      ensures loans == Updated(old(loans), id, e)
      ensures |loans| == |old(loans)|
      ensures forall i :: 0 <= i < |loans| && old(loans)[i].id != id ==> loans[i] == old(loans)[i]
      ensures forall i :: 0 <= i < |loans| && old(loans)[i].id == id ==> OnlyEdited(old(loans)[i], loans[i], e)
      ensures id !in Ids(old(loans)) ==> loans == old(loans)
      ensures forall k :: 0 <= k < |old(loans)| && old(loans)[k].id == id ==>
        loans == old(loans)[k := Apply(old(loans)[k], e)]
      ensures monthlyPayment == old(monthlyPayment)
    {
      forall k | 0 <= k < |loans| && loans[k].id == id
        ensures Updated(loans, id, e) == loans[k := Apply(loans[k], e)]
      {
        UpdatedUnique(loans, k, e);
      }
      UpdatedShape(loans, id, e);
      if id !in Ids(loans) {
        UpdatedAbsentId(loans, id, e);
      }
      var updated := Updated(loans, id, e);
      assert UniqueIds(updated) by {
        forall i, j | 0 <= i < j < |updated| ensures updated[i].id != updated[j].id {
          assert updated[i].id == loans[i].id && updated[j].id == loans[j].id;
        }
      }
      loans := updated;
    }

    /** "Remove": drop every loan with the given id, keeping the others in order. */
    method RemoveLoan(id: string)
      requires Valid()
      modifies this
      ensures Valid()
      ensures loans == Removed(old(loans), id)
      ensures forall x :: x in loans <==> x in old(loans) && x.id != id
      ensures id !in Ids(loans)
      ensures id !in Ids(old(loans)) ==> loans == old(loans)
      ensures forall k :: 0 <= k < |old(loans)| && old(loans)[k].id == id ==>
        loans == old(loans)[..k] + old(loans)[k + 1..]
      ensures monthlyPayment == old(monthlyPayment)
    {
      forall k | 0 <= k < |loans| && loans[k].id == id
        ensures Removed(loans, id) == loans[..k] + loans[k + 1..]
      {
        RemovedUnique(loans, k);
      }
      RemovedKeepsUniqueIds(loans, id);
      RemovedMembers(loans, id);
      if id !in Ids(loans) {
        RemovedAbsentId(loans, id);
      }
      loans := Removed(loans, id);
      forall i | 0 <= i < |loans| ensures loans[i].id != id {
        assert loans[i] in loans;
      }
    }
  }
}
