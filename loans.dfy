/** The loan records and the three edits the calculator makes to its list of
    loans: append a blank loan, change one field of a loan, remove a loan. */
module Loans {
  import Decimal

  /** One loan as entered: money and rates are exact reals (rate is an annual
      percentage). `payment` is carried as data; no computation reads it. */
  datatype Loan = Loan(id: string, name: string, amount: real, rate: real, payment: real)

  /** A change of one field, with its new value already converted to its type.
      The identifier is never edited. */
  datatype Edit =
    | SetName(name: string)
    | SetAmount(amount: real)
    | SetRate(rate: real)
    | SetPayment(payment: real)

  function Ids(loans: seq<Loan>): set<string> {
    set i | 0 <= i < |loans| :: loans[i].id
  }

  predicate UniqueIds(loans: seq<Loan>) {
    forall i, j :: 0 <= i < j < |loans| ==> loans[i].id != loans[j].id
  }

  /** The id of the loan at position k is carried by no other loan. */
  predicate IdOnlyAt(loans: seq<Loan>, k: nat) {
    k < |loans| && forall j :: 0 <= j < |loans| && j != k ==> loans[j].id != loans[k].id
  }

  /** Display name of the n-th loan: "Loan " followed by n in decimal. */
  function LoanName(n: nat): string {
    "Loan " + Decimal.FromNat(n)
  }

  /** The name determines the number it was built from. The number is the list
      length at the time of adding, so loans themselves can share a name
      (see NamesCanRepeat). */
  lemma LoanNameInjective(m: nat, n: nat)
    ensures LoanName(m) == LoanName(n) <==> m == n
  {
    if LoanName(m) == LoanName(n) {
      assert LoanName(m)[5..] == Decimal.FromNat(m);
      assert LoanName(n)[5..] == Decimal.FromNat(n);
      Decimal.FromNatInjective(m, n);
    }
  }

  /** The loan appended by "Add Loan": fresh id, numbered after the existing ones, all numbers zero. */
  function BlankLoan(id: string, count: nat): Loan {
    Loan(id, LoanName(count + 1), 0.0, 0.0, 0.0)
  }

  function Added(loans: seq<Loan>, freshId: string): seq<Loan> {
    loans + [BlankLoan(freshId, |loans|)]
  }

  function Apply(loan: Loan, e: Edit): Loan {
    match e
    case SetName(n) => loan.(name := n)
    case SetAmount(a) => loan.(amount := a)
    case SetRate(r) => loan.(rate := r)
    case SetPayment(p) => loan.(payment := p)
  }

  /** `a` and `b` agree on every field that `e` does not set, and `b` holds the value `e` sets. */
  predicate OnlyEdited(a: Loan, b: Loan, e: Edit) {
    && b.id == a.id
    && (if e.SetName? then b.name == e.name else b.name == a.name)
    && (if e.SetAmount? then b.amount == e.amount else b.amount == a.amount)
    && (if e.SetRate? then b.rate == e.rate else b.rate == a.rate)
    && (if e.SetPayment? then b.payment == e.payment else b.payment == a.payment)
  }

  function Updated(loans: seq<Loan>, id: string, e: Edit): seq<Loan> {
    seq(|loans|, i requires 0 <= i < |loans| => if loans[i].id == id then Apply(loans[i], e) else loans[i])
  }

  function Removed(loans: seq<Loan>, id: string): seq<Loan> {
    if loans == [] then []
    else (if loans[0].id == id then [] else [loans[0]]) + Removed(loans[1..], id)
  }

  lemma NotInIds(loans: seq<Loan>, id: string)
    requires forall i :: 0 <= i < |loans| ==> loans[i].id != id
    ensures id !in Ids(loans)
  {
  }

  // ---- Add ----

  lemma AddedShape(loans: seq<Loan>, freshId: string)
    ensures |Added(loans, freshId)| == |loans| + 1
    ensures Added(loans, freshId)[..|loans|] == loans
    ensures Added(loans, freshId)[|loans|] == Loan(freshId, LoanName(|loans| + 1), 0.0, 0.0, 0.0)
    ensures Ids(Added(loans, freshId)) == Ids(loans) + {freshId}
  {
    var r := Added(loans, freshId);
    assert forall x :: x in Ids(r) ==> x in Ids(loans) + {freshId} by {
      forall x | x in Ids(r) ensures x in Ids(loans) + {freshId} {
        var i :| 0 <= i < |r| && r[i].id == x;
        if i < |loans| { assert loans[i].id == x; }
      }
    }
    assert r[|loans|].id == freshId;
  }

  lemma AddedKeepsUniqueIds(loans: seq<Loan>, freshId: string)
    requires UniqueIds(loans) && freshId !in Ids(loans)
    ensures UniqueIds(Added(loans, freshId))
  {
    var r := Added(loans, freshId);
    forall i, j | 0 <= i < j < |r| ensures r[i].id != r[j].id {
      if j == |loans| {
        assert loans[i].id in Ids(loans);
      }
    }
  }

  /** Names are not unique: from the initial list, add "a", remove "1", add "b",
      and both remaining loans are named "Loan 2". */
  lemma NamesCanRepeat()
    ensures var s0 := [Loan("1", "Loan 1", 10000.0, 5.0, 200.0)];
      var s3 := Added(Removed(Added(s0, "a"), "1"), "b");
      |s3| == 2 && s3[0].name == s3[1].name == LoanName(2)
  {
    var s0 := [Loan("1", "Loan 1", 10000.0, 5.0, 200.0)];
    var s1 := Added(s0, "a");
    assert s1 == [s0[0], BlankLoan("a", 1)];
    RemovedAppend([s0[0]], [BlankLoan("a", 1)], "1");
    RemovedSingle(s0[0], "1");
    RemovedSingle(BlankLoan("a", 1), "1");
    assert [s0[0], BlankLoan("a", 1)] == [s0[0]] + [BlankLoan("a", 1)];
    assert Removed(s1, "1") == [BlankLoan("a", 1)];
  }

  // ---- Update ----

  lemma ApplyOnlyEdits(loan: Loan, e: Edit)
    ensures OnlyEdited(loan, Apply(loan, e), e)
  {
  }

  lemma {:induction false} UpdatedShape(loans: seq<Loan>, id: string, e: Edit)
    ensures |Updated(loans, id, e)| == |loans|
    ensures forall i :: 0 <= i < |loans| && loans[i].id != id ==> Updated(loans, id, e)[i] == loans[i]
    ensures forall i :: 0 <= i < |loans| && loans[i].id == id ==> OnlyEdited(loans[i], Updated(loans, id, e)[i], e)
    ensures Ids(Updated(loans, id, e)) == Ids(loans)
  {
    var r := Updated(loans, id, e);
    forall i | 0 <= i < |loans| ensures r[i].id == loans[i].id {
      if loans[i].id == id { ApplyOnlyEdits(loans[i], e); }
    }
    assert forall i :: 0 <= i < |loans| ==> r[i].id == loans[i].id;
    forall i | 0 <= i < |loans| && loans[i].id == id ensures OnlyEdited(loans[i], r[i], e) {
      ApplyOnlyEdits(loans[i], e);
    }
    assert forall x :: x in Ids(r) ==> x in Ids(loans) by {
      forall x | x in Ids(r) ensures x in Ids(loans) {
        var i :| 0 <= i < |r| && r[i].id == x;
        assert loans[i].id == x;
      }
    }
    assert forall x :: x in Ids(loans) ==> x in Ids(r) by {
      forall x | x in Ids(loans) ensures x in Ids(r) {
        var i :| 0 <= i < |loans| && loans[i].id == x;
        assert r[i].id == x;
      }
    }
  }

  /** Updating an id that no loan has leaves the list as it was. */
  lemma UpdatedAbsentId(loans: seq<Loan>, id: string, e: Edit)
    requires id !in Ids(loans)
    ensures Updated(loans, id, e) == loans
  {
    forall i | 0 <= i < |loans| ensures loans[i].id != id {
      assert loans[i].id in Ids(loans);
    }
  }

  /** With unique ids, the one loan at position k carrying the id is the only one that changes. */
  lemma UpdatedUnique(loans: seq<Loan>, k: nat, e: Edit)
    requires IdOnlyAt(loans, k)
    ensures Updated(loans, loans[k].id, e) == loans[k := Apply(loans[k], e)]
  {
  }

  /** "Add Loan" followed by typing an amount and a rate into the new row:
      the list gains one loan with the fresh id, the positional name, that
      amount and rate, and payment 0; the loans before it are untouched. */
  lemma AddThenFillIn(loans: seq<Loan>, freshId: string, a: real, r: real)
    requires freshId !in Ids(loans)
    ensures Updated(Updated(Added(loans, freshId), freshId, SetAmount(a)), freshId, SetRate(r))
         == loans + [Loan(freshId, LoanName(|loans| + 1), a, r, 0.0)]
  {
    var added := Added(loans, freshId);
    var k := |loans|;
    forall j | 0 <= j < k ensures added[j].id != freshId {
      assert added[j] == loans[j];
      assert loans[j].id in Ids(loans);
    }
    assert IdOnlyAt(added, k);
    UpdatedUnique(added, k, SetAmount(a));
    var withAmount := Updated(added, freshId, SetAmount(a));
    assert withAmount == loans + [Loan(freshId, LoanName(k + 1), a, 0.0, 0.0)];
    assert IdOnlyAt(withAmount, k);
    UpdatedUnique(withAmount, k, SetRate(r));
  }

  // ---- Remove ----

  lemma {:induction false} RemovedAppend(a: seq<Loan>, b: seq<Loan>, id: string)
    ensures Removed(a + b, id) == Removed(a, id) + Removed(b, id)
  {
    if a == [] {
      assert a + b == b;
    } else {
      assert (a + b)[1..] == a[1..] + b;
      RemovedAppend(a[1..], b, id);
    }
  }

  /** The base case of the filter: with RemovedAppend it pins Removed down as
      the filter that keeps, in order, exactly the loans whose id differs. */
  lemma RemovedSingle(x: Loan, id: string)
    ensures Removed([x], id) == if x.id == id then [] else [x]
  {
    assert [x][1..] == [];
  }

  /** No survivor has the removed id, and every survivor comes from the list;
      with RemovedAppend and RemovedSingle this says Removed is an order-keeping filter. */
  lemma {:induction false} RemovedMembers(loans: seq<Loan>, id: string)
    ensures forall x :: x in Removed(loans, id) <==> x in loans && x.id != id
    ensures |Removed(loans, id)| <= |loans|
  {
    if loans != [] {
      RemovedMembers(loans[1..], id);
      assert loans == [loans[0]] + loans[1..];
    }
  }

  lemma {:induction false} RemovedAbsentId(loans: seq<Loan>, id: string)
    requires id !in Ids(loans)
    ensures Removed(loans, id) == loans
  {
    if loans != [] {
      assert loans[0].id in Ids(loans);
      assert Ids(loans[1..]) <= Ids(loans) by {
        forall x | x in Ids(loans[1..]) ensures x in Ids(loans) {
          var i :| 0 <= i < |loans[1..]| && loans[1..][i].id == x;
          assert loans[i + 1].id == x;
        }
      }
      RemovedAbsentId(loans[1..], id);
      assert loans == [loans[0]] + loans[1..];
    }
  }

  lemma RemovedIdempotent(loans: seq<Loan>, id: string)
    ensures Removed(Removed(loans, id), id) == Removed(loans, id)
  {
    var r := Removed(loans, id);
    RemovedMembers(loans, id);
    forall i | 0 <= i < |r| ensures r[i].id != id {
      assert r[i] in r;
    }
    RemovedAbsentId(r, id);
  }

  /** Removing the id of a loan that no loan before or after it carries takes out that loan alone. */
  lemma RemovedBetween(before: seq<Loan>, x: Loan, after: seq<Loan>)
    requires x.id !in Ids(before) && x.id !in Ids(after)
    ensures Removed(before + [x] + after, x.id) == before + after
  {
    RemovedAppend(before + [x], after, x.id);
    RemovedAppend(before, [x], x.id);
    RemovedSingle(x, x.id);
    RemovedAbsentId(before, x.id);
    RemovedAbsentId(after, x.id);
  }

  /** With unique ids, removing the id of position k takes out exactly that loan. */
  lemma RemovedUnique(loans: seq<Loan>, k: nat)
    requires IdOnlyAt(loans, k)
    ensures Removed(loans, loans[k].id) == loans[..k] + loans[k + 1..]
  {
    var id := loans[k].id;
    var before, after := loans[..k], loans[k + 1..];
    forall i | 0 <= i < |before| ensures before[i].id != id {
      assert before[i] == loans[i];
    }
    forall i | 0 <= i < |after| ensures after[i].id != id {
      assert after[i] == loans[k + 1 + i];
    }
    NotInIds(before, id);
    NotInIds(after, id);
    assert loans == before + [loans[k]] + after;
    RemovedBetween(before, loans[k], after);
  }

  lemma {:induction false} RemovedKeepsUniqueIds(loans: seq<Loan>, id: string)
    requires UniqueIds(loans)
    ensures UniqueIds(Removed(loans, id))
  {
    if loans != [] {
      RemovedKeepsUniqueIds(loans[1..], id);
      RemovedMembers(loans[1..], id);
      var r := Removed(loans, id);
      var tail := Removed(loans[1..], id);
      if loans[0].id != id {
        forall j | 0 < j < |r| ensures r[0].id != r[j].id {
          assert r[j] == tail[j - 1];
          assert tail[j - 1] in loans[1..];
          var m :| 0 <= m < |loans[1..]| && loans[1..][m] == tail[j - 1];
          assert loans[m + 1] == r[j];
        }
      }
    }
  }
}
