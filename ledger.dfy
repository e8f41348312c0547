/** The cost ledger (CostManager): a fixed budget, a running total and the line items behind it. */
module Ledger {
  import opened Wrappers
  import opened Exceptions

  /**
   * One entry of the cost breakdown. The Java code stores the text
   * item + ": $" + cost; the model keeps the item text and the amount apart.
   */
  datatype LineItem = LineItem(item: string, amount: real)

  /** The sum of the amounts of the items. */
  function Sum(items: seq<LineItem>): real
  {
    if items == [] then 0.0 else Sum(items[..|items| - 1]) + items[|items| - 1].amount
  }

  lemma {:induction false} SumAppend(a: seq<LineItem>, b: seq<LineItem>)
    ensures Sum(a + b) == Sum(a) + Sum(b)
  {
    if b == [] {
      assert a + b == a;
    } else {
      SumAppend(a, b[..|b| - 1]);
      assert (a + b)[..|a + b| - 1] == a + b[..|b| - 1];
    }
  }

  class CostManager {
    /** The budget never changes once the ledger exists. */
    const budget: real
    var totalCost: real
    /** The line items in the order they were added. */
    var costBreakdown: seq<LineItem>

    /** The ledger's invariant: a positive budget and a total that is the sum of the line items. */
    ghost predicate Valid()
      reads this
    {
      budget > 0.0 && totalCost == Sum(costBreakdown)
    }

    /** The ledger once its budget has passed the check in Create. */
    constructor (budget: real)
      requires budget > 0.0
      ensures Valid()
      ensures this.budget == budget && totalCost == 0.0 && costBreakdown == []
    {
      this.budget := budget;
      totalCost := 0.0;
      costBreakdown := [];
    }

    /** new CostManager(budget): fails with InvalidBudget unless the budget is positive. */
    static method Create(budget: real) returns (r: Result<CostManager, PlannerException>)
      ensures r.Failure? <==> budget <= 0.0
      ensures r.Failure? ==> r.error == InvalidBudget(InvalidBudgetMessage)
      ensures r.Success? ==> fresh(r.value) && r.value.Valid()
      ensures r.Success? ==> r.value.budget == budget && r.value.totalCost == 0.0 && r.value.costBreakdown == []
    {
      if budget <= 0.0 {
        return Failure(InvalidBudget(InvalidBudgetMessage));
      }
      var ledger := new CostManager(budget);
      r := Success(ledger);
    }

    /** Records one line item; any amount is accepted, negative ones included. */
    method AddCost(item: string, cost: real)
      requires Valid()
      modifies this
      ensures Valid()
      ensures costBreakdown == old(costBreakdown) + [LineItem(item, cost)]
      ensures totalCost == old(totalCost) + cost
    {
      assert (costBreakdown + [LineItem(item, cost)])[..|costBreakdown|] == costBreakdown;
      totalCost := totalCost + cost;
      costBreakdown := costBreakdown + [LineItem(item, cost)];
    }

    /** What is left of the budget, negative once the ledger is over budget. */
    function RemainingBudget(): (remaining: real)
      reads this
      requires Valid()
      ensures remaining == budget - Sum(costBreakdown)
      ensures remaining >= 0.0 <==> IsWithinBudget()
    {
      budget - totalCost
    }

    function IsWithinBudget(): (within: bool)
      reads this
      requires Valid()
      ensures within <==> Sum(costBreakdown) <= budget
    {
      totalCost <= budget
    }
  }
}
