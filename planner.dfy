/**
 * The itinerary (TravelPlanner): the destinations a traveler has chosen, in the
 * order chosen, and the ledger every choice is charged to.
 */
module Planner {
  import opened Wrappers
  import opened Exceptions
  import opened Text
  import opened Destinations
  import opened Ledger
  import opened Catalogue

  /**
   * The line items that choosing d adds to the ledger, in order: the base cost,
   * then the transport of a city or the daily costs of a tour.
   */
  function LineItems(d: Destination): (items: seq<LineItem>)
    ensures |items| == if d.Plain? then 1 else 2
  {
    [LineItem(d.name + " (Base)", d.baseCost)] +
    match d
    case Plain(_, _, _, _) => []
    case City(_, _, _, _) => [LineItem(d.name + " (Transport)", d.TransportCost())]
    case Tour(_, _, _, _, _, _) =>
      [LineItem(d.name + " (Daily x" + IntToString(d.durationDays) + ")", d.DailyCost() * d.durationDays as real)]
  }

  /** The line items of a sequence of choices, one destination after the other. */
  function ItemsFor(ds: seq<Destination>): seq<LineItem>
  {
    if ds == [] then [] else ItemsFor(ds[..|ds| - 1]) + LineItems(ds[|ds| - 1])
  }

  /** The line items of a choice add up to what the destination contributes. */
  lemma LineItemsSum(d: Destination)
    ensures Sum(LineItems(d)) == Contribution(d)
  {
    var items := LineItems(d);
    var base := items[0];
    assert Sum([base]) == Sum([base][..0]) + base.amount == base.amount;
    if !d.Plain? {
      assert items == [base, items[1]] && items[..1] == [base];
      assert Sum(items) == base.amount + items[1].amount;
    } else {
      assert items == [base];
    }
  }

  /** A tour raises the ledger by exactly its total tour cost. */
  lemma TourChargesTotalTourCost(d: Destination)
    requires d.Tour?
    ensures Sum(LineItems(d)) == d.TotalTourCost()
  {
    LineItemsSum(d);
  }

  /** A tour's two items are told apart from another tour's of the same name by the duration in the label. */
  lemma DailyLabelsDistinguishDurations(d: Destination, e: Destination)
    requires d.Tour? && e.Tour? && d.name == e.name
    requires LineItems(d)[1].item == LineItems(e)[1].item
    ensures d.durationDays == e.durationDays
  {
    var prefix := d.name + " (Daily x";
    var a := IntToString(d.durationDays);
    var b := IntToString(e.durationDays);
    assert prefix + a + ")" == prefix + b + ")";
    assert (prefix + a + ")")[|prefix|..|prefix| + |a|] == a;
    assert (prefix + b + ")")[|prefix|..|prefix| + |b|] == b;
    assert |a| == |b|;
    IntToStringInjective(d.durationDays, e.durationDays);
  }

  /** The items of a sequence of choices add up to what the destinations contribute together. */
  lemma {:induction false} ItemsForSum(ds: seq<Destination>)
    ensures Sum(ItemsFor(ds)) == TotalContribution(ds)
  {
    if ds != [] {
      ItemsForSum(ds[..|ds| - 1]);
      SumAppend(ItemsFor(ds[..|ds| - 1]), LineItems(ds[|ds| - 1]));
      LineItemsSum(ds[|ds| - 1]);
    }
  }

  lemma ItemsForAppend(ds: seq<Destination>, d: Destination)
    ensures ItemsFor(ds + [d]) == ItemsFor(ds) + LineItems(d)
  {
  }

  /**
   * The addCost calls of addDestination: the base cost, then the transport of a
   * city or the daily costs of a tour, each as one line item.
   */
  method Charge(ledger: CostManager, dest: Destination)
    requires ledger.Valid()
    modifies ledger
    ensures ledger.Valid()
    ensures ledger.costBreakdown == old(ledger.costBreakdown) + LineItems(dest)
    ensures ledger.totalCost == old(ledger.totalCost) + Contribution(dest)
  {
    ghost var items := LineItems(dest);
    ledger.AddCost(dest.name + " (Base)", dest.baseCost);
    if dest.City? {
      ledger.AddCost(dest.name + " (Transport)", dest.TransportCost());
      assert items == [items[0], items[1]];
      assert Contribution(dest) == dest.baseCost + dest.TransportCost();
    } else if dest.Tour? {
      var daily := dest.DailyCost() * dest.durationDays as real;
      ledger.AddCost(dest.name + " (Daily x" + IntToString(dest.durationDays) + ")", daily);
      assert items == [items[0], items[1]];
      assert Contribution(dest) == dest.baseCost + daily;
    } else {
      assert items == [items[0]];
    }
  }

  class TravelPlanner {
    const travelerName: string
    /** The chosen destinations in the order chosen; duplicates are allowed. */
    var selectedDestinations: seq<Destination>
    /** The ledger, absent until a budget is set. */
    var costManager: CostManager?
    /** How many destinations had been chosen when the current ledger was created. */
    ghost var budgetSetAt: nat

    /**
     * The ledger holds exactly the line items of the destinations chosen since
     * it was created, in the order they were chosen.
     */
    ghost predicate Valid()
      reads this, costManager
    {
      && budgetSetAt <= |selectedDestinations|
      && (costManager != null ==>
            && costManager.Valid()
            && costManager.costBreakdown == ItemsFor(selectedDestinations[budgetSetAt..]))
    }

    constructor (travelerName: string)
      ensures Valid()
      ensures this.travelerName == travelerName && selectedDestinations == [] && costManager == null
    {
      this.travelerName := travelerName;
      selectedDestinations := [];
      costManager := null;
      budgetSetAt := 0;
    }

    /** Replaces the ledger by a fresh one with the given budget, or fails and keeps the old one. */
    method SetBudget(budget: real) returns (outcome: Outcome<PlannerException>)
      requires Valid()
      modifies this
      ensures Valid()
      ensures selectedDestinations == old(selectedDestinations)
      ensures outcome.Fail? <==> budget <= 0.0
      ensures outcome.Fail? ==> outcome.error == InvalidBudget(InvalidBudgetMessage) && costManager == old(costManager)
      ensures outcome.Pass? ==> fresh(costManager)
      ensures outcome.Pass? ==> costManager.budget == budget && costManager.totalCost == 0.0 && costManager.costBreakdown == []
    {
      var created := CostManager.Create(budget);
      match created {
        case Failure(e) =>
          outcome := Fail(e);
        case Success(ledger) =>
          costManager := ledger;
          budgetSetAt := |selectedDestinations|;
          outcome := Pass;
      }
    }

    /** Appends a destination to the itinerary and charges its line items to the ledger. */
    method AddDestination(dest: Destination)
      requires Valid() && costManager != null
      modifies this, costManager
      ensures Valid()
      ensures selectedDestinations == old(selectedDestinations) + [dest]
      ensures costManager == old(costManager) && budgetSetAt == old(budgetSetAt)
      ensures costManager.costBreakdown == old(costManager.costBreakdown) + LineItems(dest)
      ensures costManager.totalCost == old(costManager.totalCost) + Contribution(dest)
    {
      ghost var since := selectedDestinations[budgetSetAt..];
      ItemsForAppend(since, dest);
      assert (selectedDestinations + [dest])[budgetSetAt..] == since + [dest];
      selectedDestinations := selectedDestinations + [dest];
      Charge(costManager, dest);
    }

    /** The ledger's total is what the destinations chosen since it was created contribute. */
    lemma LedgerTotalMatchesSelection()
      requires Valid() && costManager != null
      ensures costManager.totalCost == TotalContribution(selectedDestinations[budgetSetAt..])
    {
      ItemsForSum(selectedDestinations[budgetSetAt..]);
    }
  }

  /**
   * A budget of 1000, then Paris and Bali from the catalogue: Paris alone keeps
   * the plan within budget, Bali takes it 650 over.
   */
  method ParisThenBali() returns (total: real, remaining: real, within: bool)
    ensures total == 1650.0 && remaining == -650.0 && !within
  {
    var catalogue := new LocationList();
    var planner := new TravelPlanner("Traveler");
    var budgetSet := planner.SetBudget(1000.0);
    var paris := catalogue.GetDestination(0);
    var bali := catalogue.GetDestination(3);
    assert paris.value == City("Paris", "France", 500.0, "The City of Light with iconic landmarks");
    assert bali.value.Tour? && bali.value.baseCost == 400.0 && bali.value.durationDays == 7;
    assert Contribution(paris.value) == 550.0;
    assert Contribution(bali.value) == 1100.0;
    planner.AddDestination(paris.value);
    assert planner.costManager.totalCost == 550.0;
    assert planner.costManager.RemainingBudget() == 450.0 && planner.costManager.IsWithinBudget();
    planner.AddDestination(bali.value);
    assert planner.costManager.totalCost == 1650.0;
    total := planner.costManager.totalCost;
    remaining := planner.costManager.RemainingBudget();
    within := planner.costManager.IsWithinBudget();
  }
}
