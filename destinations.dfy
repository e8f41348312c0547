/**
 * Travel destinations. The Java class hierarchy Destination / CityPlan / TourPlan
 * becomes one datatype with a constructor per class; the fields every variant
 * shares come first.
 */
module Destinations {

  /** The transport cost every CityPlan is constructed with. */
  const DefaultTransportCost: real := 50.0

  /** The cost per day every TourPlan is constructed with. */
  const DefaultDailyCost: real := 100.0

  datatype Destination =
    /** A plain Destination, as imported from a file. */
    | Plain(name: string, country: string, baseCost: real, description: string)
    /** A CityPlan. */
    | City(name: string, country: string, baseCost: real, description: string)
    /** A TourPlan lasting durationDays days. */
    | Tour(name: string, country: string, baseCost: real, description: string,
           durationDays: int, tourType: string)
  {
    /** CityPlan.getTransportCost: fixed when the plan is constructed. */
    function TransportCost(): (cost: real)
      requires City?
      ensures cost > 0.0
    {
      DefaultTransportCost
    }

    /** TourPlan.getDailyCost: fixed when the plan is constructed. */
    function DailyCost(): (cost: real)
      requires Tour?
      ensures cost > 0.0
    {
      DefaultDailyCost
    }

    /** TourPlan.getTotalTourCost: the base cost plus a day's cost for every day of the tour. */
    function TotalTourCost(): (total: real)
      requires Tour?
      ensures total > baseCost <==> durationDays > 0
      ensures total == baseCost <==> durationDays == 0
    {
      baseCost + DailyCost() * durationDays as real
    }
  }

  /**
   * What choosing d costs in all, by variant: a plain destination its base cost,
   * a city its base cost and its transport, a tour its total tour cost.
   */
  function Contribution(d: Destination): real
  {
    match d
    case Plain(_, _, _, _) => d.baseCost
    case City(_, _, _, _) => d.baseCost + d.TransportCost()
    case Tour(_, _, _, _, _, _) => d.TotalTourCost()
  }

  /** The total contribution of a sequence of destinations. */
  function TotalContribution(ds: seq<Destination>): real
  {
    if ds == [] then 0.0 else TotalContribution(ds[..|ds| - 1]) + Contribution(ds[|ds| - 1])
  }
}
