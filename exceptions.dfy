/**
 * The exceptions the model reports, one constructor each. The IOException of the
 * file operations and the null dereference in addDestination are not modelled.
 */
module Exceptions {

  datatype PlannerException =
    /** RouteNotFoundException: a catalogue index outside the catalogue. */
    | RouteNotFound(message: string)
    /** InvalidBudgetException: a budget that is not positive. */
    | InvalidBudget(message: string)
    /** NumberFormatException from Double.parseDouble on an imported cost field. */
    | NumberFormat(input: string)

  const InvalidBudgetMessage: string := "Budget must be greater than zero!"
  const RouteNotFoundPrefix: string := "Destination not found at index: "
}
