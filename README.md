# Smart Travel Planner — a verified model of the trip-planning core

The Smart Travel Planner is a console program. A traveler sets a budget and picks
destinations from a catalogue. The program keeps a cost ledger against the budget.
This project models the in-memory part of `SmartTravelPlanner.java` in Dafny:

- **Destinations** (`destinations.dfy`). The Java classes `Destination`, `CityPlan`
  and `TourPlan` become one datatype with the constructors `Plain`, `City` and
  `Tour`. A city's transport cost is fixed at 50. A tour's daily cost is fixed at 100.
  A tour's total cost is its base cost plus 100 for each day.
- **Cost ledger** (`ledger.dfy`, class `CostManager`). It has a positive budget that
  never changes, a running total, and the line items in the order they were added.
  Its invariant is that the total equals the sum of the line items.
- **Catalogue** (`catalogue.dfy`, class `LocationList`). It is seeded with six fixed
  entries. Lookup by index is bounds-checked. The read loop of `loadFromFile` is
  modelled over lines that have already been read.
- **Itinerary** (`planner.dfy`, class `TravelPlanner`). Adding a destination appends
  it to the selection and charges its line items to the ledger. Every destination
  gets a base line. A city also gets a transport line and a tour also gets a daily line.
- **Java string behaviour** (`text.dfy`). This covers the decimal rendering of an
  `int` inside a label, `String.trim()` and `String.split(",")`, with Java's rule
  that trailing empty fields are dropped.
- `wrappers.dfy` holds Option/Result/Outcome. `exceptions.dfy` holds one error
  constructor per exception the model reports (route not found, invalid budget,
  unparsable number).

Amounts are Dafny `real` numbers. The code adds and subtracts `double`s, compares
them, and multiplies a `double` by a small `int`; `real` does all of these exactly. Line items are kept as
`(item, amount)` pairs instead of the formatted text `item + ": $" + cost`.

Behaviour of the code worth noting:

- A cost field that does not parse does not skip its line. `Double.parseDouble`
  throws, and the throw ends the whole import. Lines appended before it stay in
  the catalogue (`Catalogue.Import`, `LoadLines`).
- The ledger total is not monotone. `addCost` accepts negative amounts.
- `"a,b,c,"` has only three fields after `split(",")`, so a line that ends right
  after its third comma (`name,country,cost,`) is skipped
  (`Catalogue.EmptyLastFieldSkipped`). An empty fourth field followed by more
  fields, as in `a,b,c,,e`, is kept and gives an empty description.

## Model

| member | source | states |
|---|---|---|
| Ledger.CostManager.Create | SmartTravelPlanner.java:309-316 | fails with InvalidBudget and the code's message exactly when the budget is not positive; otherwise a fresh valid ledger with that budget, total 0 and no line items |
| Ledger.CostManager.constructor | SmartTravelPlanner.java:313-315 | once the budget is positive: budget kept, total 0, breakdown empty, invariant established |
| Ledger.CostManager.AddCost | SmartTravelPlanner.java:318-321 | the total rises by exactly the amount (negative amounts accepted); exactly one item is appended at the end and earlier items are unchanged; total = sum of items is preserved |
| Ledger.SumAppend | SmartTravelPlanner.java:319 | the sum of the ledger's items splits over concatenation, so totals add up across additions |
| Ledger.CostManager.RemainingBudget | SmartTravelPlanner.java:325 | remaining = budget minus the sum of all recorded amounts; it is non-negative exactly when the ledger is within budget |
| Ledger.CostManager.IsWithinBudget | SmartTravelPlanner.java:326 | within budget exactly when the sum of all recorded amounts is at most the budget |
| Catalogue.LocationList.constructor | SmartTravelPlanner.java:220-223 | a new catalogue holds exactly the six seed entries |
| Catalogue.LocationList.LoadDefaultDestinations | SmartTravelPlanner.java:226-256 | appends the six seed entries, in order, after whatever the catalogue held |
| Catalogue.DefaultDestinationsOrder | SmartTravelPlanner.java:227-255 | the seed is Paris, Tokyo, New York as cities with base costs 500, 600, 700, then Bali (7 days), Swiss Alps (5), Dubai (4) as tours with base costs 400, 800, 900 |
| Catalogue.LocationList.GetDestination | SmartTravelPlanner.java:289-294 | fails with RouteNotFound and the index in the message exactly when index < 0 or index >= size; otherwise the entry at that position; reads the catalogue without changing it |
| Catalogue.ParseLine | SmartTravelPlanner.java:263-269 | a parsed line always gives a Plain destination |
| Catalogue.ParseLineCases | SmartTravelPlanner.java:263-267 | a line is skipped exactly when split gives fewer than 4 fields; otherwise it fails exactly when the trimmed field 2 does not parse |
| Catalogue.ParseFieldLine | SmartTravelPlanner.java:263-269 | a line of four or more comma-free fields with a non-empty last one, followed by any number of trailing commas, gives Plain(trimmed field 0, trimmed field 1, parsed field 2, trimmed field 3); the trailing empty fields and any fields after the fourth are ignored |
| Catalogue.CommaCutsDescription | SmartTravelPlanner.java:263-268 | a description holding a comma is cut at the comma: `Rome,Italy,300.0,Ancient,capital` imports with description `Ancient` |
| Catalogue.EmptyLastFieldSkipped | SmartTravelPlanner.java:263-264 | a line `name,country,cost,` is skipped, because split drops the trailing empty field |
| Catalogue.NoCommaSkipped | SmartTravelPlanner.java:263-264 | a line without a comma is skipped |
| Catalogue.Import | SmartTravelPlanner.java:262-271 | importing lines appends only Plain destinations, at most one per line |
| Catalogue.ImportFailsOnBadLine | SmartTravelPlanner.java:262-271 | the import fails exactly when some line has at least 4 fields and a cost that does not parse |
| Catalogue.ImportPassHasNoBadLine | SmartTravelPlanner.java:262-271 | after an import that did not fail, no line had a cost that does not parse |
| Catalogue.ImportFailureHasBadLine | SmartTravelPlanner.java:267 | an import that failed had a line whose cost does not parse |
| Catalogue.ImportStep | SmartTravelPlanner.java:262-270 | one more line after a prefix that has not failed is skipped, appends its destination, or stops the import |
| Catalogue.ImportStopsAtFailure | SmartTravelPlanner.java:267 | once a prefix of the lines has thrown, later lines change nothing |
| Catalogue.ImportCountsFieldLines | SmartTravelPlanner.java:264-269 | an import that does not fail adds exactly one destination per line with at least 4 fields |
| Catalogue.LocationList.LoadLine | SmartTravelPlanner.java:263-269 | one pass of the read loop after lines that all parsed: the catalogue becomes its old contents plus what the import of one more line adds, and the outcome is that import's outcome |
| Catalogue.LocationList.LoadLines | SmartTravelPlanner.java:262-271 | the read loop: the catalogue becomes its old contents plus the imported destinations, existing entries stay in place, and the outcome says whether a cost failed to parse |
| Planner.TravelPlanner.constructor | SmartTravelPlanner.java:356-359 | a new itinerary has the traveler's name, no destinations and no ledger |
| Planner.TravelPlanner.SetBudget | SmartTravelPlanner.java:361-363 | a positive budget replaces the ledger with a fresh empty one; a non-positive budget fails with InvalidBudget and leaves the old ledger; the selection is unchanged |
| Planner.Charge | SmartTravelPlanner.java:368-376 | the addCost calls of addDestination append exactly the destination's line items to the ledger, raise its total by the destination's contribution and keep the ledger's invariant |
| Planner.TravelPlanner.AddDestination | SmartTravelPlanner.java:366-378 | given a ledger, appends the destination (duplicates allowed) and appends its line items to the ledger in order: Base, then Transport for a city or Daily x<days> for a tour; the total rises by the destination's contribution; the ledger still matches the selection |
| Planner.TravelPlanner.LedgerTotalMatchesSelection | SmartTravelPlanner.java:366-378 | the ledger total equals the summed contributions of the destinations chosen since the ledger was created |
| Planner.LineItemsSum | SmartTravelPlanner.java:368-377 | a choice's line items add up to its cost contribution: base for a plain destination, base + 50 for a city, the total tour cost for a tour; one item for a plain destination and two otherwise |
| Destinations.Destination.TransportCost | SmartTravelPlanner.java:146-151 | a city's transport cost is positive (fixed at 50 when the plan is built) |
| Destinations.Destination.DailyCost | SmartTravelPlanner.java:177-182 | a tour's daily cost is positive (fixed at 100 when the plan is built) |
| Destinations.Destination.TotalTourCost | SmartTravelPlanner.java:185-187 | a tour costs more than its base exactly when it lasts at least one day, and exactly its base when it lasts zero days |
| Planner.TourChargesTotalTourCost | SmartTravelPlanner.java:185-187 | for a tour, getTotalTourCost (base + 100 × days) is exactly what adding the tour charges to the ledger |
| Planner.LineItems | SmartTravelPlanner.java:366-376 | adding a destination charges one line item for a plain destination and two for a city or a tour |
| Planner.DailyLabelsDistinguishDurations | SmartTravelPlanner.java:375 | two tours with the same name and the same daily label have the same duration |
| Planner.ItemsForSum | SmartTravelPlanner.java:366-378 | the items charged for a sequence of choices add up to their summed contributions |
| Planner.ItemsForAppend | SmartTravelPlanner.java:366-367 | choosing one more destination appends exactly its items after those of the earlier choices |
| Planner.ParisThenBali | SmartTravelPlanner.java:361-378 | with budget 1000, Paris then Bali give total 1650, remaining -650 and not within budget (after Paris alone: 550, 450, within) |
| Text.NatToStringRoundTrip | SmartTravelPlanner.java:375 | the day count in a label is written as decimal digits that read back as the number, with no leading zero for a positive number |
| Text.IntToString | SmartTravelPlanner.java:375 | Java's decimal rendering of an int: non-empty, a leading '-' exactly for a negative number, digits after the first character, and no leading zero before a non-zero magnitude |
| Text.IntToStringSign | SmartTravelPlanner.java:291 | a rendered int starts with '-' exactly when it is negative, followed by the digits of its magnitude |
| Text.IntToStringInjective | SmartTravelPlanner.java:375 | different ints render differently |
| Text.Trim | SmartTravelPlanner.java:265-268 | String.trim: the result is a contiguous slice of the input with only blanks before and after it, has no blank at either end, and a string without blank ends is unchanged |
| Text.TrimStartEndSlice | SmartTravelPlanner.java:265-268 | removing the leading and then the trailing blanks leaves the slice between two all-blank runs, with no blank at either end |
| Text.AllBlankChars | SmartTravelPlanner.java:265-268 | a string is all blank exactly when each of its characters is at most the space |
| Text.TrimStartRemovesBlanks | SmartTravelPlanner.java:265-268 | only a leading run of blanks (characters up to the space) is removed |
| Text.TrimEndRemovesBlanks | SmartTravelPlanner.java:265-268 | only a trailing run of blanks is removed |
| Text.SplitAllFields | SmartTravelPlanner.java:263 | no field of a split holds a comma |
| Text.JoinSplitAll | SmartTravelPlanner.java:263 | joining the fields with commas gives back the line |
| Text.SplitAllJoin | SmartTravelPlanner.java:263 | splitting comma-free fields joined by commas gives back the fields |
| Text.JavaSplit | SmartTravelPlanner.java:263 | String.split(","): a line without a comma is its own single field; otherwise the result is a prefix of all the comma-separated fields, everything cut off is empty, and it does not end in an empty field |
| Text.JavaSplitTrailingEmpty | SmartTravelPlanner.java:263 | split gives back comma-free fields joined by commas whose last field is not empty, however many trailing commas follow |
| Text.DropTrailingEmptyPrefix | SmartTravelPlanner.java:263 | split(",") keeps a prefix of the fields, drops only empty fields at the end, and never ends in an empty field |

## Left out

- The `main` menu loop, `Scanner` input and its `InputMismatchException` handling: interactive I/O.
- `displayInfo`, `displayAllDestinations`, `displayCostBreakdown` and `displayPlan`: they only print.
- `saveToFile`, and opening and reading the file in `loadFromFile`. `LoadLines` takes the lines that were read. A failure to open or read the file (`IOException`) is not modelled, and neither is how `readLine` splits the file into lines.
- `Double.parseDouble` is a parameter `parse: string -> Option<real>`. `None` stands for a `NumberFormatException`.
- Floating-point `double` behaviour: rounding, NaN and the infinities, and the rendering of `double` in labels and exports. Amounts are exact `real`s. `Double.parseDouble` and `Scanner.nextDouble` accept `"NaN"` and `"Infinity"`, and a NaN budget is not caught by `budget <= 0`, so the Java constructor accepts it; `Create`'s "fails exactly when not positive" says nothing about NaN.
- The attractions list of a `CityPlan` and `addAttraction`: they only affect display. The tour type is kept as a field but nothing uses it.
- `getAllDestinations` and the getters of name, country, base cost, description, duration and tour type: they are field reads of the datatype and classes. `getTransportCost`, `getDailyCost` and `getTotalTourCost` are modelled (`TransportCost`, `DailyCost`, `TotalTourCost`).
- Calling `addDestination` before `setBudget` dereferences a null `costManager`. `AddDestination` requires a ledger instead of modelling the crash.
- `durationDays` is an unbounded `int`, not a 32-bit Java `int`. The catalogue only holds 7, 5 and 4, and imported destinations are plain.
- Catalogue.ParseLine: its contract says only that the result is Plain. Its case analysis is stated in `ParseLineCases`, `ParseFieldLine`, `CommaCutsDescription`, `EmptyLastFieldSkipped` and `NoCommaSkipped`.
