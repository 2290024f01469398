# Calorie counter service: a Dafny model of the calculation

The service keeps a fixed catalog of foods, each a name with its calories
per unit. `GET /api/foods` returns that catalog. `POST /api/calculate`
receives a list of selected foods, each a name and a quantity. For each
item in turn it finds the first catalog record with exactly that name. It
adds that record's calories times the item's quantity to a running total
that starts at 0. Items with an unknown name are skipped without error.
The response is the final total.

The model has three modules:

- `Wrappers`: the `Option` type returned by the lookup.
- `FoodCatalog`: the `FoodRecord` datatype and the first-match lookup `Find`.
  The catalog is a `seq<FoodRecord>` parameter. `GET /api/foods`
  (backend/server.js:12-14) serves this value as it is. A sequence is a
  value, so no operation of the model can change the catalog. This is how
  the model captures that the catalog is read-only between requests.
- `CalorieCalculator`: the `SelectionItem` datatype, each item's
  `Contribution`, and the specification `Total`, which sums the
  contributions over the list. `Calculate` is a method whose `for` loop
  updates a running total the way the handler's `forEach` does, and it is
  proved equal to `Total`. Lemmas about `Total` state the handler's
  properties.

Calories and quantities are exact `real` numbers.

Two behaviours of the code are worth stating plainly:

- Nothing in the code makes catalog names unique. `find` takes the first
  record with the name. `Find` does the same, and `FindReturnsFirstMatch`
  states which record wins.
- A request without `selectedFoods` gets no response from the handler:
  line 21 throws a TypeError, and Express's default error handler answers
  with status 500. The model takes the selection list as a sequence
  parameter, so the list always exists.

## Model

| member | source | states |
|---|---|---|
| `FoodCatalog.Find` | backend/server.js:22 | a found record is in the catalog and has exactly the requested name; the result is `None` if and only if no record has that name |
| `FoodCatalog.FindReturnsFirstMatch` | backend/server.js:22 | when several records share the name, the lookup returns the one at the first position that has it |
| `FoodCatalog.FindInConcatenation` | backend/server.js:22 | the search runs in catalog order: a match in an earlier part of the catalog hides every later record of that name |
| `FoodCatalog.FindIsCaseSensitive` | backend/server.js:22 | names are compared by exact string equality: "apple" does not find "Apple", and "Apple" does |
| `CalorieCalculator.Contribution` | backend/server.js:22-25 | what one item adds: nothing when no catalog record has its name |
| `CalorieCalculator.ContributionOfFirstMatch` | backend/server.js:22-24 | an item whose name first appears at catalog position i adds that record's calories times the item's quantity |
| `CalorieCalculator.Total` | backend/server.js:19-26 | the sum of every item's contribution, in list order; a selection none of whose names the catalog knows totals 0 |
| `CalorieCalculator.Calculate` | backend/server.js:17-29 | the accumulator loop, starting from 0 and adding each matched item's calories times quantity, ends equal to the sum of every item's contribution (`Total`) |
| `CalorieCalculator.TotalOfEmptySelection` | backend/server.js:19-28 | an empty selection totals 0 |
| `CalorieCalculator.TotalAppend` | backend/server.js:21-26 | one more item at the end raises the total by exactly that item's contribution (the loop invariant step) |
| `CalorieCalculator.TotalConcat` | backend/server.js:21-26 | the total of two lists joined is the sum of their totals |
| `CalorieCalculator.UnknownItemContributesNothing` | backend/server.js:22-25 | an item whose name matches no record contributes 0, and inserting it anywhere leaves the total unchanged |
| `CalorieCalculator.KnownItems` | backend/server.js:23 | the items that pass the `if (food)` test: every occurrence of an item whose name has a catalog match is kept, as many times as it appears in the selection, and every other item is dropped; nothing is added |
| `CalorieCalculator.TotalOfKnownItems` | backend/server.js:23-25 | dropping every unknown item from the selection gives the same total |
| `CalorieCalculator.RepeatedItemCountsEachTime` | backend/server.js:21 | a food selected n times counts n times its contribution: there is no de-duplication |
| `CalorieCalculator.TotalOfCopies` | backend/server.js:21-26 | a selection made only of copies of one item totals its length times that item's contribution |
| `CalorieCalculator.TotalRemoveAt` | backend/server.js:21-26 | taking the item at any position out of a selection lowers the total by exactly that item's contribution |
| `CalorieCalculator.TotalIgnoresOrder` | backend/server.js:21-26 | each item contributes on its own: any reordering of the selection gives the same total |
| `CalorieCalculator.TotalNonNegative` | backend/server.js:24 | with non-negative calories and quantities the total is never negative |
| `CalorieCalculator.KnownFoodsExample` | backend/server.js:21-26 | with Apple at 95 and Banana at 105, two apples and one banana total 295 |
| `CalorieCalculator.UnknownFoodExample` | backend/server.js:22-25 | three of an unknown food ("Mango") total 0 |

## Left out

- Express app setup, CORS, JSON body parsing and `res.json` serialisation (backend/server.js:1-9, 13, 28) are framework glue. The model returns the values the responses carry.
- `app.listen`, the fixed port 5000 and the start-up log line (backend/server.js:6, 31-33) are network I/O.
- The contents of `./data/foodData` (backend/server.js:3) are not part of this model. The catalog is an arbitrary sequence parameter.
- Malformed requests are not modelled, because the selection is a parameter of type `seq<SelectionItem>`. Line 21 throws a TypeError when `selectedFoods` is missing or is not an array: a string, number, object or `null`. Line 22 throws on a `null` element whenever the catalog is non-empty. In each case the handler sends nothing, and Express's default error handler answers with status 500.
- JavaScript number semantics are not modelled. The model uses exact `real` arithmetic, so it has no rounding, no `NaN` from missing or non-numeric quantities, and no infinities.
- CalorieCalculator.TotalConcat: holds for exact reals only. In the service it holds only while every product and partial sum is exact in double precision, for example integer values below 2^53, because JavaScript's `+=` on doubles is not associative.
- CalorieCalculator.TotalIgnoresOrder: holds for exact reals only, for the same reason. One known item at 1 calorie with quantities 0.1, 0.2 and 0.3 totals 0.6000000000000001 in that order and 0.6 in reverse order.
- CalorieCalculator.TotalRemoveAt: holds for exact reals only, for the same reason: removing an item from the middle regroups the sums after it.
- CalorieCalculator.RepeatedItemCountsEachTime: holds for exact reals only, because repeated double addition is not multiplication. Ten items of quantity 0.1 total 0.9999999999999999, while 10 * 0.1 is 1.
- CalorieCalculator.TotalOfCopies: holds for exact reals only, for the same reason as RepeatedItemCountsEachTime.
- Concurrency between requests is not modelled. The handler keeps no state of its own, and the catalog is never written.
