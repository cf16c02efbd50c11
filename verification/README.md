# Electricity billing office: a Dafny model of its record keeping and billing

The program keeps three SQLite tables for an electricity board: `clients`,
meter `readings` and generated `bills`. An operator drives it through a
text menu. Below the prompts and the printing sits a small sequential core,
and this project models it as pure functions over an in-memory copy of the
tables (`Records.Store`):

- **Phone validation**: `re.fullmatch(r"\d{10}", phone)`.
- **Client registry**: registration with the `UNIQUE` meter number and
  AUTOINCREMENT ids, removal by id after a `y` confirmation, and reading
  entry. Removal deletes the client row only. Readings and bills of a
  removed client stay behind.
- **Billing**: the client's readings dated within `[start, end]` (both ends
  included) are taken in date order. With fewer than two of them there is
  no bill. Otherwise `units = last - first`, `amount = units * 5.0`, and the
  bill is stored as `"Unpaid"`.
- **Analysis**: bills are inner-joined to the clients that still exist. The
  analysis reports the sum, mean and maximum of the units, the sum of the
  amounts, and the five client names with the largest summed units.

Modules follow the sections of `bot.py`:

| file | module | what it holds |
|---|---|---|
| dates.dfy | `Dates` | the order SQLite uses to compare the `TEXT` date columns |
| sorting.dfy | `Sorting` | a stable insertion sort, shared by `ORDER BY date` and `sort_values` |
| validation.dfy | `Validation` | `validate_phone` |
| records.dfy | `Records` | the rows, the store, and the invariant of the `clients` table |
| registry.dfy | `Registry` | `add_client`, `remove_client`, `add_reading` |
| billing.dfy | `Billing` | `generate_bill` |
| analysis.dfy | `Analysis` | `show_analysis` |

Modelling choices:

- Dates stay strings, as the program stores them. `BETWEEN` and `ORDER BY`
  on a `TEXT` column use SQLite's BINARY collation. That is a byte-wise
  comparison of UTF-8 with a proper prefix first, which is the same as
  lexicographic code-point order (`Dates.Le`). It is proved to be a total
  order and to agree with the textbook definition of lexicographic order.
- Quantities are exact `real`s.
- An AUTOINCREMENT id is one more than the larger of two values: the
  table's `sqlite_sequence` entry (`Store.clientSeq`) and the largest id in
  the table.
- A failed insert is rolled back and changes nothing.
- An invalid phone makes the program ask again, so no insert is attempted.
  The model reports this as the outcome `InvalidPhone` with the store
  unchanged.
- `input(...).lower() == 'y'` is modelled as an answer of `y` or `Y`.
- SQL does not fix the order of readings with equal dates. pandas does not
  fix the order of equal totals. The model sorts stably, and each contract
  is stated so that it holds for every tie order. For example,
  `Billing.GenerateBillCharges` says the units are the value of *a* latest
  reading minus the value of *an* earliest one.

## Model

| member | source | states |
|---|---|---|
| `Validation.FullMatchDigits` | bot.py:50-52 | the regular expression `\d{n}` matches the whole string exactly when the string is `n` characters long and every character is a digit |
| `Validation.ValidPhone` | bot.py:50-52 | a phone is accepted exactly when it has ten characters and all are digits |
| `Dates.LeIsLexicographic` | bot.py:158-160 | the date comparison holds exactly when one string is a prefix of the other, or the strings first differ at a position where the first has the smaller code point |
| `Dates.LeAtFirstDifference` | bot.py:158-160 | two dates that agree up to a position and differ there are ordered, and distinct, by their characters at that position |
| `Dates.LeReflexive` | bot.py:158-160 | every date lies `BETWEEN` itself and itself |
| `Dates.LeTotal` | bot.py:158-160 | any two dates are comparable, so `ORDER BY date` is defined |
| `Dates.LeTransitive` | bot.py:158-160 | the date comparison is transitive |
| `Dates.LeAntisymmetric` | bot.py:158-160 | two dates each no later than the other are the same string |
| `Sorting.Insert` | bot.py:158-160 | inserting one element adds exactly that element to the multiset |
| `Sorting.InsertKeepsSorted` | bot.py:158-160 | inserting into a sorted sequence under a total preorder keeps it sorted |
| `Sorting.SortBy` | bot.py:158-160 | sorting keeps the length and the multiset of elements, so it is a permutation |
| `Sorting.SortByIsSorted` | bot.py:158-160 | under a total preorder the sort's result is ordered |
| `Sorting.PermutationKeepsNoDuplicates` | bot.py:231 | a permutation of a duplicate-free sequence is duplicate-free |
| `Records.EmptyStoreIsValid` | bot.py:12-43 | the freshly created empty tables satisfy the `clients` invariant |
| `Registry.MaxId` | bot.py:14 | the result bounds every client id and, when there are clients, equals one of them |
| `Registry.NextClientId` | bot.py:14 | the AUTOINCREMENT id exceeds `sqlite_sequence` and no current client has it |
| `Registry.AddClient` | bot.py:62-79 | an invalid phone is rejected and a taken meter number is refused, each exactly when it occurs and each with the store unchanged; otherwise exactly one row with a fresh id above every id handed out is appended, and the earlier rows, readings and bills stay as they were |
| `Registry.AddClientKeepsValid` | bot.py:13-19 | registration keeps ids increasing and bounded by `sqlite_sequence`, meter numbers unique, and phones valid |
| `Registry.SecondRegistrationOfMeterFails` | bot.py:74-79 | registering a second client with the same meter number fails with the client count unchanged |
| `Registry.WithoutId` | bot.py:112 | `DELETE ... WHERE id=?` keeps exactly the rows with another id and shrinks the table when the id was present |
| `Registry.WithoutAbsentId` | bot.py:112 | deleting an id no row has leaves the table unchanged |
| `Registry.WithoutUniqueId` | bot.py:112 | when one row alone has the id, deleting cuts out exactly that row and keeps the rest in order |
| `Registry.RemoveClient` | bot.py:104-116 | an absent id gives "not found" and a declined confirmation gives "cancelled", each exactly when it occurs and each with the store unchanged; a confirmed removal deletes that id's client and leaves readings, bills and `sqlite_sequence` unchanged |
| `Registry.RemoveClientDeletesExactlyOne` | bot.py:104-116 | in a valid store a confirmed removal deletes exactly the one client with that id, with the others in their order |
| `Registry.RemoveClientKeepsValid` | bot.py:104-116 | removal keeps the `clients` invariant |
| `Registry.DroppingClientKeepsValid` | bot.py:112 | dropping one row keeps ids increasing, meter numbers unique and phones valid |
| `Registry.RemovedIdIsNotReused` | bot.py:14 | a client registered after a removal gets an id above the removed one |
| `Registry.AddReading` | bot.py:129-131 | a reading is appended whatever its client id and value, and nothing else changes |
| `Registry.AddReadingKeepsValid` | bot.py:129-131 | adding a reading keeps the `clients` invariant |
| `Billing.Select` | bot.py:158-161 | the selection holds each reading of the client dated within the inclusive period as often as it is stored, and nothing else |
| `Billing.ByDateIsTotalPreorder` | bot.py:160 | `ORDER BY date` compares readings by a total preorder |
| `Billing.PeriodReadings` | bot.py:158-161 | the query returns a permutation of the selection in date order |
| `Billing.GenerateBill` | bot.py:158-176 | fewer than two readings in the period gives no bill and leaves the store unchanged; otherwise exactly one bill is appended with the client, the period, status `Unpaid` and amount = units × 5.0, and nothing else changes |
| `Billing.OrderedEnds` | bot.py:158-169 | in any date-ordered permutation of the selection, the first reading is an earliest one and the last is a latest one |
| `Billing.GenerateBillCharges` | bot.py:164-171 | the units are a latest reading's value minus an earliest reading's value; the two are distinct stored entries, and the difference may be negative |
| `Billing.UnitsIndependentOfTieOrder` | bot.py:158-169 | when the earliest and latest readings are unique, every date-ordered permutation gives the same units |
| `Billing.SameEnds` | bot.py:158-161 | two date-ordered permutations of the selection have the same first and last reading when the earliest and the latest are unique |
| `Billing.GenerateBillKeepsValid` | bot.py:173-176 | billing keeps the `clients` invariant |
| `Billing.TwoReadingBillCharges` | bot.py:158-176 | two in-period readings in date order are billed, unpaid, at the fixed rate; the units are the later value minus the earlier when the dates differ, and one of the two differences when they are equal, as either tie order may come back |
| `Billing.TwoReadingPeriod` | bot.py:158-161 | two in-period readings of one client in date order come back from the query as both readings, in one order or the other; when their dates differ, the earlier comes first |
| `Billing.TwoDatedReadingsBill` | bot.py:158-176 | two readings on distinct dates, with the period running from the first date to the second, bill the later value minus the earlier, at the fixed rate, unpaid |
| `Billing.TwoReadingBill` | bot.py:164-176 | readings of 100 and then 135 bill 35 units and 175.0, unpaid |
| `Billing.DecreasingReadingsBillNegative` | bot.py:164-176 | readings of 90 and then 60 bill −30 units |
| `Analysis.JoinBill` | bot.py:210-211 | a bill yields rows carrying the name of a client with its id, as many rows as clients carry that id, and no row when no client has it |
| `Analysis.Join` | bot.py:210-211 | a row occurs in the join exactly when some bill and some client with the bill's client id give it; how often is stated by `Analysis.JoinBill` and `Analysis.JoinOfIncreasingIds` |
| `Analysis.KnownBills` | bot.py:210-211 | the bills that take part in the inner join: each bill whose client exists, as often as it is stored, and no other |
| `Analysis.JoinOfIncreasingIds` | bot.py:210-211 | with increasing client ids the join has exactly one row per bill whose client exists, carrying that bill's units and amount and its client's name |
| `Analysis.JoinBillOfIncreasingIds` | bot.py:210-211 | with increasing client ids a single bill joins to one row when its client exists and to none otherwise |
| `Analysis.OrphanBillIgnored` | bot.py:210-211 | a bill whose client no longer exists adds nothing to the analysis |
| `Analysis.JoinBillOfValid` | bot.py:210-211 | in a valid store a bill whose client exists yields exactly one row, with that client's name |
| `Analysis.JoinBillOfUniqueId` | bot.py:210-211 | with increasing client ids, a bill matching client `k` yields exactly that client's row |
| `Analysis.SumOfAppend` | bot.py:220-221 | a sum over a concatenation is the sum of the two parts |
| `Analysis.SumOfPointwise` | bot.py:220-221 | two sums agree when their terms agree position by position |
| `Analysis.SumOfPermutation` | bot.py:220-221 | total units and total amount do not depend on the order of the joined rows |
| `Analysis.MaxUnits` | bot.py:223 | the maximum is at least every row's units and equals some row's units |
| `Analysis.SumAtMostCountTimesMax` | bot.py:220-223 | the total units are at most the row count times any bound on the units |
| `Analysis.MeanAtMostBound` | bot.py:220-223 | the mean units are at most any bound on the units |
| `Analysis.RowsNamed` | bot.py:231 | the rows of a name are the rows carrying that name, each as often as it occurs, and no other |
| `Analysis.UnitsOfAppend` | bot.py:231 | one more row adds its units to its own name's sum and to no other |
| `Analysis.LookupAt` | bot.py:231 | in a list with distinct names, looking up an entry's name gives that entry's total |
| `Analysis.AddUnits` | bot.py:231 | adding units to a name raises that name's total by exactly those units and leaves every other total alone |
| `Analysis.AddUnitsListed` | bot.py:231 | after adding, the listed names are the earlier ones plus the new one |
| `Analysis.AddUnitsKeepsDistinct` | bot.py:231 | adding units keeps names distinct |
| `Analysis.GroupTotals` | bot.py:231 | grouping gives one entry per name that occurs in the rows, and each entry's total is that name's summed units |
| `Analysis.ByTotalDescendingIsTotalPreorder` | bot.py:231 | descending order of totals is a total preorder |
| `Analysis.RankedTotals` | bot.py:231 | the ranked list is a permutation of the groups with totals non-increasing |
| `Analysis.RankedTotalsDistinct` | bot.py:231 | ranking keeps the grouped entries, so the ranked names stay distinct |
| `Analysis.TopConsumers` | bot.py:231-232 | at most five entries, with totals non-increasing |
| `Analysis.TopConsumersAreLargest` | bot.py:231-232 | the list has at most five entries and distinct names, each name with its summed units, largest first; a name that is left out means the list is full and every listed total is at least that name's |
| `Analysis.OmittedNameRanksLower` | bot.py:231-232 | a name of the rows left off the top list means the list is full and every listed total is at least that name's summed units |
| `Analysis.SameNameSameEntry` | bot.py:231 | in a list with distinct names, two entries with the same name are the same entry |
| `Analysis.EntryTotal` | bot.py:231 | each grouped entry's total is what looking up its name gives |
| `Analysis.Summarize` | bot.py:220-232 | total units and total amount are the sums over the joined rows; the mean is their quotient by the row count and is at most the maximum; the maximum bounds every row's units and is attained; the top list is the top consumers |
| `Analysis.Analyze` | bot.py:210-232 | no report exactly when no bill's client id belongs to an existing client; otherwise the summary of the joined rows, which are then not empty |
| `Analysis.JoinEmptyIff` | bot.py:210-216 | the inner join is empty exactly when no bill has an existing client |
| `Analysis.AnalysisTotalsAreBillSums` | bot.py:210-221 | in a valid database there is a report exactly when some bill's client exists, and the total units and total amount are the sums over exactly those bills, duplicates included |
| `Analysis.ThreeBillAnalysis` | bot.py:210-232 | bills A:10, B:20 and A:5 give total 35, amount 175, maximum 20 and the ranking B 20, then A 15 |
| `Analysis.ThreeBillRows` | bot.py:210-211 | those three bills join to three rows (listed in the model's bill order, an order SQL leaves open) |
| `Analysis.ThreeBillSums` | bot.py:220-221 | those rows sum to 35 units and 175.0 |
| `Analysis.ThreeBillTop` | bot.py:231-232 | those rows rank B 20 ahead of A 15 |
| `Analysis.ThreeBillMax` | bot.py:223 | those rows peak at 20 units |

## Left out

- The SQLite connection, the SQL text and the DDL of `create_tables`
  (bot.py:8-46). The tables are sequences here. Durability is not
  modelled.
- Reading and bill ids. Nothing in the core reads them; a row's position
  in its sequence stands in for its id.
- The AUTOINCREMENT failure when the largest id is 2^63 − 1 (`SQLITE_FULL`).
  Ids are unbounded integers.
- Prompting, `strip()` of typed text, printing, and pandas display. This
  covers `view_clients`, `view_readings`, `view_bills` and `main_menu`
  (bot.py:56-67, 83-91, 136-146, 195-204, 240-277). Listing is left out.
  `view_clients` shows the `clients` table as stored. `view_readings`
  joins readings to clients and orders them by date, so it shows only
  readings whose client exists. `view_bills` uses the same join condition
  as `Analysis.Join` but prints more columns: the bill id, the dates and
  the status.
- Parsing of typed numbers. In `remove_client` a non-numeric id aborts the
  operation (bot.py:96-100). In `add_reading` a non-numeric value raises an
  uncaught `ValueError` (bot.py:125). `add_reading` and `generate_bill`
  never parse the typed client id (bot.py:123, 152): SQLite's INTEGER
  affinity stores an integer-looking id as an integer, but `abc` stays
  TEXT and `1.5` becomes the REAL 1.5. Such a reading is still selected
  by `generate_bill` with the same text, and the bill it yields stores
  that id, which matches no client and so never joins. The model takes
  ids as `int` and readings as `real`; every id that is not an integer
  stands for an `int` no client has, which behaves the same way.
- `Registry.RemoveClient`: `int(input())` (bot.py:97) accepts integers
  outside SQLite's signed 64-bit range, and binding one at bot.py:104
  raises an uncaught `OverflowError` that ends the program. The model has
  no such error path: it reports `NotFound` for those ids.
- `Validation.ValidPhone`: accepts only the ASCII digits `0`-`9`. Python's
  `\d` on a `str` also matches the other Unicode decimal digits, such as
  Arabic-Indic ones, so the program accepts phones the model rejects.
- `Validation.FullMatchDigits`: the same ASCII-only reading of `\d`.
- `Billing.GenerateBill`: units and amount are exact. The program rounds
  both to two decimals with NumPy's round-half-even on binary floats
  (bot.py:169-171). Floating point is not modelled.
- `Analysis.Summarize`: sums, mean and maximum are exact. NumPy's float
  sums and the `:.2f` display of the mean (bot.py:220-227) are not
  modelled.
- How ties are ordered: readings with equal dates under `ORDER BY`, and
  equal totals under pandas' `sort_values`. The model breaks ties by
  insertion order, but no stated property depends on it. pandas also sorts
  the groups by name before ranking them, which again only affects ties.
