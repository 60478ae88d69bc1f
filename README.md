# Rent ledger

A model of the core of a household rent-splitting server. Each housemate owes a base rent. During the month they record shared expenses: who paid, how much, and each mate's portion. The server keeps each mate's balanced rent, which is the base rent, minus what they paid, plus their portions.

The server is either active, when expenses may be recorded, or disabled, while the household settles up. Resetting a disabled server does three things:
- it archives the month's computed ledger under its "YYYY-MM" key;
- it starts the next calendar month from an empty template;
- it makes the server active again.

Modules:
- `LedgerTypes` (`ledger_types.dfy`): the records (mates, expenses, stored and computed ledgers) and the deleted-flag update.
- `RentBalancer` (`balancer.dfy`):
  - `ComputeLedger` is the two loops of the ledger computation, proved against the specification function `Computed`;
  - lemmas on the effect of one expense, on deleting and restoring an expense, and on conservation of money.
- `Formatter` (`formatter.dfy`):
  - `DropDeleted` is the formatter's splice loop. It removes deleted expenses and stamps each survivor with its position in the stored list.
  - The survivors are then sorted most recent first, by a stable sort.
  - Lemmas state what the page shows and in what order.
- `Months` (`months.dfy`): parsing "YYYY-MM" keys and computing the next month's key, with the zero-padded month and the December roll-over.
- `Views` (`views.dfy`): which page a request renders, from its path and the server state.
- `Lifecycle` (`store.dfy`): the class `Store` with the server state, the active ledger and the archive. It has one method per request: `/`, `/refresh`, `/archive/<name>`, `/disabled`, `/back`, `/reset`, `/submit`, `/delete` and `/undo`.

Where the code and its description disagree, the model follows the code:
- The `index` stamped on a displayed expense is its position in the stored list, which is the position `/delete` and `/undo` act on. It is not its position after deleted expenses are removed.
- A closed month is archived under the raw "YYYY-MM" date of its ledger, not under the formatted month label.

Modelling choices:
- Money is an `int` number of cents.
- An expense's date is an `int` day number, where larger is more recent. The page formats expense dates by day, so expenses of one day tie and keep their stored order.
- Reading a ledger file and writing it back become the `active` and `archive` fields of `Store`. The configuration files (housemates and template) become constant fields.
- A request that throws before rendering is the response `Crash`:
  - `/reset` on an active server, whose template is still undefined;
  - `/delete` or `/undo` with a position that has no expense;
  - `/archive/<name>` for a month that was never archived;
  - rendering a ledger whose date is not a "YYYY-MM" date.
- `Store.Valid` keeps every stored key a "YYYY-MM" date with a four-digit year. It also keeps every expense applicable: its payer is a mate and it has a portion for every mate.

## Model

| member | source | states |
|---|---|---|
| LedgerTypes.WithDeleted | index.js:280 | setting the deleted flag of expense `k` changes that flag and no other expense |
| RentBalancer.BaseRent | index.js:47-53 | every configured mate's name is a key of the base-rent map |
| RentBalancer.AddPortions | index.js:66-69 | charging portions keeps exactly the same set of names |
| RentBalancer.Apply | index.js:60-69 | applying one expense keeps exactly the same set of names (a deleted expense is skipped) |
| RentBalancer.Balanced | index.js:55-70 | the balances have an entry for every mate and every name the balancer knows |
| RentBalancer.ComputeLedger | index.js:43-73 | the computed ledger keeps the date and list, and its base rents, total and balances are those of the specification functions, loop by loop |
| RentBalancer.ChargePortions | index.js:66-69 | the inner loop charges every mate their portion, as AddPortions specifies |
| RentBalancer.BaseRentOf | index.js:49-53 | with distinct names, each mate's base rent is their configured rent |
| RentBalancer.AddPortionsAt | index.js:66-69 | charging the first `n` portions raises mate `j` by its portion exactly when `j < n` |
| RentBalancer.ExpenseEffect | index.js:59-70 | a live expense lowers the payer's balance by the amount and raises every mate's by their portion; a deleted one changes nothing |
| RentBalancer.DeleteKeepsFit | index.js:280 | deleting or dropping an expense keeps every live expense applicable |
| RentBalancer.SkipDeleted | index.js:62-63 | balances over a list with a deleted expense equal those over the list without it, prefix by prefix |
| RentBalancer.DeletedIsInvisible | index.js:62-63 | once expense `k` is marked deleted, the balances are those of the list that never held it |
| RentBalancer.DeleteThenUndo | index.js:274-299 | delete gives the balances of the list without the expense; undo restores the list exactly |
| RentBalancer.MateSumOther | index.js:65-68 | changing a name no mate carries leaves the sum of the mates' balances alone |
| RentBalancer.NameOwner | index.js:49-51 | every key of the base-rent map is the name of some configured mate |
| RentBalancer.LastNameIsNew | index.js:49-51 | with distinct names, mate `n`'s name is not among the first `n` |
| RentBalancer.MateSumBump | index.js:65-68 | raising one mate's balance by `d` raises the sum over mates by `d` |
| RentBalancer.MateSumAddPortions | index.js:66-69 | charging the first `n` portions raises the sum over mates by the sum of those portions |
| RentBalancer.BaseRentSum | index.js:47-54 | with distinct names, the base rents add up to the total rent |
| RentBalancer.Conservation | index.js:47-70 | if every live expense is split exactly, the balanced rents add up to the total rent after any number of expenses |
| Formatter.Insert | index.js:111 | insertion adds exactly the new row (as a multiset) |
| Formatter.SortNewestFirst | index.js:111 | sorting is a permutation of its input |
| Formatter.FormatList | index.js:93-111 | the list pass of the formatter gives the survivors of the stored list, sorted newest first |
| Formatter.DropDeleted | index.js:93-108 | the splice loop leaves exactly the live expenses in stored order, each stamped with its stored position |
| Formatter.SurvivorsAreRows | index.js:95-103 | an entry survives if and only if it is a live expense stamped with its position |
| Formatter.SurvivorsIndexOrdered | index.js:94-103 | survivors' stamped positions strictly grow along the list |
| Formatter.InsertNewestFirst | index.js:111 | inserting a row that precedes all others in list order keeps the rows newest first, ties by position |
| Formatter.SortIsNewestFirst | index.js:111 | sorting rows with growing positions gives newest first, equal dates in stored order (a stable sort) |
| Formatter.ShowsExactlyLive | index.js:93-111 | a row is on the page if and only if it is a live expense of the stored list stamped with its stored position |
| Formatter.FormatNewestFirst | index.js:110-111 | the page's rows are most recent first, equal dates in stored order |
| Formatter.DistinctPositions | index.js:103 | no two rows of the page carry the same position |
| Formatter.RowIndexNamesItsExpense | index.js:103 | a row's position names its own expense in the stored list, the one delete and undo reach |
| Formatter.DeletingRowHidesIt | index.js:98-102 | deleting the expense behind a row removes exactly that row from the page |
| Months.NatToString | index.js:219 | a year is written as a nonempty string of decimal digits |
| Months.ParseKey | index.js:213 | a parsed key has seven characters, a dash at position 4, a month in 1..12 and a year in 0..9999 |
| Months.MonthAfter | index.js:214 | the next month is a valid month whose month number is one more |
| Months.NextMonthKey | index.js:213-219 | the next key is "NaN-NaN" if and only if the key is not a date |
| Months.FourDigitYear | index.js:215-219 | a four-digit year is written as its four digits |
| Months.TwoDigitMonth | index.js:216-218 | a month is written as two digits, zero-padded below 10 |
| Months.RenderParses | index.js:213-219 | a month of a four-digit year, written as a key, parses back to itself |
| Months.NextKeyIsNextMonth | index.js:213-219 | the key after a key parses, is seven characters long and names the next calendar month |
| Months.DecemberRollsOver | index.js:214-219 | "2024-12" is followed by "2025-01" |
| Months.FiveDigitYear | index.js:215-219 | a year of 10000 or more is written with at least five digits |
| Months.NextKeyStaysKey | index.js:213-219 | the next key is a key of the next month, except after December 9999, whose successor "10000-01" the model treats as not a date |
| Months.LastYearRollsOver | index.js:213-219 | "9999-12" is followed by "10000-01", which the model treats as not a date |
| Views.SelectView | index.js:128-147 | archive page if and only if characters 1-7 of the path spell "archive"; index page if and only if not that and active; alert if and only if disabled on a refresh or edit request; disabled page otherwise |
| Views.ArchiveIgnoresState | index.js:128-130 | an archive path renders the archive page in both states |
| Views.DisabledEditsAlert | index.js:140-143 | while disabled, edit requests get the pay-and-resubmit alert |
| Views.DisabledRefreshAlert | index.js:135-139 | while disabled, a refresh gets the plain reminder |
| Views.DisabledShowsDisabledPage | index.js:144-146 | while disabled, "/disabled" renders the disabled page |
| Lifecycle.Store.constructor | index.js:23 | the server starts from its stored state, ledgers and configuration |
| Lifecycle.Store.UpdateClient | index.js:115-148 | the response is the computed ledger, its formatted rows and the selected view, or a crash when the ledger date is not a date |
| Lifecycle.Store.Home | index.js:157-161 | GET / renders the active ledger and never crashes |
| Lifecycle.Store.Refresh | index.js:248-252 | POST /refresh renders the active ledger; while disabled, with the reminder alert |
| Lifecycle.Store.ShowArchive | index.js:241-245 | "active" renders the active ledger; an archived key renders that month recomputed; any other name crashes |
| Lifecycle.Store.Disable | index.js:165-176 | the server becomes disabled, the ledgers are unchanged, and the disabled page is rendered |
| Lifecycle.Store.Back | index.js:179-188 | the server becomes active, the ledgers are unchanged, and the index page is rendered |
| Lifecycle.Store.Reset | index.js:191-224 | from disabled: becomes active, archives the computed ledger under its date, installs the template dated one month later and renders it; after December 9999 the model treats the next key as not a date, so the render crashes and the active ledger stays. From active: crash, nothing changes |
| Lifecycle.Store.Submit | index.js:255-271 | while active, the expense is appended, live, at the end of the list; while disabled, nothing changes and the alert is shown |
| Lifecycle.Store.Delete | index.js:274-285 | while active, expense `k` is marked deleted, or the request crashes when `k` has no expense; while disabled, nothing changes and the alert is shown |
| Lifecycle.Store.Undo | index.js:288-299 | as Delete, with the expense marked live again |
| Lifecycle.Store.SetDeleted | index.js:277-283 | the shared body of delete and undo: sets the flag of expense `k` while active and renders the page |

## Left out

- Reading and writing JSON files, the Express routing, and rendering through pug templates. The model keeps the stored ledgers in fields and returns the page's data.
- The money strings: `toFixed` and the "$" prefix (index.js:77-83, 104). Balances stay numbers of cents.
- The month label and the expense dates as formatted by `Intl.DateTimeFormat` (index.js:85-91, 105-107). Formatting is modelled only as succeeding on a "YYYY-MM" date and crashing otherwise.
- JavaScript `Date` parsing of strings other than "YYYY-MM". Any other date is treated as invalid.
- Parsing the request body: `JSON.parse` of the portions, `parseFloat` of the amount, `parseInt` of the index (index.js:262-263, 280, 294). The methods take the parsed values.
- Lifecycle.Store.Submit: while active, it requires the new expense to name a mate and to carry a portion per mate. Otherwise the code's balances would become NaN, and floating point and NaN are not modelled.
- The archive menu (`GET /archive`, index.js:227-238), which lists the files of the archive directory.
- The `print` debugging helper and the console logging.
- Concurrency between requests. Each method runs to completion on its own.
- Formatter.SortNewestFirst: the engine's sort algorithm is modelled as a stable insertion sort. Only its result matters, and it is determined by stability.
- Lifecycle.Store.Reset: after a crash, the code has already written the computed ledger back to the active file. The model keeps `active` as the same ledger (same date and list); the derived figures it would carry are not modelled.
- Lifecycle.Store.Reset: after December 9999 the code computes the key "10000-01". The engine's lenient date parser most likely reads it as January 10000 and renders the page. The model accepts only "YYYY-MM" dates, so there it crashes instead and the active ledger is not replaced.
