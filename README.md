# gnucash-insert-prices, modelled in Dafny

`gnucash-insert-prices.py` imports security quotes into a GnuCash book. Each
quote record has a date, an ISIN, a price, and optionally a stock name, a
currency and a namespace. For each record the script finds the currency by
its ISO 4217 code. It then finds the commodity: by ISIN when one is given,
otherwise by full name, searching one namespace or all of them. Last it looks
for a price of that (commodity, currency) pair on the same calendar day. If
there is none, it adds a price with the "user" source (2). If there is one
within 0.02 of the quote, the record is skipped. If the stored price is
further away, the record raises. Errors are counted record by record, and
the book is saved only when no record raised.

The project models this as follows:

- `wrappers.dfy`: `Option` and `Result`.
- `ledger.dfy` (module `Ledger`): commodities, the commodity table (the
  namespace names plus each namespace's commodities, in table order),
  timestamps (a calendar day plus a second within it), price records, and
  the constants `ISO4217`, 2 and 0.02.
- `commodity_resolver.dfy` (module `CommodityResolver`):
  - `get_namespaces_list`, `get_commodity_by_isin`, `get_commodity_by_fullname`
    and `get_currency`;
  - the two nested search loops are methods proved equal to a first-match
    specification function `Lookup`.
- `price_lookup.dfy` (module `PriceLookup`): `find_price`. The method is
  proved equal to `SameDayPrice`, which returns the first price of the pair
  whose day is the target day.
- `price_upsert.dfy` (module `PriceUpsert`): the decision `add_price` takes,
  as pure functions.
  - `Resolve` checks the keys, the currency and the commodity.
  - `Decide` chooses between insert, keep and conflict.
  - `Apply` and `Reply` give the new database and the returned value.
- `batch.dfy` (module `Batch`): `do_insert_prices` over a sequence of
  records, as the fold `Run`. Each record runs against the database its
  predecessors left and produces one status line (ADD, SKIP or ERR).
- `price_import.dfy` (module `PriceImport`):
  - the imperative program: a `Book` class whose `prices` field `AddPrice`
    extends in place;
  - the record loop `DoInsertPrices`;
  - `InsertPrices`, which saves the database only when the error count is 0.

  Each method is proved to compute what the functions above specify.

Two details of the code:

- A record without `StockName` passes Python's `None` as the full name.
  So the "either isin or fullname" check (source line 125) does not fire
  for a record with an empty ISIN and no stock name. The model follows the
  code: that record fails in the full-name lookup instead, with a
  `LookupError` (`Batch.MissingStockNameFails`).
- The conflict message swaps the two values (line 156). Here the model
  uses the corrected error, which reports the stored price as the old
  value (`PriceUpsert.ConflictNamesStoredValue`). For every conflict,
  `PriceUpsert.ConflictAsWrittenNamesQuote` states the error the code
  raises instead (see Findings).

## Model

| member | source | states |
|---|---|---|
| CommodityResolver.NamespacesList | gnucash-insert-prices.py:40-51 | No namespace list exactly when a non-empty name names no namespace; the empty name gives every namespace; otherwise the single named namespace |
| CommodityResolver.NamespacesListSelects | gnucash-insert-prices.py:40-51 | In a well-formed table the chosen namespaces are exactly the existing ones the name selects |
| CommodityResolver.GetCurrency | gnucash-insert-prices.py:34-37 | The currency found has the requested code and belongs to the ISO4217 namespace; none is found exactly when no ISO4217 commodity has that code |
| CommodityResolver.ScanNamespace | gnucash-insert-prices.py:76-78 | The inner loop returns the position of the first commodity of one namespace whose field equals the key, or none when there is none |
| CommodityResolver.ScanScope | gnucash-insert-prices.py:73-79 | The outer loop returns the first match of the scope in namespace-then-commodity order, or none |
| CommodityResolver.GetCommodity | gnucash-insert-prices.py:64-96 | The shared search equals the specification `Lookup`: nothing for an empty key or a missing namespace, else the first scoped match |
| CommodityResolver.GetCommodityByIsin | gnucash-insert-prices.py:64-79 | An empty ISIN gives none; a found commodity carries the ISIN; the result is the first scoped match by ISIN |
| CommodityResolver.GetCommodityByFullname | gnucash-insert-prices.py:81-96 | An empty full name gives none; a found commodity carries the full name; the result is the first scoped match by full name |
| CommodityResolver.Lookup | gnucash-insert-prices.py:66-71 | An empty key or a missing namespace gives none; a found commodity matches the key |
| CommodityResolver.LookupIsFirstMatch | gnucash-insert-prices.py:73-78 | A found commodity is the first match of the scope, with no earlier commodity matching, and it belongs to one of the scoped namespaces |
| CommodityResolver.LookupNoneIff | gnucash-insert-prices.py:73-79 | With a non-empty key and an existing scope, nothing is found exactly when no scoped commodity carries the key |
| CommodityResolver.LookupStaysInNamespace | gnucash-insert-prices.py:42-46 | A search restricted to a namespace returns a commodity of that namespace |
| CommodityResolver.OwnNamespaceFindsIsin | gnucash-insert-prices.py:64-79 | Every commodity with an ISIN is found by that ISIN in its own namespace |
| CommodityResolver.OtherNamespaceFindsNothing | gnucash-insert-prices.py:64-96 | A namespace without the key yields nothing, whatever other namespaces hold |
| CommodityResolver.ScopedCommoditiesMembers | gnucash-insert-prices.py:73-76 | The scanned commodities are exactly those of the chosen namespaces |
| CommodityResolver.FirstMatchInNamespace | gnucash-insert-prices.py:73-78 | A match in namespace i after no match in earlier namespaces is the first match of the whole scope |
| CommodityResolver.NoMatchInNamespace | gnucash-insert-prices.py:73-79 | A namespace without a match extends the match-free part of the scope |
| CommodityResolver.FindIndex | gnucash-insert-prices.py:76-78 | The index found matches the key and no earlier one does; none exactly when nothing matches |
| PriceLookup.PricesFor | gnucash-insert-prices.py:102 | The prices of a pair are exactly the database's prices with that commodity and currency |
| PriceLookup.FirstOnDay | gnucash-insert-prices.py:103-107 | The first price on the given calendar day, no earlier one on it, none exactly when no price falls on it |
| PriceLookup.SameDayPrice | gnucash-insert-prices.py:99-107 | A found price belongs to the pair and falls on the day, whatever its time; none exactly when the pair has no price on that day |
| PriceLookup.FindPrice | gnucash-insert-prices.py:101-107 | The loop returns the first same-day price of the pair, as `SameDayPrice` specifies |
| PriceLookup.SameDayPriceStable | gnucash-insert-prices.py:101-107 | Once a same-day price exists, appending prices does not change which one is found |
| PriceLookup.SameDayPriceAppendNew | gnucash-insert-prices.py:161-167 | Appending a price of the pair on a day that had none makes it the one found |
| PriceLookup.SameDayPriceAppendOther | gnucash-insert-prices.py:161-167 | Appending a price of another pair or day leaves the lookup unchanged |
| PriceUpsert.Resolve | gnucash-insert-prices.py:125-147 | Both keys empty raises the missing-key ValueError; otherwise an unknown currency raises a LookupError; with an ISIN, the commodity found by ISIN is used and an unknown ISIN raises; without one, the commodity found by full name is used, and a missing or unknown full name (Python's `None` included) raises; a request whose currency and key are found succeeds with exactly those two |
| PriceUpsert.Decide | gnucash-insert-prices.py:149-169 | Resolution errors pass through; a price is inserted exactly when the pair has no price that day; the record is kept exactly when the same-day price is within 0.02; beyond 0.02 it is a conflict reporting the stored and the quoted value |
| PriceUpsert.Apply | gnucash-insert-prices.py:159-169 | The database only grows, by at most one price, and changes exactly on an insertion |
| PriceUpsert.Reply | gnucash-insert-prices.py:159-169 | add_price raises exactly when the decision fails, with its error; otherwise it returns the commodity and True exactly for an insertion |
| PriceUpsert.ErrorKinds | gnucash-insert-prices.py:125-156 | A failing call raises ValueError exactly for missing keys or a same-day conflict, and LookupError exactly when the currency or commodity is not found; the missing-key error arises exactly for a request without keys |
| PriceUpsert.ConflictNamesStoredValue | gnucash-insert-prices.py:150-156 | Corrected conflict error: a call that resolves and still fails has a same-day price, and its error names that stored value as old and the quote as new, two different values |
| PriceUpsert.ConflictAsWrittenNamesQuote | gnucash-insert-prices.py:156 | For the same conflict, the message as written names the quote as the old value: the corrected error with its two values swapped, so it differs from it |
| PriceUpsert.ConflictReportAsWritten | gnucash-insert-prices.py:156 | The conflict error with the values in the order the message formats them |
| PriceUpsert.ConflictReportAsWrittenSwaps | gnucash-insert-prices.py:155-156 | In every conflict, the message as written names the quoted value as the old one |
| PriceUpsert.ConflictReportAsWrittenExample | gnucash-insert-prices.py:155-156 | With 11.1 stored and 11.2 quoted, the message says old 11.2, new 11.1 |
| PriceUpsert.AddedPriceFields | gnucash-insert-prices.py:161-169 | An added price has the request's date and value, source 2, the requested currency's code and the commodity of the key used, and is the only price appended |
| PriceUpsert.IsinTakesPrecedence | gnucash-insert-prices.py:135-146 | When an ISIN is given the full name has no effect on the outcome, even when the ISIN matches nothing |
| PriceUpsert.ResolveIgnoresPriceAndDate | gnucash-insert-prices.py:125-147 | Resolution does not depend on the price or the date |
| PriceUpsert.AddIsIdempotent | gnucash-insert-prices.py:149-159 | Repeating a successful call returns the same commodity with `False` and changes nothing |
| PriceUpsert.SecondQuoteSameDay | gnucash-insert-prices.py:149-159 | After an insertion, a same-day request for the same pair is skipped within 0.02 and is a conflict naming the added value beyond it; neither changes the database |
| PriceUpsert.OtherDayUnaffected | gnucash-insert-prices.py:149-169 | An insertion leaves the decision for any other day or pair as it was |
| PriceUpsert.CoveredAfterSuccess | gnucash-insert-prices.py:149-169 | After a successful call the pair has a same-day price within 0.02 of the request's value |
| PriceUpsert.KeepWhenCovered | gnucash-insert-prices.py:150-159 | A request whose pair already has a same-day price within 0.02 is skipped |
| PriceUpsert.CoveredAfterExtension | gnucash-insert-prices.py:150-159 | A request that went through is skipped against the database it left and against every extension of it |
| PriceImport.Book.AddPrice | gnucash-insert-prices.py:109-169 | The in-place add_price returns the reply and leaves the database that `Decide` and `Apply` specify |
| PriceImport.Book.DoInsertPrices | gnucash-insert-prices.py:173-206 | The loop leaves the log and database of `Run`, and the error count it returns is the number of ERR lines |
| PriceImport.InsertPrices | gnucash-insert-prices.py:237-250 | The file is saved exactly when the batch raised nothing; the saved file holds the batch's database, and otherwise the stored prices; no stored price is lost |
| Batch.MissingCurrencyIsEur | gnucash-insert-prices.py:188 | A record without a currency resolves as the same record with currency EUR, and its resolved currency has the code EUR |
| Batch.MissingNamespaceSearchesAll | gnucash-insert-prices.py:187 | A record without a namespace searches every namespace of the table, in table order |
| Batch.MissingStockNameFails | gnucash-insert-prices.py:190-197 | A record with an empty ISIN and no stock name passes the missing-key check and, once its currency is found, raises the full-name LookupError |
| Batch.OutcomeOf | gnucash-insert-prices.py:198-203 | An ERR line exactly when the call raised, carrying its error; an ADD line exactly when it returned True, a SKIP line exactly when it returned False, with the commodity's ISIN, the currency and the date |
| Batch.ErrorCount | gnucash-insert-prices.py:182-204 | The error count never exceeds the number of records |
| Batch.StepEffect | gnucash-insert-prices.py:192-204 | One iteration appends one status line, an ERR line exactly when add_price raised, and changes the database, by one appended price, exactly when the line is an ADD line |
| Batch.Run | gnucash-insert-prices.py:182-206 | One status line per record, and prices are only appended |
| Batch.RunSplit | gnucash-insert-prices.py:184-205 | A batch over a + b is the batch over a followed by the batch over b from a's database: a raising record does not stop the loop |
| Batch.RunOutcomeAt | gnucash-insert-prices.py:192-204 | Record i's status line is the outcome of add_price against the database the earlier records left |
| Batch.FailedIffRaised | gnucash-insert-prices.py:202-204 | A record has an ERR line exactly when its add_price raises |
| Batch.UnknownIsinIsolated | gnucash-insert-prices.py:137-140 | A record with an unknown ISIN gives exactly one ERR line, adds one to the error count, and leaves the records around it as they would be without it |
| Batch.ErrorCountZero | gnucash-insert-prices.py:202-206 | The error count is 0 exactly when no status line is an ERR line |
| Batch.ErrorCountAppend | gnucash-insert-prices.py:204 | Error counts add up over concatenated logs |
| Batch.RunCountsAdds | gnucash-insert-prices.py:159-169 | The database after a batch has exactly one more price per ADD line |
| Batch.CoveredAfterRun | gnucash-insert-prices.py:149-169 | Every record that did not raise would be skipped against the final database |
| Batch.CoveredAfterCleanRun | gnucash-insert-prices.py:149-169 | After a batch without errors, every record would be skipped |
| Batch.CleanBatchReplayIsNoop | gnucash-insert-prices.py:173-206 | Running a clean batch again on the database it produced raises nothing, adds nothing and changes nothing |
| Batch.DistinctDaysAllAdded | gnucash-insert-prices.py:173-206 | Records of one pair on distinct days with no stored price are all added in order: one ADD line and one new price each |
| Batch.DistinctDaysThenRepeat | gnucash-insert-prices.py:173-206 | Such records followed by a repeat of the first raise nothing, add exactly one price per day, and the repeat is skipped |

## Left out

- The `book is None` check (line 122): a Dafny object reference is never null, so the branch cannot arise.
- The `lru_cache` decorators on the lookups: the cached functions have no side effects, so caching does not change results.
- The `GncPrice` monkey patch (lines 24-30) and the GnuCash bindings: price creation is the appending of a `Price` value.
- File and stream I/O: `isfile`, `isatty`, JSON reading from a file or stdin, opening and locking the session, and `session.end()`. `InsertPrices` starts from the already-read records and the stored prices.
- Printing of the ADD/SKIP/ERR lines and of other messages: the status lines are kept as a log of `Outcome` values, without formatting.
- `argparse` and `main_cmd`: command-line handling is not part of this model.
- Date parsing with `strptime`: a `Quote` holds an already parsed `Timestamp`.
- Time zones: a timestamp carries the calendar day `date()` would give, and days are compared by that field.
- Floating point: prices are `real`. The float division `num/denom` and the conversion to `GncNumeric` are exact in the model.
- A record lacking `Date`, `Isin` or `Price` raises `KeyError` outside the `try` (lines 185-189) and ends the run. Records are assumed to carry these keys.
- The order in which GnuCash's `get_prices` returns prices: modelled as database insertion order.
- Namespace aliasing inside the GnuCash commodity table lookup: `get_currency` is a first-match search by code in the `ISO4217` namespace.
- PriceImport.InsertPrices: `file` models a book whose changes reach the file only through `session.save()`, as an XML book behaves. With an SQL book GnuCash writes each added price as it is committed, so a batch with errors would still leave its added prices in the file; that backend behaviour is not part of this model.
- PriceUpsert.Decide: on a same-day conflict it reports the corrected error (stored value old, quote new), not the swapped values of line 156; `PriceUpsert.ConflictAsWrittenNamesQuote` states what the code raises instead.
- `InsertPrices`: the `raise Exception("Found %d errors")` and its handler (lines 245-247) are modelled as "not saved". The messages are not modelled.

## Findings

| source | as written | input that shows it | evidently intended | confidence | as-written member | corrected member |
|---|---|---|---|---|---|---|
| gnucash-insert-prices.py:156 | The conflict message fills "old value" with the quoted value and "new value" with the stored value | A stored price of 11.1 and a quote of 11.2 on the same day report "old value 11.2, new value 11.1" | "old value" is the stored price and "new value" the quote | not executed | PriceUpsert.ConflictAsWrittenNamesQuote | PriceUpsert.ConflictNamesStoredValue |
