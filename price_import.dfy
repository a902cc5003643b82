/**
 * The importer in the program's imperative form: a book whose price database
 * `add_price` extends in place, the record loop of `do_insert_prices`, and
 * the all-or-nothing save of `insert_prices`. Each method is proved to
 * compute what the functions of PriceUpsert and Batch specify.
 */
module PriceImport {
  import opened Wrappers
  import opened Ledger
  import opened CommodityResolver
  import opened PriceLookup
  import opened PriceUpsert
  import opened Batch

  /** An open GnuCash book: its commodity table and its price database. */
  class Book {
    const table: CommodityTable
    var prices: seq<Price>

    constructor(table: CommodityTable, prices: seq<Price>)
      ensures this.table == table && this.prices == prices
    {
      this.table := table;
      this.prices := prices;
    }

    /** add_price: resolves the currency and the commodity, then adds a
        price with the user source, skips a same-day price within the
        tolerance, or raises for a same-day price beyond it. */
    method AddPrice(value: real, date: Timestamp, currencyStr: string, isin: string,
                    fullname: Option<string>, namespace: string)
      returns (r: Result<(Commodity, bool), Error>)
      modifies this
      ensures r == Reply(Decide(table, old(prices), Request(value, date, currencyStr, isin, fullname, namespace)))
      ensures prices == Apply(old(prices), Decide(table, old(prices), Request(value, date, currencyStr, isin, fullname, namespace)))
    {
      ghost var req := Request(value, date, currencyStr, isin, fullname, namespace);
      if isin == "" && fullname == Some("") {
        return Failure(MissingKey);
      }
      var currency := GetCurrency(table, currencyStr);
      if currency.None? {
        return Failure(CurrencyNotFound(currencyStr));
      }
      var commodity: Option<Commodity> := None;
      if isin != "" {
        commodity := GetCommodityByIsin(table, isin, namespace);
        if commodity.None? {
          return Failure(IsinNotFound(isin, namespace));
        }
      }
      if commodity.None? {
        // a missing full name compares unequal to every commodity's
        if fullname.Some? {
          commodity := GetCommodityByFullname(table, fullname.value, namespace);
        }
        if commodity.None? {
          return Failure(FullnameNotFound(fullname, namespace));
        }
      }
      assert Resolve(table, req) == Success(Resolved(commodity.value, currency.value));
      var existing := FindPrice(prices, commodity.value, currency.value, date);
      if existing.Some? {
        if Abs(value - existing.value.value) > Tolerance {
          return Failure(ConflictReport(existing.value.value, value));
        }
        return Success((commodity.value, false));
      }
      var p := Price(commodity.value, currency.value, date, value, UserPriceSource);
      prices := prices + [p];
      return Success((commodity.value, true));
    }

    /** do_insert_prices: one `add_price` call per record, in order; a call
        that raises yields an ERR line and one more error, and the loop goes
        on with the next record. */
    method DoInsertPrices(quotes: seq<Quote>) returns (errors: nat, log: seq<Outcome>)
      modifies this
      ensures BatchState(log, prices) == Run(table, old(prices), quotes)
      ensures errors == ErrorCount(log)
    {
      ghost var db := prices;
      errors := 0;
      log := [];
      assert quotes[..0] == [];
      for i := 0 to |quotes|
        invariant BatchState(log, prices) == Run(table, db, quotes[..i])
        invariant errors == ErrorCount(log)
      {
        var req := RequestOf(quotes[i]);
        ghost var before := prices;
        var reply := AddPrice(req.value, req.date, req.currency, req.isin, req.fullname, req.namespace);
        var outcome := OutcomeOf(req, reply);
        StepIs(table, BatchState(log, before), quotes[i], reply, prices);
        RunPrefixStep(table, db, quotes, i);
        CountsAppendOne(log, outcome);
        log := log + [outcome];
        if reply.Failure? {
          errors := errors + 1;
        }
      }
      assert quotes[..|quotes|] == quotes;
    }
  }

  /** insert_prices, past reading the quote file: opens the book, runs the
      records, and saves the book only when no record raised. `file` is the
      price database the GnuCash file holds afterwards. */
  method InsertPrices(table: CommodityTable, stored: seq<Price>, quotes: seq<Quote>)
    returns (errors: nat, saved: bool, file: seq<Price>)
    ensures errors == ErrorCount(Run(table, stored, quotes).log)
    ensures saved <==> errors == 0
    ensures file == (if saved then Run(table, stored, quotes).prices else stored)
    ensures stored <= file
  {
    var book := new Book(table, stored);
    var log;
    errors, log := book.DoInsertPrices(quotes);
    if errors == 0 {
      saved := true;
      file := book.prices;
    } else {
      saved := false;
      file := stored;
    }
  }
}
