/**
 * The decision `add_price` takes for one quote: reject a request without
 * keys, resolve the currency and the commodity (an ISIN, when given, is
 * authoritative), then add a price when the day has none, accept an existing
 * same-day price within the tolerance, or report a conflict. The decision is
 * a pure function of the commodity table, the price database and the request;
 * `Apply` gives the database after it.
 */
module PriceUpsert {
  import opened Wrappers
  import opened Ledger
  import opened CommodityResolver
  import opened PriceLookup

  /** The exceptions `add_price` raises. */
  datatype Error =
    | MissingKey                                                      // neither ISIN nor full name given
    | CurrencyNotFound(currency: string)                              // unknown currency code
    | IsinNotFound(isin: string, namespace: string)                   // no commodity with that ISIN in scope
    | FullnameNotFound(fullname: Option<string>, namespace: string)   // no commodity with that full name in scope
    | PriceExists(oldValue: real, newValue: real)                     // a same-day price differs too much

  /** The Python exception classes those errors are raised as. */
  datatype ExceptionKind = ValueError | LookupError

  function KindOf(e: Error): ExceptionKind
  {
    match e
    case MissingKey => ValueError
    case PriceExists(_, _) => ValueError
    case _ => LookupError
  }

  /** The arguments of one `add_price` call. `fullname` is `None` when the
      caller passes Python's `None` (a quote without a stock name). */
  datatype Request = Request(value: real, date: Timestamp, currency: string, isin: string, fullname: Option<string>, namespace: string)

  /** The commodity and the currency a request resolves to. */
  datatype Resolved = Resolved(commodity: Commodity, currency: Commodity)

  /** Add `price` for `commodity`, or keep the database as it is. */
  datatype Decision = Insert(commodity: Commodity, price: Price) | Keep(commodity: Commodity)

  /** Both keys are the empty string. A `None` full name is not the empty
      string, so a request with an empty ISIN and no full name passes this
      check and fails in the lookup instead. */
  predicate MissingKeys(req: Request)
  {
    req.isin == "" && req.fullname == Some("")
  }

  /** The checks and lookups `add_price` makes before it looks at prices. */
  function Resolve(table: CommodityTable, req: Request): (r: Result<Resolved, Error>)
    ensures MissingKeys(req) ==> r == Failure(MissingKey)
    ensures !MissingKeys(req) && GetCurrency(table, req.currency).None? ==> r == Failure(CurrencyNotFound(req.currency))
    ensures r.Success? ==> GetCurrency(table, req.currency) == Some(r.value.currency)
    ensures r.Success? ==> r.value.currency.mnemonic == req.currency
    ensures req.isin != "" && r.Success? ==> Lookup(table, Cusip, req.isin, req.namespace) == Some(r.value.commodity)
    ensures req.isin != "" && r.Success? ==> r.value.commodity.cusip == req.isin
    ensures req.isin != "" && GetCurrency(table, req.currency).Some? && Lookup(table, Cusip, req.isin, req.namespace).None?
      ==> r == Failure(IsinNotFound(req.isin, req.namespace))
    ensures req.isin == "" && r.Success? ==>
      req.fullname.Some? && Lookup(table, FullName, req.fullname.value, req.namespace) == Some(r.value.commodity)
    ensures !MissingKeys(req) && GetCurrency(table, req.currency).Some? && req.isin != ""
      && Lookup(table, Cusip, req.isin, req.namespace).Some?
      ==> r == Success(Resolved(Lookup(table, Cusip, req.isin, req.namespace).value, GetCurrency(table, req.currency).value))
    ensures !MissingKeys(req) && GetCurrency(table, req.currency).Some? && req.isin == "" && req.fullname.Some?
      && Lookup(table, FullName, req.fullname.value, req.namespace).Some?
      ==> r == Success(Resolved(Lookup(table, FullName, req.fullname.value, req.namespace).value, GetCurrency(table, req.currency).value))
    ensures !MissingKeys(req) && GetCurrency(table, req.currency).Some? && req.isin == ""
      && (req.fullname.None? || Lookup(table, FullName, req.fullname.value, req.namespace).None?)
      ==> r == Failure(FullnameNotFound(req.fullname, req.namespace))
  {
    if MissingKeys(req) then Failure(MissingKey)
    else
      match GetCurrency(table, req.currency)
      case None => Failure(CurrencyNotFound(req.currency))
      case Some(currency) =>
        if req.isin != "" then
          match Lookup(table, Cusip, req.isin, req.namespace)
          case None => Failure(IsinNotFound(req.isin, req.namespace))
          case Some(c) => Success(Resolved(c, currency))
        else
          match req.fullname
          case None => Failure(FullnameNotFound(None, req.namespace))
          case Some(name) =>
            match Lookup(table, FullName, name, req.namespace)
            case None => Failure(FullnameNotFound(req.fullname, req.namespace))
            case Some(c) => Success(Resolved(c, currency))
  }

  /** The conflict error, reporting the stored value as the old one and the
      quoted value as the new one. */
  function ConflictReport(stored: real, quoted: real): (e: Error)
    ensures e.PriceExists? && e.oldValue == stored && e.newValue == quoted
  {
    PriceExists(stored, quoted)
  }

  /** The conflict error as the source formats its message: the quoted value
      fills the "old value" slot and the stored value the "new value" slot. */
  function ConflictReportAsWritten(stored: real, quoted: real): (e: Error)
    ensures e.PriceExists?
  {
    PriceExists(quoted, stored)
  }

  /** Whenever the two values differ, which is every conflict, the message as
      written names the quoted value as the old one. */
  lemma ConflictReportAsWrittenSwaps(stored: real, quoted: real)
    requires Abs(quoted - stored) > Tolerance
    ensures ConflictReportAsWritten(stored, quoted).oldValue != stored
    ensures ConflictReportAsWritten(stored, quoted).oldValue == ConflictReport(stored, quoted).newValue
  {
  }

  /** The conflict the test suite provokes: 11.1 stored, 11.2 quoted. */
  lemma ConflictReportAsWrittenExample()
    ensures ConflictReportAsWritten(11.1, 11.2) == PriceExists(11.2, 11.1)
    ensures ConflictReport(11.1, 11.2) == PriceExists(11.1, 11.2)
  {
  }

  /** The price `add_price` creates for a resolved request. */
  function NewPrice(rs: Resolved, req: Request): Price
  {
    Price(rs.commodity, rs.currency, req.date, req.value, UserPriceSource)
  }

  /** The same-day price of the resolved pair already in the database. */
  function Existing(table: CommodityTable, db: seq<Price>, req: Request): Option<Price>
    requires Resolve(table, req).Success?
  {
    var rs := Resolve(table, req).value;
    SameDayPrice(db, rs.commodity, rs.currency, req.date.day)
  }

  /** The whole decision of `add_price`. */
  function Decide(table: CommodityTable, db: seq<Price>, req: Request): (r: Result<Decision, Error>)
    ensures Resolve(table, req).Failure? ==> r == Failure(Resolve(table, req).error)
    ensures r.Success? ==> Resolve(table, req).Success? && r.value.commodity == Resolve(table, req).value.commodity
    ensures (r.Success? && r.value.Insert?) <==> Resolve(table, req).Success? && Existing(table, db, req).None?
    ensures r.Success? && r.value.Insert? ==> r.value.price == NewPrice(Resolve(table, req).value, req)
    ensures r.Success? && r.value.Insert? ==> forall p ::
      (p in db && p.commodity == r.value.commodity && p.currency == r.value.price.currency) ==> p.time.day != req.date.day
    ensures (r.Success? && r.value.Keep?) <==>
      (Resolve(table, req).Success? && Existing(table, db, req).Some?
       && Abs(req.value - Existing(table, db, req).value.value) <= Tolerance)
    ensures Resolve(table, req).Success? && r.Failure? ==>
      (Existing(table, db, req).Some?
       && Abs(req.value - Existing(table, db, req).value.value) > Tolerance
       && r.error == ConflictReport(Existing(table, db, req).value.value, req.value))
  {
    match Resolve(table, req)
    case Failure(e) => Failure(e)
    case Success(rs) =>
      match SameDayPrice(db, rs.commodity, rs.currency, req.date.day)
      case Some(p) =>
        if Abs(req.value - p.value) > Tolerance then Failure(ConflictReport(p.value, req.value))
        else Success(Keep(rs.commodity))
      case None => Success(Insert(rs.commodity, NewPrice(rs, req)))
  }

  /** What `add_price` returns: the commodity and whether a price was added,
      or the exception it raises. */
  function Reply(d: Result<Decision, Error>): (r: Result<(Commodity, bool), Error>)
    ensures r.Failure? <==> d.Failure?
    ensures d.Failure? ==> r.error == d.error
    ensures d.Success? ==> r.value.0 == d.value.commodity && (r.value.1 <==> d.value.Insert?)
  {
    match d
    case Failure(e) => Failure(e)
    case Success(Insert(c, _)) => Success((c, true))
    case Success(Keep(c)) => Success((c, false))
  }

  /** The price database after a decision: one price appended for an
      insertion, nothing changed otherwise. */
  function Apply(db: seq<Price>, d: Result<Decision, Error>): (r: seq<Price>)
    ensures db <= r && |r| <= |db| + 1
    ensures r != db <==> d.Success? && d.value.Insert?
  {
    if d.Success? && d.value.Insert? then db + [d.value.price] else db
  }

  /** An added price carries the request's date and value, the user source,
      and the resolved commodity and currency. */
  lemma AddedPriceFields(table: CommodityTable, db: seq<Price>, req: Request)
    requires Decide(table, db, req).Success? && Decide(table, db, req).value.Insert?
    ensures var p := Decide(table, db, req).value.price;
      && p.time == req.date && p.value == req.value && p.source == UserPriceSource
      && p.currency.mnemonic == req.currency
      && (req.isin != "" ==> p.commodity.cusip == req.isin)
      && (req.isin == "" ==> req.fullname.Some? && p.commodity.fullname == req.fullname.value)
      && Apply(db, Decide(table, db, req)) == db + [p]
  {
    var rs := Resolve(table, req).value;
    if req.isin == "" {
      assert Lookup(table, FullName, req.fullname.value, req.namespace) == Some(rs.commodity);
    }
  }

  /** ValueError is raised exactly for a request without keys and for a
      same-day price beyond the tolerance; LookupError exactly when the
      currency or the commodity is not found. */
  lemma ErrorKinds(table: CommodityTable, db: seq<Price>, req: Request)
    requires Decide(table, db, req).Failure?
    ensures KindOf(Decide(table, db, req).error) == ValueError <==> MissingKeys(req) || Resolve(table, req).Success?
    ensures KindOf(Decide(table, db, req).error) == LookupError <==> !MissingKeys(req) && Resolve(table, req).Failure?
    ensures MissingKeys(req) <==> Decide(table, db, req).error == MissingKey
  {
  }

  /** In a conflict, the error reports the stored same-day price as the old
      value and the quote as the new one; the two differ. */
  lemma ConflictNamesStoredValue(table: CommodityTable, db: seq<Price>, req: Request)
    requires Resolve(table, req).Success? && Decide(table, db, req).Failure?
    ensures Existing(table, db, req).Some?
    ensures Decide(table, db, req).error == PriceExists(Existing(table, db, req).value.value, req.value)
    ensures Decide(table, db, req).error.oldValue != Decide(table, db, req).error.newValue
  {
  }

  /** The error the message as written reports for the same conflict: the
      quote as the old value and the stored price as the new one, the two
      values of `Decide`'s error swapped. */
  lemma ConflictAsWrittenNamesQuote(table: CommodityTable, db: seq<Price>, req: Request)
    requires Resolve(table, req).Success? && Decide(table, db, req).Failure?
    ensures Existing(table, db, req).Some?
    ensures ConflictReportAsWritten(Existing(table, db, req).value.value, req.value).oldValue == req.value
    ensures ConflictReportAsWritten(Existing(table, db, req).value.value, req.value)
      == PriceExists(Decide(table, db, req).error.newValue, Decide(table, db, req).error.oldValue)
    ensures ConflictReportAsWritten(Existing(table, db, req).value.value, req.value) != Decide(table, db, req).error
  {
  }

  /** The ISIN decides alone: when one is given, the full name has no effect
      on the outcome, even when the ISIN matches nothing. */
  lemma IsinTakesPrecedence(table: CommodityTable, db: seq<Price>, req: Request, fullname: Option<string>)
    requires req.isin != ""
    ensures Decide(table, db, req.(fullname := fullname)) == Decide(table, db, req)
  {
  }

  /** Resolution does not depend on the price, the day or the database. */
  lemma ResolveIgnoresPriceAndDate(table: CommodityTable, req: Request, value: real, date: Timestamp)
    ensures Resolve(table, req.(value := value, date := date)) == Resolve(table, req)
  {
  }

  /** Repeating a successful `add_price` call returns `False` and changes
      nothing: the first call added or found the price the second one finds.
      `{:induction false}`: not inductive; keeps Dafny from adding
      induction hypotheses over the database. */
  lemma {:induction false} AddIsIdempotent(table: CommodityTable, db: seq<Price>, req: Request)
    requires Decide(table, db, req).Success?
    ensures var db1 := Apply(db, Decide(table, db, req));
      && Decide(table, db1, req) == Success(Keep(Decide(table, db, req).value.commodity))
      && Reply(Decide(table, db1, req)) == Success((Decide(table, db, req).value.commodity, false))
      && Apply(db1, Decide(table, db1, req)) == db1
  {
    var rs := Resolve(table, req).value;
    var d := Decide(table, db, req);
    if d.value.Insert? {
      SameDayPriceAppendNew(db, NewPrice(rs, req));
    }
  }

  /** After a price was added, a second quote that resolves to the same pair
      on the same day is skipped within the tolerance and is a conflict,
      reporting the added value, beyond it; neither changes the database.
      `{:induction false}`: not inductive; keeps Dafny from adding
      induction hypotheses over the database. */
  lemma {:induction false} SecondQuoteSameDay(table: CommodityTable, db: seq<Price>, req: Request, req2: Request)
    requires Decide(table, db, req).Success? && Decide(table, db, req).value.Insert?
    requires Resolve(table, req2) == Resolve(table, req) && req2.date.day == req.date.day
    ensures var db1 := Apply(db, Decide(table, db, req));
      && Decide(table, db1, req2) == (if Abs(req2.value - req.value) > Tolerance
        then Failure(ConflictReport(req.value, req2.value))
        else Success(Keep(Decide(table, db, req).value.commodity)))
      && Apply(db1, Decide(table, db1, req2)) == db1
  {
    var rs := Resolve(table, req).value;
    SameDayPriceAppendNew(db, NewPrice(rs, req));
  }

  /** A price added for one day leaves the decision for any other day, or any
      other pair, as it was.
      `{:induction false}`: not inductive; keeps Dafny from adding
      induction hypotheses over the database. */
  lemma {:induction false} OtherDayUnaffected(table: CommodityTable, db: seq<Price>, req: Request, req2: Request)
    requires Decide(table, db, req).Success? && Decide(table, db, req).value.Insert?
    requires Resolve(table, req2).Success?
    requires Resolve(table, req2) != Resolve(table, req) || req2.date.day != req.date.day
    ensures Decide(table, Apply(db, Decide(table, db, req)), req2) == Decide(table, db, req2)
  {
    var rs := Resolve(table, req).value;
    var rs2 := Resolve(table, req2).value;
    SameDayPriceAppendOther(db, NewPrice(rs, req), rs2.commodity, rs2.currency, req2.date.day);
  }

  /** After a successful call the database holds, for the request's pair and
      day, a price within the tolerance of the request's value. */
  lemma CoveredAfterSuccess(table: CommodityTable, db: seq<Price>, req: Request)
    requires Decide(table, db, req).Success?
    ensures Existing(table, Apply(db, Decide(table, db, req)), req).Some?
    ensures Abs(req.value - Existing(table, Apply(db, Decide(table, db, req)), req).value.value) <= Tolerance
  {
    var rs := Resolve(table, req).value;
    if Decide(table, db, req).value.Insert? {
      SameDayPriceAppendNew(db, NewPrice(rs, req));
    }
  }

  /** A request whose pair already has a same-day price within the tolerance
      is skipped. */
  lemma KeepWhenCovered(table: CommodityTable, db: seq<Price>, req: Request)
    requires Resolve(table, req).Success? && Existing(table, db, req).Some?
    requires Abs(req.value - Existing(table, db, req).value.value) <= Tolerance
    ensures Decide(table, db, req) == Success(Keep(Resolve(table, req).value.commodity))
  {
  }

  /** A request that went through is skipped against the database it left,
      and against any extension of that database. */
  lemma CoveredAfterExtension(table: CommodityTable, db: seq<Price>, req: Request, more: seq<Price>)
    requires Decide(table, db, req).Success?
    ensures Decide(table, Apply(db, Decide(table, db, req)) + more, req)
      == Success(Keep(Resolve(table, req).value.commodity))
  {
    var rs := Resolve(table, req).value;
    var after := Apply(db, Decide(table, db, req));
    CoveredAfterSuccess(table, db, req);
    SameDayPriceStable(after, more, rs.commodity, rs.currency, req.date.day);
    KeepWhenCovered(table, after + more, req);
  }
}
