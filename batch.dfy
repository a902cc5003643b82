/**
 * The batch of `do_insert_prices`: each quote record, in input order, becomes
 * one `add_price` call against the price database its predecessors left; a
 * record whose call raises is logged and counted, and the scan goes on.
 */
module Batch {
  import opened Wrappers
  import opened Ledger
  import opened CommodityResolver
  import opened PriceLookup
  import opened PriceUpsert

  /** One parsed quote record. `stockName`, `currency` and `namespace` are
      `None` when the record lacks the key. */
  datatype Quote = Quote(date: Timestamp, isin: string, price: real, stockName: Option<string>,
                         currency: Option<string>, namespace: Option<string>)

  const DefaultCurrency: string := "EUR"

  /** The `add_price` call made for a record: the currency defaults to EUR,
      the namespace to all namespaces, and a missing stock name is passed as `None`. */
  function RequestOf(q: Quote): Request
  {
    Request(q.price, q.date, if q.currency.Some? then q.currency.value else DefaultCurrency,
            q.isin, q.stockName, if q.namespace.Some? then q.namespace.value else "")
  }

  /** A record without a currency is priced in EUR: it resolves as the same
      record with currency EUR does, and a resolved currency has the code EUR. */
  lemma MissingCurrencyIsEur(table: CommodityTable, q: Quote)
    requires q.currency.None?
    ensures Resolve(table, RequestOf(q)) == Resolve(table, RequestOf(q.(currency := Some(DefaultCurrency))))
    ensures Resolve(table, RequestOf(q)).Success? ==> Resolve(table, RequestOf(q)).value.currency.mnemonic == DefaultCurrency
  {
  }

  /** A record without a namespace searches every namespace of the table, in
      table order. */
  lemma MissingNamespaceSearchesAll(table: CommodityTable, q: Quote, f: Field, key: string)
    requires q.namespace.None? && key != ""
    ensures Lookup(table, f, key, RequestOf(q).namespace) == FirstInScope(table, table.namespaces, f, key)
  {
  }

  /** A record with an empty ISIN and no stock name gets past the missing-key
      check, and raises a LookupError for the full name once its currency is
      found. */
  lemma MissingStockNameFails(table: CommodityTable, db: seq<Price>, q: Quote)
    requires q.isin == "" && q.stockName.None?
    requires GetCurrency(table, RequestOf(q).currency).Some?
    ensures !MissingKeys(RequestOf(q))
    ensures Decide(table, db, RequestOf(q)) == Failure(FullnameNotFound(None, RequestOf(q).namespace))
    ensures KindOf(Decide(table, db, RequestOf(q)).error) == LookupError
  {
  }

  /** The status line printed for a record: ADD, SKIP or ERR. */
  datatype Outcome =
    | Added(isin: string, value: real, currency: string, date: Timestamp)
    | Skipped(isin: string, currency: string, date: Timestamp)
    | Failed(error: Error)

  function OutcomeOf(req: Request, reply: Result<(Commodity, bool), Error>): (o: Outcome)
    ensures o.Failed? <==> reply.Failure?
    ensures reply.Failure? ==> o.error == reply.error
    ensures o.Added? <==> reply.Success? && reply.value.1
    ensures o.Skipped? <==> reply.Success? && !reply.value.1
    ensures !o.Failed? ==> o.isin == reply.value.0.cusip && o.currency == req.currency && o.date == req.date
  {
    match reply
    case Failure(e) => Failed(e)
    case Success((c, added)) =>
      if added then Added(c.cusip, req.value, req.currency, req.date) else Skipped(c.cusip, req.currency, req.date)
  }

  /** The number of ERR lines of a log. */
  function ErrorCount(log: seq<Outcome>): (n: nat)
    ensures n <= |log|
  {
    if log == [] then 0
    else ErrorCount(log[..|log| - 1]) + (if log[|log| - 1].Failed? then 1 else 0)
  }

  /** The number of ADD lines of a log. */
  function AddedCount(log: seq<Outcome>): nat
  {
    if log == [] then 0
    else AddedCount(log[..|log| - 1]) + (if log[|log| - 1].Added? then 1 else 0)
  }

  /** The log of a batch and the price database after it. */
  datatype BatchState = BatchState(log: seq<Outcome>, prices: seq<Price>)

  /** One record's step: its status line and the database after its `add_price` call. */
  function Step(table: CommodityTable, s: BatchState, q: Quote): BatchState
  {
    var d := Decide(table, s.prices, RequestOf(q));
    BatchState(s.log + [OutcomeOf(RequestOf(q), Reply(d))], Apply(s.prices, d))
  }

  /** A step appends one status line, an ERR line exactly when the call
      raises, and changes the database, by one appended price, exactly when
      the line is an ADD line. */
  lemma StepEffect(table: CommodityTable, s: BatchState, q: Quote)
    ensures |Step(table, s, q).log| == |s.log| + 1
    ensures Step(table, s, q).log == s.log + [Step(table, s, q).log[|s.log|]]
    ensures Step(table, s, q).log[|s.log|].Failed? <==> Decide(table, s.prices, RequestOf(q)).Failure?
    ensures s.prices <= Step(table, s, q).prices && |Step(table, s, q).prices| <= |s.prices| + 1
    ensures Step(table, s, q).prices != s.prices <==> Step(table, s, q).log[|s.log|].Added?
  {
  }

  /** A step is the `add_price` reply's status line and the database the
      decision leaves. */
  lemma StepIs(table: CommodityTable, s: BatchState, q: Quote, reply: Result<(Commodity, bool), Error>, prices: seq<Price>)
    requires reply == Reply(Decide(table, s.prices, RequestOf(q)))
    requires prices == Apply(s.prices, Decide(table, s.prices, RequestOf(q)))
    ensures Step(table, s, q) == BatchState(s.log + [OutcomeOf(RequestOf(q), reply)], prices)
  {
  }

  /** The batch over `quotes`, starting from the database `db`: one status
      line per record, prices only appended. */
  function Run(table: CommodityTable, db: seq<Price>, quotes: seq<Quote>): (r: BatchState)
    decreases |quotes|
    ensures |r.log| == |quotes|
    ensures db <= r.prices
  {
    if quotes == [] then BatchState([], db)
    else Step(table, Run(table, db, quotes[..|quotes| - 1]), quotes[|quotes| - 1])
  }

  /** The first `i + 1` records are the first `i` followed by record `i`. */
  lemma RunPrefixStep(table: CommodityTable, db: seq<Price>, quotes: seq<Quote>, i: nat)
    requires i < |quotes|
    ensures Run(table, db, quotes[..i + 1]) == Step(table, Run(table, db, quotes[..i]), quotes[i])
  {
    assert quotes[..i + 1][..i] == quotes[..i];
  }

  /** Error counts add up over concatenated logs. */
  lemma {:induction false} ErrorCountAppend(a: seq<Outcome>, b: seq<Outcome>)
    ensures ErrorCount(a + b) == ErrorCount(a) + ErrorCount(b)
  {
    if b == [] {
      assert a + b == a;
    } else {
      assert (a + b)[..|a + b| - 1] == a + b[..|b| - 1];
      ErrorCountAppend(a, b[..|b| - 1]);
    }
  }

  /** ADD counts add up over concatenated logs. */
  lemma {:induction false} AddedCountAppend(a: seq<Outcome>, b: seq<Outcome>)
    ensures AddedCount(a + b) == AddedCount(a) + AddedCount(b)
  {
    if b == [] {
      assert a + b == a;
    } else {
      assert (a + b)[..|a + b| - 1] == a + b[..|b| - 1];
      AddedCountAppend(a, b[..|b| - 1]);
    }
  }

  /** A log has no errors exactly when none of its lines is an ERR line. */
  lemma {:induction false} ErrorCountZero(log: seq<Outcome>)
    ensures ErrorCount(log) == 0 <==> forall i :: 0 <= i < |log| ==> !log[i].Failed?
  {
    if log != [] {
      var front := log[..|log| - 1];
      ErrorCountZero(front);
      assert forall i :: 0 <= i < |front| ==> front[i] == log[i];
    }
  }

  /** A batch over `a + b` is the batch over `a` followed by the batch over
      `b` from the database `a` left: what `b` does does not depend on
      whether records of `a` raised. */
  lemma {:induction false} RunSplit(table: CommodityTable, db: seq<Price>, a: seq<Quote>, b: seq<Quote>)
    decreases |b|
    ensures Run(table, db, a + b)
      == BatchState(Run(table, db, a).log + Run(table, Run(table, db, a).prices, b).log,
                    Run(table, Run(table, db, a).prices, b).prices)
  {
    if b == [] {
      assert a + b == a;
    } else {
      var b', last := b[..|b| - 1], b[|b| - 1];
      assert (a + b)[..|a + b| - 1] == a + b';
      assert (a + b)[|a + b| - 1] == last;
      var ra := Run(table, db, a);
      var rb' := Run(table, ra.prices, b');
      RunSplit(table, db, a, b');
      var o := Step(table, rb', last);
      assert Run(table, ra.prices, b) == o;
      assert Run(table, db, a + b) == Step(table, BatchState(ra.log + rb'.log, rb'.prices), last);
      assert (ra.log + rb'.log) + o.log[|rb'.log|..] == ra.log + o.log;
    }
  }

  /** Record `i` is processed against the database the records before it left,
      and its status line is the `add_price` outcome there. */
  lemma RunOutcomeAt(table: CommodityTable, db: seq<Price>, quotes: seq<Quote>, i: nat)
    requires i < |quotes|
    ensures Run(table, db, quotes).log[i]
      == OutcomeOf(RequestOf(quotes[i]), Reply(Decide(table, Run(table, db, quotes[..i]).prices, RequestOf(quotes[i]))))
  {
    RunPrefixStep(table, db, quotes, i);
    var head := quotes[..i + 1];
    RunSplit(table, db, head, quotes[i + 1..]);
    assert head + quotes[i + 1..] == quotes;
  }

  /** The database after record `i` is a prefix of the database after the batch. */
  lemma RunPrefixPrices(table: CommodityTable, db: seq<Price>, quotes: seq<Quote>, i: nat)
    requires i <= |quotes|
    ensures Run(table, db, quotes[..i]).prices <= Run(table, db, quotes).prices
  {
    RunSplit(table, db, quotes[..i], quotes[i..]);
    assert quotes[..i] + quotes[i..] == quotes;
  }

  /** The batch's error count is the number of records whose `add_price`
      raised, record by record. */
  lemma FailedIffRaised(table: CommodityTable, db: seq<Price>, quotes: seq<Quote>, i: nat)
    requires i < |quotes|
    ensures Run(table, db, quotes).log[i].Failed? <==>
      Decide(table, Run(table, db, quotes[..i]).prices, RequestOf(quotes[i])).Failure?
  {
    RunOutcomeAt(table, db, quotes, i);
  }

  /** A batch of one record is one step. */
  lemma RunSingle(table: CommodityTable, db: seq<Price>, q: Quote)
    ensures Run(table, db, [q]) == Step(table, BatchState([], db), q)
  {
    assert [q][..0] == [];
  }

  /** A record whose ISIN matches no commodity yields exactly one ERR line and
      adds one to the error count; the records before and after it are
      processed as if it were not there. */
  lemma UnknownIsinIsolated(table: CommodityTable, db: seq<Price>, a: seq<Quote>, q: Quote, b: seq<Quote>)
    requires q.isin != "" && GetCurrency(table, RequestOf(q).currency).Some?
    requires Lookup(table, Cusip, q.isin, RequestOf(q).namespace).None?
    ensures Run(table, db, a + [q] + b)
      == BatchState(Run(table, db, a).log + [Failed(IsinNotFound(q.isin, RequestOf(q).namespace))]
                    + Run(table, Run(table, db, a).prices, b).log,
                    Run(table, Run(table, db, a).prices, b).prices)
    ensures ErrorCount(Run(table, db, a + [q] + b).log)
      == ErrorCount(Run(table, db, a).log) + 1 + ErrorCount(Run(table, Run(table, db, a).prices, b).log)
  {
    var req := RequestOf(q);
    var e := IsinNotFound(q.isin, req.namespace);
    assert Resolve(table, req) == Failure(e);
    var ra := Run(table, db, a);
    assert Decide(table, ra.prices, req) == Failure(e);
    RunSingle(table, ra.prices, q);
    assert Run(table, ra.prices, [q]) == BatchState([Failed(e)], ra.prices);
    RunSplit(table, db, a, [q]);
    var raq := Run(table, db, a + [q]);
    assert raq == BatchState(ra.log + [Failed(e)], ra.prices);
    RunSplit(table, db, a + [q], b);
    var rb := Run(table, ra.prices, b);
    ErrorCountAppend(ra.log + [Failed(e)], rb.log);
    ErrorCountAppend(ra.log, [Failed(e)]);
    assert ErrorCount([Failed(e)]) == 1 by {
      assert [Failed(e)][..0] == [];
    }
  }

  /** A non-empty sequence is its front followed by its last element. */
  lemma SplitLast<T>(s: seq<T>)
    requires s != []
    ensures s == s[..|s| - 1] + [s[|s| - 1]]
  {
  }

  /** A sequence is any prefix of it followed by the rest. */
  lemma PrefixSplit<T>(a: seq<T>, b: seq<T>)
    requires a <= b
    ensures b == a + b[|a|..]
  {
    assert b == b[..|a|] + b[|a|..];
  }

  /** A record that did not raise is covered in the final database: its pair
      has a same-day price within the tolerance of its value, so the record
      would now be skipped. */
  lemma CoveredAfterRun(table: CommodityTable, db: seq<Price>, quotes: seq<Quote>, i: nat)
    requires i < |quotes|
    requires !Run(table, db, quotes).log[i].Failed?
    ensures Resolve(table, RequestOf(quotes[i])).Success?
    ensures Decide(table, Run(table, db, quotes).prices, RequestOf(quotes[i]))
      == Success(Keep(Resolve(table, RequestOf(quotes[i])).value.commodity))
  {
    var req := RequestOf(quotes[i]);
    var before := Run(table, db, quotes[..i]).prices;
    FailedIffRaised(table, db, quotes, i);
    RunPrefixStep(table, db, quotes, i);
    var after := Run(table, db, quotes[..i + 1]).prices;
    assert after == Apply(before, Decide(table, before, req));
    var final := Run(table, db, quotes).prices;
    RunPrefixPrices(table, db, quotes, i + 1);
    PrefixSplit(after, final);
    CoveredAfterExtension(table, before, req, final[|after|..]);
  }

  /** After a batch without errors, every record would now be skipped. */
  lemma CoveredAfterCleanRun(table: CommodityTable, db: seq<Price>, quotes: seq<Quote>, i: nat)
    requires ErrorCount(Run(table, db, quotes).log) == 0
    requires i < |quotes|
    ensures Resolve(table, RequestOf(quotes[i])).Success?
    ensures Decide(table, Run(table, db, quotes).prices, RequestOf(quotes[i]))
      == Success(Keep(Resolve(table, RequestOf(quotes[i])).value.commodity))
  {
    ErrorCountZero(Run(table, db, quotes).log);
    CoveredAfterRun(table, db, quotes, i);
  }

  /** The replay of the first `k` records of a clean batch over the database
      it produced raises nothing and adds nothing. */
  lemma {:induction false} ReplayPrefix(table: CommodityTable, db: seq<Price>, quotes: seq<Quote>, k: nat)
    requires ErrorCount(Run(table, db, quotes).log) == 0
    requires k <= |quotes|
    ensures Run(table, Run(table, db, quotes).prices, quotes[..k]).prices == Run(table, db, quotes).prices
    ensures ErrorCount(Run(table, Run(table, db, quotes).prices, quotes[..k]).log) == 0
  {
    var final := Run(table, db, quotes).prices;
    if k == 0 {
      assert quotes[..0] == [];
    } else {
      ReplayPrefix(table, db, quotes, k - 1);
      RunPrefixStep(table, final, quotes, k - 1);
      CoveredAfterCleanRun(table, db, quotes, k - 1);
      var s := Run(table, final, quotes[..k - 1]);
      var o := OutcomeOf(RequestOf(quotes[k - 1]), Reply(Decide(table, final, RequestOf(quotes[k - 1]))));
      assert !o.Failed?;
      ErrorCountAppend(s.log, [o]);
      assert ErrorCount([o]) == 0 by {
        assert [o][..0] == [];
      }
    }
  }

  /** Running again a batch that had no errors, on the database it produced,
      raises nothing and adds nothing: every record is skipped. */
  lemma CleanBatchReplayIsNoop(table: CommodityTable, db: seq<Price>, quotes: seq<Quote>)
    requires ErrorCount(Run(table, db, quotes).log) == 0
    ensures Run(table, Run(table, db, quotes).prices, quotes).prices == Run(table, db, quotes).prices
    ensures ErrorCount(Run(table, Run(table, db, quotes).prices, quotes).log) == 0
    ensures AddedCount(Run(table, Run(table, db, quotes).prices, quotes).log) == 0
  {
    ReplayPrefix(table, db, quotes, |quotes|);
    assert quotes[..|quotes|] == quotes;
    RunCountsAdds(table, Run(table, db, quotes).prices, quotes);
  }

  /** A record whose pair has no price on its day is added: one ADD line and
      one new price. */
  lemma AddedStep(table: CommodityTable, s: BatchState, q: Quote, rs: Resolved)
    requires Resolve(table, RequestOf(q)) == Success(rs)
    requires forall p :: p in PricesFor(s.prices, rs.commodity, rs.currency) ==> p.time.day != q.date.day
    ensures Step(table, s, q) == BatchState(s.log + [Added(rs.commodity.cusip, q.price, RequestOf(q).currency, q.date)],
                                            s.prices + [NewPrice(rs, RequestOf(q))])
  {
    var req := RequestOf(q);
    assert Existing(table, s.prices, req).None?;
  }

  /** A log line counts once as an ERR line if it is one, and once as an ADD
      line if it is one. */
  lemma CountsAppendOne(log: seq<Outcome>, o: Outcome)
    ensures ErrorCount(log + [o]) == ErrorCount(log) + (if o.Failed? then 1 else 0)
    ensures AddedCount(log + [o]) == AddedCount(log) + (if o.Added? then 1 else 0)
  {
    assert (log + [o])[..|log|] == log;
  }

  /** A batch adds exactly one price per ADD line. */
  lemma {:induction false} RunCountsAdds(table: CommodityTable, db: seq<Price>, quotes: seq<Quote>)
    decreases |quotes|
    ensures |Run(table, db, quotes).prices| == |db| + AddedCount(Run(table, db, quotes).log)
  {
    if quotes != [] {
      var n := |quotes| - 1;
      RunCountsAdds(table, db, quotes[..n]);
      var s := Run(table, db, quotes[..n]);
      var req := RequestOf(quotes[n]);
      var d := Decide(table, s.prices, req);
      assert Run(table, db, quotes) == Step(table, s, quotes[n]);
      CountsAppendOne(s.log, OutcomeOf(req, Reply(d)));
    }
  }

  /** The status lines of records that are all added, `rs` being the pair
      they resolve to. */
  function AddedLog(rs: Resolved, qs: seq<Quote>): seq<Outcome>
  {
    seq(|qs|, j requires 0 <= j < |qs| => Added(rs.commodity.cusip, qs[j].price, RequestOf(qs[j]).currency, qs[j].date))
  }

  /** The prices added for records that are all added. */
  function AddedPrices(rs: Resolved, qs: seq<Quote>): seq<Price>
  {
    seq(|qs|, j requires 0 <= j < |qs| => NewPrice(rs, RequestOf(qs[j])))
  }

  /** A log of ADD lines only has no ERR line and one ADD line per record. */
  lemma {:induction false} AddedLogCounts(rs: Resolved, qs: seq<Quote>)
    ensures ErrorCount(AddedLog(rs, qs)) == 0
    ensures AddedCount(AddedLog(rs, qs)) == |qs|
  {
    if qs != [] {
      var n := |qs| - 1;
      AddedLogCounts(rs, qs[..n]);
      assert AddedLog(rs, qs) == AddedLog(rs, qs[..n]) + [AddedLog(rs, qs)[n]];
      CountsAppendOne(AddedLog(rs, qs[..n]), AddedLog(rs, qs)[n]);
    }
  }

  /** Appending a record appends its ADD line and its price. */
  lemma AddedAppend(rs: Resolved, front: seq<Quote>, q: Quote)
    ensures AddedLog(rs, front + [q]) == AddedLog(rs, front) + [Added(rs.commodity.cusip, q.price, RequestOf(q).currency, q.date)]
    ensures AddedPrices(rs, front + [q]) == AddedPrices(rs, front) + [NewPrice(rs, RequestOf(q))]
  {
    assert AddedLog(rs, front + [q]) == AddedLog(rs, front) + [AddedLog(rs, front + [q])[|front|]];
    assert AddedPrices(rs, front + [q]) == AddedPrices(rs, front) + [AddedPrices(rs, front + [q])[|front|]];
  }

  /** The prices added for earlier records fall on their days, so a record on
      another day finds no same-day price of the pair among them. */
  lemma AddedPricesOtherDay(db: seq<Price>, rs: Resolved, front: seq<Quote>, q: Quote)
    requires forall j :: 0 <= j < |front| ==> front[j].date.day != q.date.day
    requires forall p :: p in PricesFor(db, rs.commodity, rs.currency) ==> p.time.day != q.date.day
    ensures forall p :: p in PricesFor(db + AddedPrices(rs, front), rs.commodity, rs.currency) ==> p.time.day != q.date.day
  {
    var added := AddedPrices(rs, front);
    forall p | p in PricesFor(db + added, rs.commodity, rs.currency)
      ensures p.time.day != q.date.day
    {
      if p !in db {
        var j :| 0 <= j < |added| && added[j] == p;
      }
    }
  }

  /** One more record of the pair, on a day none of the earlier records and
      none of the database's prices of the pair fall on, is added too. */
  lemma AddedLogStep(table: CommodityTable, db: seq<Price>, front: seq<Quote>, q: Quote, rs: Resolved)
    requires Resolve(table, RequestOf(q)) == Success(rs)
    requires forall j :: 0 <= j < |front| ==> front[j].date.day != q.date.day
    requires forall p :: p in PricesFor(db, rs.commodity, rs.currency) ==> p.time.day != q.date.day
    ensures Step(table, BatchState(AddedLog(rs, front), db + AddedPrices(rs, front)), q)
      == BatchState(AddedLog(rs, front + [q]), db + AddedPrices(rs, front + [q]))
  {
    AddedPricesOtherDay(db, rs, front, q);
    AddedStep(table, BatchState(AddedLog(rs, front), db + AddedPrices(rs, front)), q, rs);
    AddedAppend(rs, front, q);
  }

  /** The hypotheses of DistinctDaysAllAdded hold for all records but the
      last, and the last one is on a new day for the pair. */
  lemma DistinctDaysSplit(table: CommodityTable, db: seq<Price>, quotes: seq<Quote>, rs: Resolved, n: nat)
    requires n == |quotes| - 1
    requires forall q :: q in quotes ==> Resolve(table, RequestOf(q)) == Success(rs)
    requires forall i, j :: 0 <= i < j < |quotes| ==> quotes[i].date.day != quotes[j].date.day
    requires forall p, q :: p in PricesFor(db, rs.commodity, rs.currency) && q in quotes ==> p.time.day != q.date.day
    ensures forall q :: q in quotes[..n] ==> Resolve(table, RequestOf(q)) == Success(rs)
    ensures forall i, j :: 0 <= i < j < n ==> quotes[..n][i].date.day != quotes[..n][j].date.day
    ensures forall p, q :: p in PricesFor(db, rs.commodity, rs.currency) && q in quotes[..n] ==> p.time.day != q.date.day
    ensures Resolve(table, RequestOf(quotes[n])) == Success(rs)
    ensures forall j :: 0 <= j < n ==> quotes[..n][j].date.day != quotes[n].date.day
    ensures forall p :: p in PricesFor(db, rs.commodity, rs.currency) ==> p.time.day != quotes[n].date.day
  {
    assert quotes[n] in quotes;
    assert forall x :: x in quotes[..n] ==> x in quotes;
  }

  /** Records that all resolve to one pair, on pairwise distinct days for
      which the database holds no price of that pair, are all added, in
      order: one ADD line and one new price per record. */
  lemma {:induction false} DistinctDaysAllAdded(table: CommodityTable, db: seq<Price>, quotes: seq<Quote>, rs: Resolved)
    requires forall q :: q in quotes ==> Resolve(table, RequestOf(q)) == Success(rs)
    requires forall i, j :: 0 <= i < j < |quotes| ==> quotes[i].date.day != quotes[j].date.day
    requires forall p, q :: p in PricesFor(db, rs.commodity, rs.currency) && q in quotes ==> p.time.day != q.date.day
    decreases |quotes|
    ensures Run(table, db, quotes) == BatchState(AddedLog(rs, quotes), db + AddedPrices(rs, quotes))
  {
    if quotes != [] {
      var n := |quotes| - 1;
      DistinctDaysSplit(table, db, quotes, rs, n);
      DistinctDaysAllAdded(table, db, quotes[..n], rs);
      AddedLogStep(table, db, quotes[..n], quotes[n], rs);
      SplitLast(quotes);
    }
  }

  /** The batch of the test suite: records for one commodity on distinct new
      days, followed by a repeat of the first record, raise nothing and add
      exactly one price per distinct day; the repeat is skipped. */
  lemma DistinctDaysThenRepeat(table: CommodityTable, db: seq<Price>, quotes: seq<Quote>, rs: Resolved)
    requires |quotes| > 0
    requires forall q :: q in quotes ==> Resolve(table, RequestOf(q)) == Success(rs)
    requires forall i, j :: 0 <= i < j < |quotes| ==> quotes[i].date.day != quotes[j].date.day
    requires forall p, q :: p in PricesFor(db, rs.commodity, rs.currency) && q in quotes ==> p.time.day != q.date.day
    ensures ErrorCount(Run(table, db, quotes + [quotes[0]]).log) == 0
    ensures Run(table, db, quotes + [quotes[0]]).prices == db + AddedPrices(rs, quotes)
    ensures Run(table, db, quotes + [quotes[0]]).log[|quotes|]
      == Skipped(rs.commodity.cusip, RequestOf(quotes[0]).currency, quotes[0].date)
  {
    DistinctDaysAllAdded(table, db, quotes, rs);
    var ra := Run(table, db, quotes);
    AddedLogCounts(rs, quotes);
    CoveredAfterCleanRun(table, db, quotes, 0);
    RunSingle(table, ra.prices, quotes[0]);
    var o := Skipped(rs.commodity.cusip, RequestOf(quotes[0]).currency, quotes[0].date);
    assert Run(table, ra.prices, [quotes[0]]) == BatchState([o], ra.prices);
    RunSplit(table, db, quotes, [quotes[0]]);
    CountsAppendOne(ra.log, o);
  }
}
