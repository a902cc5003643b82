/**
 * Same-day price lookup: among the prices the database holds for a
 * (commodity, currency) pair, the first one whose calendar day is the
 * target's day, whatever the time of day.
 */
module PriceLookup {
  import opened Wrappers
  import opened Ledger

  /** The prices of the database for `commodity` in `currency`, in database order. */
  function PricesFor(db: seq<Price>, commodity: Commodity, currency: Commodity): (r: seq<Price>)
    ensures forall p :: p in r <==> p in db && p.commodity == commodity && p.currency == currency
  {
    if db == [] then []
    else
      var rest := PricesFor(db[1..], commodity, currency);
      assert forall p :: p in db <==> p == db[0] || p in db[1..];
      if db[0].commodity == commodity && db[0].currency == currency then [db[0]] + rest else rest
  }

  /** Filtering a concatenation filters each part. */
  lemma {:induction false} PricesForAppend(a: seq<Price>, b: seq<Price>, commodity: Commodity, currency: Commodity)
    ensures PricesFor(a + b, commodity, currency) == PricesFor(a, commodity, currency) + PricesFor(b, commodity, currency)
  {
    if a != [] {
      assert (a + b)[1..] == a[1..] + b;
      PricesForAppend(a[1..], b, commodity, currency);
    } else {
      assert a + b == b;
    }
  }

  /** The index of the first price of `ps` that falls on `day`. */
  function FirstOnDay(ps: seq<Price>, day: int): (r: Option<nat>)
    ensures r.Some? ==> r.value < |ps| && ps[r.value].time.day == day
    ensures r.Some? ==> forall j :: 0 <= j < r.value ==> ps[j].time.day != day
    ensures r.None? <==> forall j :: 0 <= j < |ps| ==> ps[j].time.day != day
  {
    if ps == [] then None
    else if ps[0].time.day == day then Some(0)
    else
      match FirstOnDay(ps[1..], day)
      case None => None
      case Some(i) => Some(i + 1)
  }

  /** The price a same-day lookup finds: the first price of the pair whose
      calendar day is `day`, or none. */
  function SameDayPrice(db: seq<Price>, commodity: Commodity, currency: Commodity, day: int): (r: Option<Price>)
    ensures r.Some? ==> r.value in db && r.value.commodity == commodity && r.value.currency == currency
    ensures r.Some? ==> r.value.time.day == day
    ensures r.None? <==> forall p :: p in db && p.commodity == commodity && p.currency == currency ==> p.time.day != day
  {
    var ps := PricesFor(db, commodity, currency);
    match FirstOnDay(ps, day)
    case None =>
      assert forall p :: p in ps ==> p.time.day != day;
      None
    case Some(i) =>
      assert ps[i] in ps;
      Some(ps[i])
  }

  /** find_price: scans the prices of the pair and returns the first one on
      the calendar day of `date`. */
  method FindPrice(db: seq<Price>, commodity: Commodity, currency: Commodity, date: Timestamp) returns (r: Option<Price>)
    ensures r == SameDayPrice(db, commodity, currency, date.day)
  {
    var prices := PricesFor(db, commodity, currency);
    var i := 0;
    while i < |prices|
      invariant 0 <= i <= |prices|
      invariant forall j :: 0 <= j < i ==> prices[j].time.day != date.day
    {
      if prices[i].time.day == date.day {
        assert FirstOnDay(prices, date.day) == Some(i);
        return Some(prices[i]);
      }
      i := i + 1;
    }
    return None;
  }

  /** Once a same-day price exists, appending prices does not change which one
      is found: lookups are stable under the only change the importer makes. */
  lemma SameDayPriceStable(db: seq<Price>, more: seq<Price>, commodity: Commodity, currency: Commodity, day: int)
    requires SameDayPrice(db, commodity, currency, day).Some?
    ensures SameDayPrice(db + more, commodity, currency, day) == SameDayPrice(db, commodity, currency, day)
  {
    var ps := PricesFor(db, commodity, currency);
    var qs := PricesFor(more, commodity, currency);
    PricesForAppend(db, more, commodity, currency);
    FirstOnDayPrefix(ps, qs, day);
  }

  /** A day found in `ps` is found at the same index in any extension of `ps`. */
  lemma FirstOnDayPrefix(ps: seq<Price>, qs: seq<Price>, day: int)
    requires FirstOnDay(ps, day).Some?
    ensures FirstOnDay(ps + qs, day) == FirstOnDay(ps, day)
    ensures (ps + qs)[FirstOnDay(ps, day).value] == ps[FirstOnDay(ps, day).value]
  {
    var i := FirstOnDay(ps, day).value;
    assert (ps + qs)[i] == ps[i];
    assert forall j :: 0 <= j < i ==> (ps + qs)[j] == ps[j];
  }

  /** Appending a price of the pair on a day that had none makes it the one found. */
  lemma SameDayPriceAppendNew(db: seq<Price>, p: Price)
    requires SameDayPrice(db, p.commodity, p.currency, p.time.day).None?
    ensures SameDayPrice(db + [p], p.commodity, p.currency, p.time.day) == Some(p)
  {
    var ps := PricesFor(db, p.commodity, p.currency);
    PricesForAppend(db, [p], p.commodity, p.currency);
    assert PricesFor([p], p.commodity, p.currency) == [p];
    assert forall j :: 0 <= j < |ps| ==> ps[j] in ps;
    assert FirstOnDay(ps + [p], p.time.day) == Some(|ps|);
  }

  /** Appending a price for another pair or another day changes no lookup
      result for this pair and day. */
  lemma SameDayPriceAppendOther(db: seq<Price>, p: Price, commodity: Commodity, currency: Commodity, day: int)
    requires p.commodity != commodity || p.currency != currency || p.time.day != day
    ensures SameDayPrice(db + [p], commodity, currency, day) == SameDayPrice(db, commodity, currency, day)
  {
    if SameDayPrice(db, commodity, currency, day).Some? {
      SameDayPriceStable(db, [p], commodity, currency, day);
    } else {
      forall q | q in db + [p] && q.commodity == commodity && q.currency == currency
        ensures q.time.day != day
      {
        if q != p {
          assert q in db;
        }
      }
    }
  }
}
