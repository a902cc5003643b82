/**
 * The ledger objects the price importer reads and writes, seen as values:
 * commodities grouped in namespaces (the commodity table), timestamps with a
 * calendar day, and the price records of the price database.
 */
module Ledger {

  /** A commodity of the ledger: a security or a currency. `cusip` is the field
      that holds a security's ISIN. */
  datatype Commodity = Commodity(namespace: string, mnemonic: string, fullname: string, cusip: string)

  /** The commodity table: the namespace names in the order the table lists
      them, and the commodities of each namespace in the order it lists them. */
  datatype CommodityTable = CommodityTable(namespaces: seq<string>, commodities: map<string, seq<Commodity>>)

  /** The commodities of the namespace called `name`; none when it does not exist. */
  function CommoditiesOf(table: CommodityTable, name: string): seq<Commodity>
  {
    if name in table.commodities then table.commodities[name] else []
  }

  /** A table the ledger can build: every namespace is listed exactly once and
      every commodity sits in the namespace it names. */
  ghost predicate WellFormed(table: CommodityTable)
  {
    && (forall i, j :: 0 <= i < j < |table.namespaces| ==> table.namespaces[i] != table.namespaces[j])
    && (forall n :: n in table.commodities <==> n in table.namespaces)
    && (forall n, c :: n in table.commodities && c in table.commodities[n] ==> c.namespace == n)
  }

  /** A point in time: the calendar day it falls on, and the second within that day. */
  datatype Timestamp = Timestamp(day: int, second: int)

  /** A record of the price database: the value of one unit of `commodity`,
      expressed in `currency`, at `time`; `source` tells who entered it. */
  datatype Price = Price(commodity: Commodity, currency: Commodity, time: Timestamp, value: real, source: int)

  /** The namespace in which currencies are looked up by their code. */
  const CurrencyNamespace: string := "ISO4217"

  /** The source tag of a price entered by the user. */
  const UserPriceSource: int := 2

  /** The largest difference between a quote and a stored same-day price that
      still counts as the same price. */
  const Tolerance: real := 0.02

  function Abs(x: real): real
  {
    if x < 0.0 then -x else x
  }
}
