/**
 * Commodity resolution: choosing the namespaces to search, and finding the
 * first commodity of those namespaces whose ISIN (or full name) equals a key,
 * in namespace-then-commodity order. Also the currency lookup by code.
 */
module CommodityResolver {
  import opened Wrappers
  import opened Ledger

  /** The commodity attribute a search compares with its key. */
  datatype Field = Cusip | FullName | Mnemonic

  function KeyOf(c: Commodity, f: Field): string
  {
    match f
    case Cusip => c.cusip
    case FullName => c.fullname
    case Mnemonic => c.mnemonic
  }

  /** The namespaces a search covers: the one called `name`, none when no
      namespace has that name, or every namespace when `name` is empty. */
  function NamespacesList(table: CommodityTable, name: string): (r: Option<seq<string>>)
    ensures r.None? <==> name != "" && name !in table.commodities
    ensures name == "" ==> r == Some(table.namespaces)
    ensures name != "" && r.Some? ==> r.value == [name]
  {
    if name != "" then
      if name in table.commodities then Some([name]) else None
    else
      Some(table.namespaces)
  }

  /** In a well-formed table the namespaces chosen are exactly the existing
      ones the name selects. */
  lemma NamespacesListSelects(table: CommodityTable, name: string, n: string)
    requires WellFormed(table)
    requires NamespacesList(table, name).Some?
    ensures n in NamespacesList(table, name).value <==> n in table.commodities && (name == "" || n == name)
  {
  }

  /** The commodities of `names`, namespace after namespace, each namespace's
      commodities in table order. */
  function ScopedCommodities(table: CommodityTable, names: seq<string>): seq<Commodity>
  {
    if names == [] then []
    else ScopedCommodities(table, names[..|names| - 1]) + CommoditiesOf(table, names[|names| - 1])
  }

  /** The scope holds exactly the commodities of its namespaces. */
  lemma {:induction false} ScopedCommoditiesMembers(table: CommodityTable, names: seq<string>, c: Commodity)
    ensures c in ScopedCommodities(table, names) <==> exists k :: 0 <= k < |names| && c in CommoditiesOf(table, names[k])
  {
    if names != [] {
      var front := names[..|names| - 1];
      ScopedCommoditiesMembers(table, front, c);
      assert forall k :: 0 <= k < |front| ==> front[k] == names[k];
      if c in CommoditiesOf(table, names[|names| - 1]) {
        assert 0 <= |names| - 1 < |names|;
      }
    }
  }

  /** Scanning one more namespace appends its commodities. */
  lemma ScopedCommoditiesStep(table: CommodityTable, names: seq<string>, i: nat)
    requires i < |names|
    ensures ScopedCommodities(table, names[..i + 1]) == ScopedCommodities(table, names[..i]) + CommoditiesOf(table, names[i])
  {
    assert names[..i + 1][..i] == names[..i];
  }

  /** The commodities of the first `i` namespaces come first. */
  lemma {:induction false} ScopedCommoditiesPrefix(table: CommodityTable, names: seq<string>, i: nat)
    requires i <= |names|
    ensures ScopedCommodities(table, names[..i]) <= ScopedCommodities(table, names)
  {
    if i < |names| {
      var front := names[..|names| - 1];
      assert names[..i] == front[..i];
      ScopedCommoditiesPrefix(table, front, i);
      assert front == names[..|names| - 1];
    } else {
      assert names[..i] == names;
    }
  }

  /** The index of the first commodity of `cs` whose field `f` equals `key`. */
  function FindIndex(cs: seq<Commodity>, f: Field, key: string): (r: Option<nat>)
    ensures r.Some? ==> r.value < |cs| && KeyOf(cs[r.value], f) == key
    ensures r.Some? ==> forall j :: 0 <= j < r.value ==> KeyOf(cs[j], f) != key
    ensures r.None? <==> forall j :: 0 <= j < |cs| ==> KeyOf(cs[j], f) != key
  {
    if cs == [] then None
    else if KeyOf(cs[0], f) == key then Some(0)
    else
      match FindIndex(cs[1..], f, key)
      case None => None
      case Some(i) => Some(i + 1)
  }

  /** The first-match index is determined by the position of the first match. */
  lemma FindIndexAt(cs: seq<Commodity>, f: Field, key: string, m: nat)
    requires m < |cs| && KeyOf(cs[m], f) == key
    requires forall j :: 0 <= j < m ==> KeyOf(cs[j], f) != key
    ensures FindIndex(cs, f, key) == Some(m)
  {
  }

  /** The first commodity of the scope `names` whose field `f` equals `key`. */
  function FirstInScope(table: CommodityTable, names: seq<string>, f: Field, key: string): (r: Option<Commodity>)
    ensures r.Some? ==> KeyOf(r.value, f) == key
  {
    var cs := ScopedCommodities(table, names);
    match FindIndex(cs, f, key)
    case None => None
    case Some(i) => Some(cs[i])
  }

  /** What a commodity search returns: nothing for an empty key or a missing
      namespace, otherwise the first scoped commodity whose field `f` equals
      `key`, or nothing when there is none. */
  function Lookup(table: CommodityTable, f: Field, key: string, name: string): (r: Option<Commodity>)
    ensures key == "" ==> r.None?
    ensures NamespacesList(table, name).None? ==> r.None?
    ensures r.Some? ==> KeyOf(r.value, f) == key
  {
    if key == "" then None
    else
      match NamespacesList(table, name)
      case None => None
      case Some(names) => FirstInScope(table, names, f, key)
  }

  /** `c` is the first commodity of `cs` whose field `f` equals `key`. */
  ghost predicate IsFirstMatch(cs: seq<Commodity>, f: Field, key: string, c: Commodity)
  {
    exists i :: 0 <= i < |cs| && cs[i] == c && KeyOf(c, f) == key && forall j :: 0 <= j < i ==> KeyOf(cs[j], f) != key
  }

  /** A found commodity is the first match in namespace-then-commodity order,
      and it belongs to one of the scoped namespaces. */
  lemma LookupIsFirstMatch(table: CommodityTable, f: Field, key: string, name: string)
    requires Lookup(table, f, key, name).Some?
    ensures IsFirstMatch(ScopedCommodities(table, NamespacesList(table, name).value), f, key, Lookup(table, f, key, name).value)
    ensures exists k :: (0 <= k < |NamespacesList(table, name).value|
      && Lookup(table, f, key, name).value in CommoditiesOf(table, NamespacesList(table, name).value[k]))
  {
    var names := NamespacesList(table, name).value;
    var cs := ScopedCommodities(table, names);
    var i := FindIndex(cs, f, key).value;
    assert 0 <= i < |cs| && cs[i] == Lookup(table, f, key, name).value
      && forall j :: 0 <= j < i ==> KeyOf(cs[j], f) != key;
    assert cs[i] in cs;
    ScopedCommoditiesMembers(table, names, cs[i]);
  }

  /** A search with a non-empty key in an existing scope finds nothing
      exactly when no scoped commodity carries the key. */
  lemma LookupNoneIff(table: CommodityTable, f: Field, key: string, name: string)
    requires key != "" && NamespacesList(table, name).Some?
    ensures Lookup(table, f, key, name).None? <==>
      forall c :: c in ScopedCommodities(table, NamespacesList(table, name).value) ==> KeyOf(c, f) != key
  {
    var cs := ScopedCommodities(table, NamespacesList(table, name).value);
    if Lookup(table, f, key, name).None? {
      forall c | c in cs ensures KeyOf(c, f) != key {
        var j :| 0 <= j < |cs| && cs[j] == c;
      }
    }
  }

  /** In a well-formed table, a search restricted to a namespace returns a
      commodity of that namespace. */
  lemma LookupStaysInNamespace(table: CommodityTable, f: Field, key: string, name: string)
    requires WellFormed(table) && name != ""
    requires Lookup(table, f, key, name).Some?
    ensures Lookup(table, f, key, name).value.namespace == name
  {
    LookupIsFirstMatch(table, f, key, name);
  }

  /** Every commodity with an ISIN is found by that ISIN when the search is
      restricted to its own namespace. */
  lemma OwnNamespaceFindsIsin(table: CommodityTable, c: Commodity)
    requires WellFormed(table) && c.namespace != "" && c.namespace in table.commodities
    requires c in table.commodities[c.namespace] && c.cusip != ""
    ensures Lookup(table, Cusip, c.cusip, c.namespace).Some?
    ensures Lookup(table, Cusip, c.cusip, c.namespace).value.cusip == c.cusip
    ensures Lookup(table, Cusip, c.cusip, c.namespace).value.namespace == c.namespace
  {
    var names := [c.namespace];
    assert NamespacesList(table, c.namespace) == Some(names);
    assert c in CommoditiesOf(table, names[0]);
    ScopedCommoditiesMembers(table, names, c);
    LookupNoneIff(table, Cusip, c.cusip, c.namespace);
    LookupStaysInNamespace(table, Cusip, c.cusip, c.namespace);
  }

  /** A search restricted to a namespace that holds no commodity with the
      key finds nothing, whatever the other namespaces hold. */
  lemma OtherNamespaceFindsNothing(table: CommodityTable, f: Field, key: string, name: string)
    requires name != ""
    requires forall c :: c in CommoditiesOf(table, name) ==> KeyOf(c, f) != key
    ensures Lookup(table, f, key, name).None?
  {
    if key != "" && NamespacesList(table, name).Some? {
      LookupNoneIff(table, f, key, name);
    }
  }

  /** A match at position `j` of namespace `i`, after no match in the
      namespaces before it, is the first match of the whole scope. */
  lemma FirstMatchInNamespace(table: CommodityTable, names: seq<string>, i: nat, f: Field, key: string, j: nat, m: nat)
    requires i < |names|
    requires FindIndex(ScopedCommodities(table, names[..i]), f, key).None?
    requires j < |CommoditiesOf(table, names[i])| && KeyOf(CommoditiesOf(table, names[i])[j], f) == key
    requires forall k :: 0 <= k < j ==> KeyOf(CommoditiesOf(table, names[i])[k], f) != key
    requires m == |ScopedCommodities(table, names[..i])| + j
    ensures FindIndex(ScopedCommodities(table, names), f, key) == Some(m)
    ensures m < |ScopedCommodities(table, names)| && ScopedCommodities(table, names)[m] == CommoditiesOf(table, names[i])[j]
  {
    var seen := ScopedCommodities(table, names[..i]);
    var cs := CommoditiesOf(table, names[i]);
    var all := ScopedCommodities(table, names);
    ScopedCommoditiesStep(table, names, i);
    ScopedCommoditiesPrefix(table, names, i + 1);
    assert seen + cs <= all;
    assert all[m] == (seen + cs)[m] == cs[j];
    forall k | 0 <= k < m ensures KeyOf(all[k], f) != key {
      assert all[k] == (seen + cs)[k];
      if k < |seen| {
        assert all[k] == seen[k];
      } else {
        assert all[k] == cs[k - |seen|];
      }
    }
    FindIndexAt(all, f, key, m);
  }

  /** A namespace without a match extends the match-free part of the scope. */
  lemma NoMatchInNamespace(table: CommodityTable, names: seq<string>, i: nat, f: Field, key: string)
    requires i < |names|
    requires FindIndex(ScopedCommodities(table, names[..i]), f, key).None?
    requires forall k :: 0 <= k < |CommoditiesOf(table, names[i])| ==> KeyOf(CommoditiesOf(table, names[i])[k], f) != key
    ensures FindIndex(ScopedCommodities(table, names[..i + 1]), f, key).None?
  {
    var seen := ScopedCommodities(table, names[..i]);
    var cs := CommoditiesOf(table, names[i]);
    ScopedCommoditiesStep(table, names, i);
    var next := seen + cs;
    forall k | 0 <= k < |next| ensures KeyOf(next[k], f) != key {
      if k >= |seen| {
        assert next[k] == cs[k - |seen|];
      } else {
        assert next[k] == seen[k];
      }
    }
  }

  /** The scope's commodity at the first-match index is the scope's first match. */
  lemma FirstInScopeAt(table: CommodityTable, names: seq<string>, f: Field, key: string, m: nat, c: Commodity)
    requires FindIndex(ScopedCommodities(table, names), f, key) == Some(m)
    requires ScopedCommodities(table, names)[m] == c
    ensures FirstInScope(table, names, f, key) == Some(c)
  {
  }

  /** The first match of namespace `i`, after no match in the namespaces
      before it, is the scope's first match. */
  lemma FoundInNamespace(table: CommodityTable, names: seq<string>, f: Field, key: string, i: nat, j: nat)
    requires i < |names|
    requires FindIndex(ScopedCommodities(table, names[..i]), f, key).None?
    requires FindIndex(CommoditiesOf(table, names[i]), f, key) == Some(j)
    ensures FirstInScope(table, names, f, key) == Some(CommoditiesOf(table, names[i])[j])
  {
    var m := |ScopedCommodities(table, names[..i])| + j;
    FirstMatchInNamespace(table, names, i, f, key, j, m);
    FirstInScopeAt(table, names, f, key, m, CommoditiesOf(table, names[i])[j]);
  }

  /** The inner loop of a search: the position of the first commodity of one
      namespace whose field `f` equals `key`. */
  method ScanNamespace(cs: seq<Commodity>, f: Field, key: string) returns (r: Option<nat>)
    ensures r == FindIndex(cs, f, key)
  {
    var j := 0;
    while j < |cs|
      invariant 0 <= j <= |cs|
      invariant forall k :: 0 <= k < j ==> KeyOf(cs[k], f) != key
    {
      if key == KeyOf(cs[j], f) {
        FindIndexAt(cs, f, key, j);
        return Some(j);
      }
      j := j + 1;
    }
    return None;
  }

  /** The outer loop of a search: namespace by namespace, the first match of
      each namespace, until one is found. */
  method ScanScope(table: CommodityTable, names: seq<string>, f: Field, key: string) returns (r: Option<Commodity>)
    ensures r == FirstInScope(table, names, f, key)
  {
    var i := 0;
    while i < |names|
      invariant 0 <= i <= |names|
      invariant FindIndex(ScopedCommodities(table, names[..i]), f, key).None?
    {
      var commodities := CommoditiesOf(table, names[i]);
      var m := ScanNamespace(commodities, f, key);
      if m.Some? {
        FoundInNamespace(table, names, f, key, i, m.value);
        return Some(commodities[m.value]);
      }
      NoMatchInNamespace(table, names, i, f, key);
      i := i + 1;
    }
    assert names[..i] == names;
    return None;
  }

  /** The search of the ISIN and full-name lookups: nothing for an empty key
      or a missing namespace, otherwise the scan of the chosen namespaces. */
  method GetCommodity(table: CommodityTable, f: Field, key: string, name: string) returns (r: Option<Commodity>)
    ensures r == Lookup(table, f, key, name)
  {
    if key == "" {
      return None;
    }
    var scope := NamespacesList(table, name);
    if scope.None? {
      return None;
    }
    r := ScanScope(table, scope.value, f, key);
  }

  /** get_commodity_by_isin: the first scoped commodity whose ISIN is `isin`. */
  method GetCommodityByIsin(table: CommodityTable, isin: string, name: string) returns (r: Option<Commodity>)
    ensures isin == "" ==> r.None?
    ensures r.Some? ==> r.value.cusip == isin
    ensures r == Lookup(table, Cusip, isin, name)
  {
    r := GetCommodity(table, Cusip, isin, name);
  }

  /** get_commodity_by_fullname: the first scoped commodity whose full name is `fullname`. */
  method GetCommodityByFullname(table: CommodityTable, fullname: string, name: string) returns (r: Option<Commodity>)
    ensures fullname == "" ==> r.None?
    ensures r.Some? ==> r.value.fullname == fullname
    ensures r == Lookup(table, FullName, fullname, name)
  {
    r := GetCommodity(table, FullName, fullname, name);
  }

  /** get_currency: the commodity of the currency namespace whose code is `code`. */
  function GetCurrency(table: CommodityTable, code: string): (r: Option<Commodity>)
    ensures r.Some? ==> r.value.mnemonic == code && r.value in CommoditiesOf(table, CurrencyNamespace)
    ensures r.None? <==> forall c :: c in CommoditiesOf(table, CurrencyNamespace) ==> c.mnemonic != code
  {
    var currencies := CommoditiesOf(table, CurrencyNamespace);
    match FindIndex(currencies, Mnemonic, code)
    case None =>
      assert forall c :: c in currencies ==> KeyOf(c, Mnemonic) != code;
      None
    case Some(i) => Some(currencies[i])
  }
}
