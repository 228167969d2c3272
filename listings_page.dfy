/** The public listings page (`ListingsPage`): the filters read from the URL
    query on mount, the query written back after every filter change, and
    the filter and page handlers.

    A filter object is an association list in property order; the URL query
    is a list of name/value pairs. */
module ListingsPage {
  import opened JsCore

  /** A filter property's value. */
  datatype FValue = Undefined | Null | Str(s: string) | Num(n: JsInt)

  type Entries = seq<(string, FValue)>

  type Query = seq<(string, string)>

  predicate DistinctKeys<V>(e: seq<(string, V)>) {
    forall i, j :: 0 <= i < j < |e| ==> e[i].0 != e[j].0
  }

  predicate HasKey<V>(e: seq<(string, V)>, key: string) {
    exists i :: 0 <= i < |e| && e[i].0 == key
  }

  /** The value of the first pair named `key` (`searchParams.get`, or a
      property read). */
  function Lookup<V>(e: seq<(string, V)>, key: string): (r: Option<V>)
    ensures r.Some? <==> HasKey(e, key)
    decreases |e|
  {
    if e == [] then None
    else if e[0].0 == key then Some(e[0].1)
    else
      HasKeyTail(e, key);
      Lookup(e[1..], key)
  }

  /** Past a first pair with another name, the key is present exactly when it
      is present in the rest. */
  lemma HasKeyTail<V>(e: seq<(string, V)>, key: string)
    requires e != [] && e[0].0 != key
    ensures HasKey(e, key) <==> HasKey(e[1..], key)
  {
    if HasKey(e, key) {
      var i :| 0 <= i < |e| && e[i].0 == key;
      assert e[1..][i - 1].0 == key;
    }
    if HasKey(e[1..], key) {
      var i :| 0 <= i < |e[1..]| && e[1..][i].0 == key;
      assert e[i + 1].0 == key;
    }
  }

  /** A property is written to the query unless it is undefined, null or ''. */
  predicate Written(v: FValue) {
    !(v.Undefined? || v.Null? || v == Str(""))
  }

  /** `value.toString()`. */
  function ValueString(v: FValue): string
    requires v.Str? || v.Num?
  {
    if v.Str? then v.s else JsIntToString(v.n)
  }

  // ---------------------------------------------------------------------------
  // The initial parse

  /** `parseInt(v)` for a present, non-empty parameter, else undefined. */
  function OptionalNumber(v: Option<string>): (r: FValue)
    ensures r.Undefined? <==> !Truthy(v)
    ensures Truthy(v) ==> r == Num(ParseInt(v.value))
  {
    if Truthy(v) then Num(ParseInt(v.value)) else Undefined
  }

  /** The eight filter properties, in the order the parse lists them. */
  const FilterKeys: seq<string> := ["page", "search", "categoryId", "minPrice", "maxPrice", "location", "sortBy", "sortOrder"]

  const NumericKeys := {"categoryId", "minPrice", "maxPrice"}

  /** The fallback of a text filter. */
  function TextDefault(key: string): string {
    if key == "sortBy" then "createdAt" else if key == "sortOrder" then "desc" else ""
  }

  /** One property of the parse: the page defaults to '1' and is always
      parsed, the price and category bounds are parsed only when present,
      the rest are texts with their fallbacks. */
  function ParsedValue(q: Query, key: string): (r: FValue)
    ensures key == "page" ==> r == Num(ParseInt(OrElse(Lookup(q, key), "1")))
    ensures key in NumericKeys ==> r == OptionalNumber(Lookup(q, key))
    ensures key != "page" && key !in NumericKeys ==> r == Str(OrElse(Lookup(q, key), TextDefault(key)))
  {
    var v := Lookup(q, key);
    if key == "page" then Num(ParseInt(OrElse(v, "1")))
    else if key in NumericKeys then OptionalNumber(v)
    else Str(OrElse(v, TextDefault(key)))
  }

  /** The filters read from the query. */
  function ParseFilters(q: Query): (r: Entries)
    ensures |r| == |FilterKeys|
    ensures forall i :: 0 <= i < |r| ==> r[i] == (FilterKeys[i], ParsedValue(q, FilterKeys[i]))
  {
    seq(|FilterKeys|, i requires 0 <= i < |FilterKeys| => (FilterKeys[i], ParsedValue(q, FilterKeys[i])))
  }

  /** Looking a key up in a list with distinct keys finds its own pair. */
  lemma {:induction false} LookupAt<V>(e: seq<(string, V)>, i: int)
    requires DistinctKeys(e) && 0 <= i < |e|
    ensures Lookup(e, e[i].0) == Some(e[i].1)
    decreases i
  {
    if i > 0 {
      assert e[0].0 != e[i].0;
      assert DistinctKeys(e[1..]) by {
        assert forall a :: 0 <= a < |e| - 1 ==> e[1..][a] == e[a + 1];
      }
      assert e[1..][i - 1] == e[i];
      LookupAt(e[1..], i - 1);
    }
  }

  lemma FilterKeysDistinct()
    ensures forall i, j :: 0 <= i < j < |FilterKeys| ==> FilterKeys[i] != FilterKeys[j]
  {
  }

  /** The parse has one property per filter name. */
  lemma ParseFiltersDistinct(q: Query)
    ensures DistinctKeys(ParseFilters(q))
  {
    var f := ParseFilters(q);
    assert forall i :: 0 <= i < |f| ==> f[i].0 == FilterKeys[i];
    FilterKeysDistinct();
  }

  /** Each filter of the parse is read as `ParsedValue`; no other property is
      present. */
  lemma LookupParsed(q: Query, key: string)
    ensures DistinctKeys(ParseFilters(q))
    ensures Lookup(ParseFilters(q), key) == if key in FilterKeys then Some(ParsedValue(q, key)) else None
  {
    var f := ParseFilters(q);
    ParseFiltersDistinct(q);
    if key in FilterKeys {
      var i :| 0 <= i < |FilterKeys| && FilterKeys[i] == key;
      LookupAt(f, i);
    } else {
      assert forall i :: 0 <= i < |f| ==> f[i].0 != key;
    }
  }

  /** An empty query gives page 1, empty search and location, no numeric
      bounds and the newest-first order. */
  lemma DefaultFilters()
    ensures ParseFilters([]) == [("page", Num(Int(1))), ("search", Str("")), ("categoryId", Undefined),
      ("minPrice", Undefined), ("maxPrice", Undefined), ("location", Str("")),
      ("sortBy", Str("createdAt")), ("sortOrder", Str("desc"))]
  {
    assert IntToString(1) == "1";
    ParseIntOfIntToString(1);
  }

  // ---------------------------------------------------------------------------
  // Writing the query back

  /** `params.set(key, value)`: the first pair named `key` takes the value and
      any later ones go; without one, the pair is appended. */
  function UrlSet(q: Query, key: string, value: string): (r: Query)
    ensures !HasKey(q, key) ==> r == q + [(key, value)]
    decreases |q|
  {
    if q == [] then [(key, value)]
    else if q[0].0 == key then [(key, value)] + RemoveKey(q[1..], key)
    else
      assert !HasKey(q, key) ==> !HasKey(q[1..], key) by {
        if HasKey(q[1..], key) {
          var i :| 0 <= i < |q[1..]| && q[1..][i].0 == key;
          assert q[i + 1].0 == key;
        }
      }
      [q[0]] + UrlSet(q[1..], key, value)
  }

  function RemoveKey(q: Query, key: string): Query
    decreases |q|
  {
    if q == [] then [] else (if q[0].0 == key then [] else [q[0]]) + RemoveKey(q[1..], key)
  }

  /** The query the effect writes: the written properties, in order, as
      strings. */
  function Serialized(e: Entries): (r: Query)
    ensures forall i :: 0 <= i < |r| ==> HasKey(e, r[i].0)
    decreases |e|
  {
    if e == [] then []
    else
      var init := Serialized(e[..|e| - 1]);
      var (k, v) := e[|e| - 1];
      assert forall i :: 0 <= i < |init| ==> HasKey(e, init[i].0) by {
        forall i | 0 <= i < |init| ensures HasKey(e, init[i].0) {
          var j :| 0 <= j < |e[..|e| - 1]| && e[..|e| - 1][j].0 == init[i].0;
          assert e[j].0 == init[i].0;
        }
      }
      init + (if Written(v) then [(k, ValueString(v))] else [])
  }

  /** The `forEach` over `Object.entries(filters)`. */
  method SerializeFilters(e: Entries) returns (params: Query)
    requires DistinctKeys(e)
    ensures params == Serialized(e)
  {
    params := [];
    var i := 0;
    while i < |e|
      invariant 0 <= i <= |e|
      invariant params == Serialized(e[..i])
    {
      var (key, value) := e[i];
      assert e[..i + 1][..i] == e[..i];
      if value != Undefined && value != Null && value != Str("") {
        forall j | 0 <= j < |params| ensures params[j].0 != key {
          var m :| 0 <= m < |e[..i]| && e[..i][m].0 == params[j].0;
          assert e[m].0 == params[j].0;
        }
        params := UrlSet(params, key, ValueString(value));
      }
      i := i + 1;
    }
    assert e[..|e|] == e;
  }

  /** What the query shows for a property read from the filters. */
  function Shown(v: Option<FValue>): Option<string> {
    if v.Some? && Written(v.value) then Some(ValueString(v.value)) else None
  }

  /** Reading a written query: a property that was written is found with its
      string, any other name is absent. */
  lemma {:induction false} LookupSerialized(e: Entries, key: string)
    requires DistinctKeys(e)
    ensures Lookup(Serialized(e), key) == Shown(Lookup(e, key))
    decreases |e|
  {
    if e != [] {
      var init := e[..|e| - 1];
      var (k, v) := e[|e| - 1];
      var tail := if Written(v) then [(k, ValueString(v))] else [];
      DistinctInit(e);
      LookupSerialized(init, key);
      assert Serialized(e) == Serialized(init) + tail;
      LookupAppend(Serialized(init), tail, key);
      assert e == init + [(k, v)];
      LookupAppend(init, [(k, v)], key);
      if HasKey(init, key) {
        assert Lookup(tail, key) == None by { assert k != key; }
      } else {
        assert Lookup(Serialized(init), key) == None;
      }
    }
  }

  /** Without its last pair a list with distinct names still has them, and
      does not name the last pair's key. */
  lemma DistinctInit<V>(e: seq<(string, V)>)
    requires e != [] && DistinctKeys(e)
    ensures DistinctKeys(e[..|e| - 1]) && !HasKey(e[..|e| - 1], e[|e| - 1].0)
  {
    var init := e[..|e| - 1];
    assert forall j :: 0 <= j < |init| ==> init[j] == e[j];
  }

  lemma {:induction false} LookupAppend<V>(a: seq<(string, V)>, b: seq<(string, V)>, key: string)
    ensures Lookup(a + b, key) == if HasKey(a, key) then Lookup(a, key) else Lookup(b, key)
    decreases |a|
  {
    if a != [] {
      assert (a + b)[0] == a[0] && (a + b)[1..] == a[1..] + b;
      LookupAppend(a[1..], b, key);
      if a[0].0 != key {
        HasKeyTail(a, key);
      }
    } else {
      assert a + b == b;
    }
  }

  /** A printed integer is never empty. */
  lemma JsIntStringNonEmpty(n: JsInt)
    ensures JsIntToString(n) != ""
  {
    if n.Int? {
      assert |IntToString(n.v)| >= 1;
    }
  }

  /** Each filter of a parse reads back from the written query as itself. */
  lemma ParsedValueRoundTrip(q: Query, key: string)
    requires key in FilterKeys
    ensures ParsedValue(Serialized(ParseFilters(q)), key) == ParsedValue(q, key)
  {
    var f := ParseFilters(q);
    LookupParsed(q, key);
    LookupSerialized(f, key);
    var v := ParsedValue(q, key);
    if v.Num? {
      JsIntStringNonEmpty(v.n);
      ParseIntRoundTrip(v.n);
    }
  }

  /** The written query for parsed filters parses as the same filters, so the
      URL is stable after the first rewrite. */
  lemma ParseSerializeRoundTrip(q: Query)
    ensures ParseFilters(Serialized(ParseFilters(q))) == ParseFilters(q)
  {
    var w := Serialized(ParseFilters(q));
    forall i | 0 <= i < |FilterKeys|
      ensures ParsedValue(w, FilterKeys[i]) == ParsedValue(q, FilterKeys[i])
    {
      ParsedValueRoundTrip(q, FilterKeys[i]);
    }
  }

  /** Properties other than the eight parsed ones, such as `limit` or
      `category`, may be written to the query but are never read back. */
  lemma OtherKeysNotRestored(q: Query, key: string)
    requires key !in FilterKeys
    ensures Lookup(ParseFilters(q), key).None?
  {
    LookupParsed(q, key);
  }

  // ---------------------------------------------------------------------------
  // Handlers

  /** `{...o, key: v}`: an existing property keeps its place, a new one goes
      last. */
  function WithValue(o: Entries, key: string, v: FValue): (r: Entries)
    ensures Lookup(r, key) == Some(v)
    ensures forall k :: k != key ==> Lookup(r, k) == Lookup(o, k)
    ensures |r| == |o| + (if HasKey(o, key) then 0 else 1)
    ensures forall i :: 0 <= i < |o| ==> r[i].0 == o[i].0
    ensures !HasKey(o, key) ==> r == o + [(key, v)]
    decreases |o|
  {
    if o == [] then [(key, v)]
    else if o[0].0 == key then
      [(key, v)] + o[1..]
    else
      var rest := WithValue(o[1..], key, v);
      HasKeyTail(o, key);
      assert forall i :: 1 <= i < |o| ==> ([o[0]] + rest)[i].0 == o[1..][i - 1].0;
      [o[0]] + rest
  }

  const FirstPage := Num(Int(1))

  /** `handleFilterChange`: the new filters, on page 1. */
  function FilterChanged(newFilters: Entries): (r: Entries)
    ensures Lookup(r, "page") == Some(FirstPage)
    ensures forall k :: k != "page" ==> Lookup(r, k) == Lookup(newFilters, k)
  {
    WithValue(newFilters, "page", FirstPage)
  }

  /** `handlePageChange`: only the page changes. */
  function PageChanged(filters: Entries, page: int): (r: Entries)
    ensures Lookup(r, "page") == Some(Num(Int(page)))
    ensures forall k :: k != "page" ==> Lookup(r, k) == Lookup(filters, k)
  {
    WithValue(filters, "page", Num(Int(page)))
  }

  /** Spreading keeps the property names distinct. */
  lemma WithValueDistinct(o: Entries, key: string, v: FValue)
    requires DistinctKeys(o)
    ensures DistinctKeys(WithValue(o, key, v))
  {
    if !HasKey(o, key) {
      var r := WithValue(o, key, v);
      assert r == o + [(key, v)];
      assert forall i :: 0 <= i < |o| ==> r[i] == o[i] && o[i].0 != key;
    }
  }

  /** After a filter change the URL carries `page=1`. */
  lemma FilterChangeWritesFirstPage(newFilters: Entries)
    requires DistinctKeys(newFilters)
    ensures Lookup(Serialized(FilterChanged(newFilters)), "page") == Some("1")
  {
    WithValueDistinct(newFilters, "page", FirstPage);
    LookupSerialized(FilterChanged(newFilters), "page");
    assert IntToString(1) == "1";
  }

  /** A page change rewrites only the `page` parameter of the URL. */
  lemma PageChangeKeepsOtherParameters(filters: Entries, page: int, key: string)
    requires DistinctKeys(filters) && key != "page"
    ensures Lookup(Serialized(PageChanged(filters, page)), key) == Lookup(Serialized(filters), key)
  {
    WithValueDistinct(filters, "page", Num(Int(page)));
    LookupSerialized(PageChanged(filters, page), key);
    LookupSerialized(filters, key);
  }

  // ---------------------------------------------------------------------------
  // The page's state

  class ListingsView {
    var filters: Entries
    var query: Query
    /** The filter objects sent to `fetchListings`, in order. */
    var fetches: seq<Entries>

    /** The effect after every change of `filters`: fetch, then rewrite the
        URL. */
    method Sync()
      modifies this
      requires DistinctKeys(filters)
      ensures filters == old(filters)
      ensures fetches == old(fetches) + [filters]
      ensures query == Serialized(filters)
    {
      fetches := fetches + [filters];
      query := SerializeFilters(filters);
    }

    /** Mounting: parse the query, then run the effect once. */
    constructor (q: Query)
      ensures filters == ParseFilters(q)
      ensures fetches == [filters] && query == Serialized(filters)
    {
      var f := ParseFilters(q);
      ParseFiltersDistinct(q);
      var params := SerializeFilters(f);
      filters := f;
      fetches := [f];
      query := params;
    }

    method HandleFilterChange(newFilters: Entries)
      modifies this
      requires DistinctKeys(newFilters)
      ensures filters == FilterChanged(newFilters)
      ensures fetches == old(fetches) + [filters] && query == Serialized(filters)
    {
      filters := WithValue(newFilters, "page", FirstPage);
      WithValueDistinct(newFilters, "page", FirstPage);
      Sync();
    }

    method HandlePageChange(page: int)
      modifies this
      requires DistinctKeys(filters)
      ensures filters == PageChanged(old(filters), page)
      ensures fetches == old(fetches) + [filters] && query == Serialized(filters)
    {
      WithValueDistinct(filters, "page", Num(Int(page)));
      filters := WithValue(filters, "page", Num(Int(page)));
      Sync();
    }
  }
}
