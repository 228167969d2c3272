/** The prefixed key-value wrapper over the browser's `localStorage` /
    `sessionStorage`, and the three helper objects built on the application's
    instance (auth token, user preferences, recent searches).

    The browser store is the class `BrowserStorage`: an ordered list of keys and
    a map from key to string. Whether the browser accepts a write (it refuses
    one that exceeds its quota) is a function the store is created with. The
    wrapper `PrefixedStorage` holds the store, the prefix and the value codec;
    the codec is a pair of functions with `None` standing for an exception, and
    the JSON codec the application uses by default is the one for which they
    are inverse. Values are the JSON values of the `Json` datatype. */
module Storage {
  import opened JsCore

  datatype Json =
    | JNull
    | JBool(b: bool)
    | JNum(n: int)
    | JStr(s: string)
    | JArr(elems: seq<Json>)
    | JObj(fields: map<string, Json>)

  /** JavaScript truthiness of a JSON value. */
  predicate JsonTruthy(j: Json) {
    match j
    case JNull => false
    case JBool(b) => b
    case JNum(n) => n != 0
    case JStr(s) => s != ""
    case JArr(_) => true
    case JObj(_) => true
  }

  /** The prefix of the application's `localStorage` and `sessionStorage`
      instances. */
  const AppPrefix := "toagro"
  const TokenKey := "auth_token"
  const PreferencesKey := "user_preferences"
  const RecentSearchesKey := "recent_searches"
  /** The number of recent searches kept. */
  const MaxRecentSearches := 10

  // ---------------------------------------------------------------------------
  // Key prefixing

  /** `getKey`: the backing key of a wrapper key. */
  function PrefixedKey(prefix: string, key: string): (r: string)
    ensures prefix == "" ==> r == key
    ensures prefix != "" ==> StartsWith(r, prefix + "_") && r[|prefix| + 1..] == key
  {
    if prefix != "" then prefix + "_" + key else key
  }

  /** For a fixed prefix, distinct keys have distinct backing keys. */
  lemma PrefixedKeyInjective(prefix: string, k1: string, k2: string)
    requires PrefixedKey(prefix, k1) == PrefixedKey(prefix, k2)
    ensures k1 == k2
  {
  }

  // ---------------------------------------------------------------------------
  // The browser store as a value

  datatype Backing = Backing(keys: seq<string>, vals: map<string, string>)

  /** The key list has no duplicates and holds exactly the keys of the map. */
  ghost predicate WellFormed(b: Backing) {
    Distinct(b.keys) && forall k :: k in b.vals <==> k in b.keys
  }

  function Empty(): (b: Backing)
    ensures WellFormed(b) && b.vals == map[]
  {
    Backing([], map[])
  }

  /** Position of `k` in the key list, -1 when absent. */
  function KeyIndex(ks: seq<string>, k: string): (i: int)
    ensures -1 <= i < |ks|
    ensures i >= 0 ==> ks[i] == k && forall j :: 0 <= j < i ==> ks[j] != k
    ensures i == -1 <==> k !in ks
    decreases |ks|
  {
    if ks == [] then -1
    else if ks[0] == k then 0
    else
      var i := KeyIndex(ks[1..], k);
      if i == -1 then -1 else i + 1
  }

  /** In a list without duplicates, an element's index is its only position. */
  lemma KeyIndexDistinct(ks: seq<string>, i: int)
    requires Distinct(ks) && 0 <= i < |ks|
    ensures KeyIndex(ks, ks[i]) == i
  {
  }

  /** `storage.setItem(k, v)` once the browser accepted it: a new key goes to
      the end of the key list, an existing one keeps its place. */
  function Put(b: Backing, k: string, v: string): (r: Backing)
    requires WellFormed(b)
    ensures WellFormed(r) && r.vals == b.vals[k := v]
    ensures IsSubsequence(b.keys, r.keys)
  {
    if k in b.vals then
      SubsequenceRefl(b.keys);
      Backing(b.keys, b.vals[k := v])
    else
      var r := Backing(b.keys + [k], b.vals[k := v]);
      assert Distinct(r.keys) by {
        forall i, j | 0 <= i < j < |r.keys| ensures r.keys[i] != r.keys[j] {
          if j == |b.keys| {
            assert r.keys[i] == b.keys[i];
          }
        }
      }
      PrefixOfExtension(b.keys, [k]);
      r
  }

  /** `storage.removeItem(k)`: the key leaves both the list and the map; an
      absent key changes nothing. */
  function Remove(b: Backing, k: string): (r: Backing)
    requires WellFormed(b)
    ensures WellFormed(r) && r.vals == b.vals - {k}
    ensures k !in b.vals ==> r == b
    ensures k in b.vals ==> r.keys == b.keys[..KeyIndex(b.keys, k)] + b.keys[KeyIndex(b.keys, k) + 1..]
    ensures IsSubsequence(r.keys, b.keys)
  {
    var i := KeyIndex(b.keys, k);
    if i < 0 then
      assert b.vals - {k} == b.vals;
      SubsequenceRefl(b.keys);
      b
    else
      var ks := b.keys[..i] + b.keys[i + 1..];
      DropOneFacts(b.keys, i);
      DropOneIsSubsequence(b.keys, i);
      Backing(ks, b.vals - {k})
  }

  /** Dropping position `i` of a list without duplicates removes exactly that
      element and keeps the list free of duplicates. */
  lemma DropOneFacts(s: seq<string>, i: int)
    requires Distinct(s) && 0 <= i < |s|
    ensures forall x :: x in s[..i] + s[i + 1..] <==> x in s && x != s[i]
    ensures Distinct(s[..i] + s[i + 1..])
  {
    var ks := s[..i] + s[i + 1..];
    forall x ensures x in ks <==> x in s && x != s[i] {
      if x in ks {
        var p :| 0 <= p < |ks| && ks[p] == x;
        if p < i { assert s[p] == x; } else { assert s[p + 1] == x; }
      }
      if x in s && x != s[i] {
        var p :| 0 <= p < |s| && s[p] == x;
        if p < i { assert ks[p] == x; } else { assert ks[p - 1] == x; }
      }
    }
    forall p, q | 0 <= p < q < |ks| ensures ks[p] != ks[q] {
      var p' := if p < i then p else p + 1;
      var q' := if q < i then q else q + 1;
      assert ks[p] == s[p'] && ks[q] == s[q'];
    }
  }

  /** The keys that `clear` keeps when the wrapper has a prefix. */
  function NotPrefixed(prefix: string): string -> bool {
    (x: string) => !StartsWith(x, prefix)
  }

  /** The store without every key starting with `prefix` (no `_` needed). */
  function WithoutPrefixed(b: Backing, prefix: string): (r: Backing)
    requires WellFormed(b)
    ensures WellFormed(r)
    ensures forall k :: k in r.vals <==> k in b.vals && !StartsWith(k, prefix)
    ensures forall k :: k in r.vals ==> r.vals[k] == b.vals[k]
    ensures IsSubsequence(r.keys, b.keys)
  {
    FilterDistinct(b.keys, NotPrefixed(prefix));
    FilterIsSubsequence(b.keys, NotPrefixed(prefix));
    Backing(Filter(b.keys, NotPrefixed(prefix)), map k | k in b.vals && !StartsWith(k, prefix) :: b.vals[k])
  }

  // ---------------------------------------------------------------------------
  // The wrapper's operations as functions of the store

  /** `getItem`: the deserialised value, or null when the backing key is
      missing, holds the empty string, or fails to deserialise. */
  function ReadItem(b: Backing, prefix: string, deserialize: string -> Option<Json>, key: string): (r: Json)
    ensures PrefixedKey(prefix, key) !in b.vals ==> r == JNull
    ensures PrefixedKey(prefix, key) in b.vals && b.vals[PrefixedKey(prefix, key)] != ""
            && deserialize(b.vals[PrefixedKey(prefix, key)]).Some?
            ==> r == deserialize(b.vals[PrefixedKey(prefix, key)]).value
    ensures PrefixedKey(prefix, key) in b.vals && b.vals[PrefixedKey(prefix, key)] == "" ==> r == JNull
    ensures PrefixedKey(prefix, key) in b.vals && deserialize(b.vals[PrefixedKey(prefix, key)]).None? ==> r == JNull
  {
    var k := PrefixedKey(prefix, key);
    if k !in b.vals || b.vals[k] == "" then JNull
    else match deserialize(b.vals[k])
      case None => JNull
      case Some(v) => v
  }

  datatype Written = Written(store: Backing, ok: bool)

  /** `setItem`: serialise and write; a serialiser exception or a refused write
      leaves the store as it was and yields false. */
  function WriteItem(b: Backing, accepts: (string, string) -> bool, prefix: string,
                     serialize: Json -> Option<string>, key: string, value: Json): (w: Written)
    requires WellFormed(b)
    ensures WellFormed(w.store)
    ensures w.ok <==> serialize(value).Some? && accepts(PrefixedKey(prefix, key), serialize(value).value)
    ensures !w.ok ==> w.store == b
    ensures w.ok ==> w.store.vals == b.vals[PrefixedKey(prefix, key) := serialize(value).value]
  {
    match serialize(value)
    case None => Written(b, false)
    case Some(t) =>
      var k := PrefixedKey(prefix, key);
      if accepts(k, t) then Written(Put(b, k, t), true) else Written(b, false)
  }

  /** The codec's two halves are inverse and the serialiser never yields the
      empty string (which reads back as null), as for JSON. */
  ghost predicate RoundTrips(serialize: Json -> Option<string>, deserialize: string -> Option<Json>) {
    forall v :: serialize(v).Some? ==> serialize(v).value != "" && deserialize(serialize(v).value) == Some(v)
  }

  /** After a successful write the key reads back as the value written, and no
      other key reads differently. */
  lemma SetThenGet(b: Backing, accepts: (string, string) -> bool, prefix: string,
                   serialize: Json -> Option<string>, deserialize: string -> Option<Json>,
                   key: string, value: Json, other: string)
    requires WellFormed(b) && RoundTrips(serialize, deserialize)
    requires other != key
    ensures var w := WriteItem(b, accepts, prefix, serialize, key, value);
      && (w.ok ==> ReadItem(w.store, prefix, deserialize, key) == value)
      && ReadItem(w.store, prefix, deserialize, other) == ReadItem(b, prefix, deserialize, other)
  {
    var w := WriteItem(b, accepts, prefix, serialize, key, value);
    if PrefixedKey(prefix, other) == PrefixedKey(prefix, key) {
      PrefixedKeyInjective(prefix, other, key);
    }
  }

  /** `hasItem(k)` is `getItem(k) !== null`; after `removeItem(k)` it is false
      and every other key reads as before. */
  lemma RemoveThenAbsent(b: Backing, prefix: string, deserialize: string -> Option<Json>, key: string, other: string)
    requires WellFormed(b)
    requires other != key
    ensures ReadItem(Remove(b, PrefixedKey(prefix, key)), prefix, deserialize, key) == JNull
    ensures ReadItem(Remove(b, PrefixedKey(prefix, key)), prefix, deserialize, other) == ReadItem(b, prefix, deserialize, other)
  {
    if PrefixedKey(prefix, other) == PrefixedKey(prefix, key) {
      PrefixedKeyInjective(prefix, other, key);
    }
  }

  /** Storing `null` is indistinguishable from storing nothing: `hasItem` is
      false afterwards although the backing key exists. */
  lemma StoredNullIsAbsent(b: Backing, accepts: (string, string) -> bool, prefix: string,
                           serialize: Json -> Option<string>, deserialize: string -> Option<Json>, key: string)
    requires WellFormed(b) && RoundTrips(serialize, deserialize)
    ensures var w := WriteItem(b, accepts, prefix, serialize, key, JNull);
      w.ok ==> PrefixedKey(prefix, key) in w.store.vals && ReadItem(w.store, prefix, deserialize, key) == JNull
  {
  }

  /** One entry of `getAllKeys`: listed when the key is non-empty and, with a
      prefix, starts with it; the first `prefix_` inside it is removed. */
  function ListedAs(k: string, prefix: string): seq<string> {
    if k != "" && (prefix == "" || StartsWith(k, prefix)) then
      [if prefix != "" then ReplaceFirst(k, prefix + "_", "") else k]
    else []
  }

  /** `getAllKeys` over a key list, in store order. */
  function ListedKeys(ks: seq<string>, prefix: string): (r: seq<string>)
    ensures |r| <= |ks|
    ensures prefix == "" ==> forall k :: k in r <==> k in ks && k != ""
    decreases |ks|
  {
    if ks == [] then []
    else ListedKeys(ks[..|ks| - 1], prefix) + ListedAs(ks[|ks| - 1], prefix)
  }

  /** With a prefix, every key the wrapper wrote is listed without its prefix. */
  lemma {:induction false} WrittenKeyIsListed(ks: seq<string>, prefix: string, key: string)
    requires prefix != "" && PrefixedKey(prefix, key) in ks
    ensures key in ListedKeys(ks, prefix)
    decreases |ks|
  {
    var last := ks[|ks| - 1];
    if last == PrefixedKey(prefix, key) {
      assert StartsWith(last, prefix);
      assert last == (prefix + "_") + key;
      ReplaceFirstAtStart(prefix + "_", key, "");
      assert "" + key == key;
      assert ListedAs(last, prefix) == [key];
    } else {
      assert ks == ks[..|ks| - 1] + [last];
      assert PrefixedKey(prefix, key) in ks[..|ks| - 1];
      WrittenKeyIsListed(ks[..|ks| - 1], prefix, key);
    }
  }

  /** The listing holds exactly the names its backing keys contribute: a
      name is listed when, and only when, some non-empty backing key (one
      starting with the prefix, when there is a prefix) gives that name once
      the first `prefix_` inside it is removed. */
  lemma {:induction false} ListedKeysIff(ks: seq<string>, prefix: string, k: string)
    ensures k in ListedKeys(ks, prefix) <==>
      exists b :: b in ks && b != "" && (prefix == "" || StartsWith(b, prefix))
        && k == (if prefix != "" then ReplaceFirst(b, prefix + "_", "") else b)
    decreases |ks|
  {
    if ks != [] {
      var init, last := ks[..|ks| - 1], ks[|ks| - 1];
      ListedKeysIff(init, prefix, k);
      assert ks == init + [last];
      if exists b :: b in ks && b != "" && (prefix == "" || StartsWith(b, prefix))
          && k == (if prefix != "" then ReplaceFirst(b, prefix + "_", "") else b) {
        var b :| b in ks && b != "" && (prefix == "" || StartsWith(b, prefix))
          && k == (if prefix != "" then ReplaceFirst(b, prefix + "_", "") else b);
        if b != last {
          assert b in init;
        }
      }
    }
  }

  /** Keys of other owners that merely start with the prefix are listed as
      they are, provided `prefix_` occurs nowhere in them: a key `toagroX` is
      reported by the `toagro` wrapper. (A key with `prefix_` further inside
      loses that occurrence instead.) */
  lemma ForeignKeyIsListed(ks: seq<string>, prefix: string, k: string)
    requires prefix != "" && k in ks && StartsWith(k, prefix) && IndexOf(k, prefix + "_") == -1
    ensures ListedAs(k, prefix) == [k]
    ensures k in ListedKeys(ks, prefix)
  {
    ListedKeysIff(ks, prefix, k);
  }

  // ---------------------------------------------------------------------------
  // Recent searches and preferences

  /** The filter `s => s !== search`. */
  function NotSearch(search: string): Json -> bool {
    (x: Json) => x != JStr(search)
  }

  /** The list `addRecentSearch` stores: the new search first, no other copy of
      it, then the older ones in order, cut to ten. */
  function AddSearch(searches: seq<Json>, search: string): seq<Json> {
    JsSlice([JStr(search)] + Filter(searches, NotSearch(search)), 0, MaxRecentSearches)
  }

  lemma AddSearchProperties(searches: seq<Json>, search: string)
    ensures var r := AddSearch(searches, search);
      && 1 <= |r| <= MaxRecentSearches
      && r[0] == JStr(search)
      && JStr(search) !in r[1..]
      && r[1..] == Filter(searches, NotSearch(search))[..|r| - 1]
      && |r| == Min(MaxRecentSearches, 1 + |Filter(searches, NotSearch(search))|)
  {
    var f := Filter(searches, NotSearch(search));
    var r := AddSearch(searches, search);
    assert r == ([JStr(search)] + f)[..|r|];
    assert r[1..] == f[..|r| - 1];
    forall k | 0 <= k < |r| - 1 ensures r[1..][k] != JStr(search) {
      assert f[k] in f;
      assert NotSearch(search)(f[k]);
    }
  }

  /** The older searches keep their relative order. */
  lemma AddSearchKeepsOrder(searches: seq<Json>, search: string)
    ensures IsSubsequence(AddSearch(searches, search)[1..], searches)
  {
    AddSearchProperties(searches, search);
    var f := Filter(searches, NotSearch(search));
    var r := AddSearch(searches, search);
    FilterIsSubsequence(searches, NotSearch(search));
    PrefixIsSubsequence(f, |r| - 1, searches);
  }

  /** `getRecentSearches() || []` followed by `.filter`: a falsy stored value
      counts as no searches, an array is used as it is, and any other value
      has no `filter` method, so the call throws (None). */
  function StoredSearches(stored: Json): (r: Option<seq<Json>>)
    ensures r.None? <==> JsonTruthy(stored) && !stored.JArr?
    ensures !JsonTruthy(stored) ==> r == Some([])
  {
    if !JsonTruthy(stored) then Some([])
    else if stored.JArr? then Some(stored.elems)
    else None
  }

  /** The own enumerable properties of the elements of a list under the keys
      "0", "1", ... */
  function IndexFields(xs: seq<Json>): (r: map<string, Json>)
    ensures forall i :: 0 <= i < |xs| ==> NatToString(i) in r && r[NatToString(i)] == xs[i]
    decreases |xs|
  {
    if xs == [] then map[]
    else
      var r := IndexFields(xs[..|xs| - 1])[NatToString(|xs| - 1) := xs[|xs| - 1]];
      assert forall i :: 0 <= i < |xs| - 1 ==> NatToString(i) != NatToString(|xs| - 1) by {
        forall i | 0 <= i < |xs| - 1 ensures NatToString(i) != NatToString(|xs| - 1) {
          DecValueOfNatToString(i);
          DecValueOfNatToString(|xs| - 1);
        }
      }
      r
  }

  function CharStrings(s: string): (r: seq<Json>)
    ensures |r| == |s|
    ensures forall i :: 0 <= i < |s| ==> r[i] == JStr([s[i]])
  {
    seq(|s|, i requires 0 <= i < |s| => JStr([s[i]]))
  }

  /** The properties object spread (`{...v}`) produces from a JSON value:
      an object's fields, an array's or a string's indexed elements, and no
      properties for null, booleans and numbers. */
  function Spread(v: Json): map<string, Json> {
    match v
    case JObj(f) => f
    case JArr(xs) => IndexFields(xs)
    case JStr(s) => IndexFields(CharStrings(s))
    case _ => map[]
  }

  /** `{...(current || {}), ...updates}`: the update keys win, every other
      current key is kept, nothing else appears. */
  function MergePreferences(current: Json, updates: map<string, Json>): (r: map<string, Json>)
    ensures forall k :: k in updates ==> k in r && r[k] == updates[k]
    ensures JsonTruthy(current) && current.JObj? ==>
      forall k :: k in current.fields && k !in updates ==> k in r && r[k] == current.fields[k]
    ensures !JsonTruthy(current) ==> r == updates
    ensures current.JObj? ==> r.Keys == current.fields.Keys + updates.Keys
  {
    var base := if JsonTruthy(current) then Spread(current) else map[];
    base + updates
  }

  // ---------------------------------------------------------------------------
  // The browser store, updated in place

  class BrowserStorage {
    var keys: seq<string>
    var vals: map<string, string>
    /** Whether the browser accepts writing a value under a key. */
    const accepts: (string, string) -> bool

    function View(): Backing
      reads this
    {
      Backing(keys, vals)
    }

    ghost predicate Valid()
      reads this
    {
      WellFormed(View())
    }

    constructor (accepts: (string, string) -> bool)
      ensures View() == Empty() && this.accepts == accepts
    {
      keys, vals := [], map[];
      this.accepts := accepts;
    }

    /** `storage.setItem`; false stands for the quota exception. */
    method SetItem(k: string, v: string) returns (ok: bool)
      requires Valid()
      modifies this
      ensures Valid()
      ensures ok == accepts(k, v)
      ensures View() == if ok then Put(old(View()), k, v) else old(View())
    {
      ok := accepts(k, v);
      if ok {
        var r := Put(View(), k, v);
        keys, vals := r.keys, r.vals;
      }
    }

    method RemoveItem(k: string)
      requires Valid()
      modifies this
      ensures Valid()
      ensures View() == Remove(old(View()), k)
    {
      var r := Remove(View(), k);
      keys, vals := r.keys, r.vals;
    }

    method Clear()
      modifies this
      ensures View() == Empty()
    {
      keys, vals := [], map[];
    }
  }

  /** One step of `clear`'s downward walk: position `i` still holds the
      original key, and dropping it or keeping it extends the filtered part. */
  lemma ClearStep(cur: Backing, ks: seq<string>, i: int, prefix: string)
    requires 0 <= i < |ks| && prefix != "" && WellFormed(cur)
    requires cur.keys == ks[..i + 1] + Filter(ks[i + 1..], NotPrefixed(prefix))
    ensures i < |cur.keys| && cur.keys[i] == ks[i]
    ensures StartsWith(ks[i], prefix) ==>
      ks[i] != "" && Remove(cur, ks[i]).keys == ks[..i] + Filter(ks[i..], NotPrefixed(prefix))
    ensures !StartsWith(ks[i], prefix) ==> cur.keys == ks[..i] + Filter(ks[i..], NotPrefixed(prefix))
  {
    var front, rest := ks[..i], Filter(ks[i + 1..], NotPrefixed(prefix));
    assert ks[..i + 1] == front + [ks[i]];
    SplitAround(cur.keys, front, ks[i], rest);
    FilterStep(ks, i, NotPrefixed(prefix));
    if StartsWith(ks[i], prefix) {
      assert ks[i] != "" by {
        assert |ks[i]| >= |prefix|;
      }
      KeyIndexDistinct(cur.keys, i);
      assert ks[i] in cur.vals;
    }
  }

  /** The parts of a list with one element picked out. */
  lemma SplitAround<T>(s: seq<T>, front: seq<T>, x: T, rest: seq<T>)
    requires s == front + [x] + rest
    ensures |front| < |s| && s[|front|] == x && s[..|front|] == front && s[|front| + 1..] == rest
  {
  }

  /** Every entry of `a` is an entry of `b`. */
  predicate SubMap(a: map<string, string>, b: map<string, string>) {
    forall x :: x in a ==> x in b && a[x] == b[x]
  }

  /** The state of `clear`'s walk over the original keys `ks` of `b0` once the
      positions above `i` have been handled. */
  ghost predicate ClearInv(cur: Backing, b0: Backing, ks: seq<string>, i: int, prefix: string)
    requires -1 <= i < |ks|
  {
    WellFormed(cur) && cur.keys == ks[..i + 1] + Filter(ks[i + 1..], NotPrefixed(prefix))
    && SubMap(cur.vals, b0.vals)
  }

  /** One round of the walk keeps its state. */
  lemma ClearAdvance(cur: Backing, b0: Backing, ks: seq<string>, i: int, prefix: string)
    requires 0 <= i < |ks| && prefix != "" && ClearInv(cur, b0, ks, i, prefix)
    ensures i < |cur.keys| && cur.keys[i] == ks[i]
    ensures StartsWith(ks[i], prefix) ==> ks[i] != "" && ClearInv(Remove(cur, ks[i]), b0, ks, i - 1, prefix)
    ensures !StartsWith(ks[i], prefix) ==> ClearInv(cur, b0, ks, i - 1, prefix)
  {
    ClearStep(cur, ks, i, prefix);
    if StartsWith(ks[i], prefix) {
      var next := Remove(cur, ks[i]);
      assert next.vals == cur.vals - {ks[i]};
      assert SubMap(next.vals, b0.vals);
    }
  }

  /** Before the walk, no position has been handled. */
  lemma ClearStart(b0: Backing, prefix: string)
    requires WellFormed(b0)
    ensures ClearInv(b0, b0, b0.keys, |b0.keys| - 1, prefix)
  {
    assert b0.keys[..|b0.keys|] == b0.keys && b0.keys[|b0.keys|..] == [];
  }

  /** When the walk is over, the store is the original without the prefixed
      keys. */
  lemma ClearDone(cur: Backing, b0: Backing, prefix: string)
    requires WellFormed(b0) && ClearInv(cur, b0, b0.keys, -1, prefix)
    ensures cur == WithoutPrefixed(b0, prefix)
  {
    assert b0.keys[0..] == b0.keys && b0.keys[..0] == [];
    var w := WithoutPrefixed(b0, prefix);
    assert forall x :: x in cur.vals <==> x in w.vals;
    assert cur.vals == w.vals;
  }

  // ---------------------------------------------------------------------------
  // The wrapper

  class PrefixedStorage {
    const backing: BrowserStorage
    const prefix: string
    const serialize: Json -> Option<string>
    const deserialize: string -> Option<Json>

    constructor (backing: BrowserStorage, prefix: string,
                 serialize: Json -> Option<string>, deserialize: string -> Option<Json>)
      ensures this.backing == backing && this.prefix == prefix
      ensures this.serialize == serialize && this.deserialize == deserialize
    {
      this.backing := backing;
      this.prefix := prefix;
      this.serialize := serialize;
      this.deserialize := deserialize;
    }

    function GetItem(key: string): Json
      reads backing
    {
      ReadItem(backing.View(), prefix, deserialize, key)
    }

    predicate HasItem(key: string)
      reads backing
    {
      GetItem(key) != JNull
    }

    method SetItem(key: string, value: Json) returns (ok: bool)
      requires backing.Valid()
      modifies backing
      ensures backing.Valid()
      ensures Written(backing.View(), ok) == WriteItem(old(backing.View()), backing.accepts, prefix, serialize, key, value)
      ensures ok && RoundTrips(serialize, deserialize) ==> GetItem(key) == value
    {
      var t := serialize(value);
      if t.None? {
        return false;
      }
      ok := backing.SetItem(PrefixedKey(prefix, key), t.value);
    }

    method RemoveItem(key: string)
      requires backing.Valid()
      modifies backing
      ensures backing.Valid()
      ensures backing.View() == Remove(old(backing.View()), PrefixedKey(prefix, key))
      ensures !HasItem(key)
    {
      backing.RemoveItem(PrefixedKey(prefix, key));
    }

    /** With a prefix, walk the key list from the end and remove every key
        that starts with the prefix; without one, empty the store. */
    method Clear()
      requires backing.Valid()
      modifies backing
      ensures backing.Valid()
      ensures prefix != "" ==> backing.View() == WithoutPrefixed(old(backing.View()), prefix)
      ensures prefix == "" ==> backing.View() == Empty()
    {
      if prefix == "" {
        backing.Clear();
        return;
      }
      ghost var ks := backing.keys;
      ghost var b0 := backing.View();
      ClearStart(b0, prefix);
      var i := |backing.keys| - 1;
      while i >= 0
        invariant -1 <= i < |ks|
        invariant backing.Valid()
        invariant ClearInv(backing.View(), b0, ks, i, prefix)
        decreases i
      {
        ghost var cur := backing.View();
        ClearAdvance(cur, b0, ks, i, prefix);
        var key := backing.keys[i];
        if key != "" && StartsWith(key, prefix) {
          backing.RemoveItem(key);
        }
        i := i - 1;
      }
      ClearDone(backing.View(), b0, prefix);
    }

    /** `getItems`: every requested key mapped to what `getItem` reads. */
    function GetItems(ks: seq<string>): (r: map<string, Json>)
      reads backing
      ensures forall k :: k in r <==> k in ks
      ensures forall k :: k in r ==> r[k] == GetItem(k)
      decreases |ks|
    {
      if ks == [] then map[]
      else GetItems(ks[..|ks| - 1])[ks[|ks| - 1] := GetItem(ks[|ks| - 1])]
    }

    /** `setItems`: each entry through `setItem`, whose failures are caught, so
        the result is always true. */
    method SetItems(entries: seq<(string, Json)>) returns (ok: bool)
      requires backing.Valid()
      modifies backing
      ensures backing.Valid()
      ensures ok
      ensures backing.View() == WriteAll(old(backing.View()), backing.accepts, prefix, serialize, entries)
    {
      var i := 0;
      while i < |entries|
        invariant 0 <= i <= |entries|
        invariant backing.Valid()
        invariant backing.View() == WriteAll(old(backing.View()), backing.accepts, prefix, serialize, entries[..i])
      {
        assert entries[..i + 1][..i] == entries[..i];
        var _ := SetItem(entries[i].0, entries[i].1);
        i := i + 1;
      }
      assert entries[..|entries|] == entries;
      return true;
    }

    method GetAllKeys() returns (r: seq<string>)
      ensures r == ListedKeys(backing.keys, prefix)
    {
      r := [];
      var i := 0;
      while i < |backing.keys|
        invariant 0 <= i <= |backing.keys|
        invariant r == ListedKeys(backing.keys[..i], prefix)
      {
        assert backing.keys[..i + 1][..i] == backing.keys[..i];
        var key := backing.keys[i];
        if key != "" && (prefix == "" || StartsWith(key, prefix)) {
          r := r + [if prefix != "" then ReplaceFirst(key, prefix + "_", "") else key];
        }
        i := i + 1;
      }
      assert backing.keys[..|backing.keys|] == backing.keys;
    }
  }

  /** The store after writing each entry in turn. */
  function WriteAll(b: Backing, accepts: (string, string) -> bool, prefix: string,
                    serialize: Json -> Option<string>, entries: seq<(string, Json)>): (r: Backing)
    requires WellFormed(b)
    ensures WellFormed(r)
    decreases |entries|
  {
    if entries == [] then b
    else
      var last := entries[|entries| - 1];
      WriteItem(WriteAll(b, accepts, prefix, serialize, entries[..|entries| - 1]), accepts, prefix, serialize, last.0, last.1).store
  }

  // ---------------------------------------------------------------------------
  // The helper objects over the application's instance

  method GetToken(ls: PrefixedStorage) returns (t: Json)
    ensures t == ls.GetItem(TokenKey)
  {
    t := ls.GetItem(TokenKey);
  }

  method SetToken(ls: PrefixedStorage, token: string) returns (ok: bool)
    requires ls.backing.Valid()
    modifies ls.backing
    ensures ls.backing.Valid()
    ensures Written(ls.backing.View(), ok) ==
      WriteItem(old(ls.backing.View()), ls.backing.accepts, ls.prefix, ls.serialize, TokenKey, JStr(token))
    ensures ok && RoundTrips(ls.serialize, ls.deserialize) ==> ls.GetItem(TokenKey) == JStr(token)
  {
    ok := ls.SetItem(TokenKey, JStr(token));
  }

  method RemoveToken(ls: PrefixedStorage)
    requires ls.backing.Valid()
    modifies ls.backing
    ensures ls.backing.Valid()
    ensures ls.backing.View() == Remove(old(ls.backing.View()), PrefixedKey(ls.prefix, TokenKey))
    ensures !ls.HasItem(TokenKey)
  {
    ls.RemoveItem(TokenKey);
  }

  method HasToken(ls: PrefixedStorage) returns (b: bool)
    ensures b <==> ls.GetItem(TokenKey) != JNull
  {
    b := ls.HasItem(TokenKey);
  }

  /** `updatePreferences`: read the stored preferences, merge the updates over
      them and store the merged object. */
  method UpdatePreferences(ls: PrefixedStorage, updates: map<string, Json>) returns (ok: bool)
    requires ls.backing.Valid()
    modifies ls.backing
    ensures ls.backing.Valid()
    ensures Written(ls.backing.View(), ok) ==
      WriteItem(old(ls.backing.View()), ls.backing.accepts, ls.prefix, ls.serialize, PreferencesKey,
                JObj(MergePreferences(old(ls.GetItem(PreferencesKey)), updates)))
    ensures ok && RoundTrips(ls.serialize, ls.deserialize) ==>
      ls.GetItem(PreferencesKey) == JObj(MergePreferences(old(ls.GetItem(PreferencesKey)), updates))
  {
    var current := ls.GetItem(PreferencesKey);
    ok := ls.SetItem(PreferencesKey, JObj(MergePreferences(current, updates)));
  }

  datatype Outcome = Returned(ok: bool) | Threw

  /** `addRecentSearch`: read the list, put the search in front and store it;
      a stored value without `filter` makes the call throw. */
  method AddRecentSearch(ls: PrefixedStorage, search: string) returns (r: Outcome)
    requires ls.backing.Valid()
    modifies ls.backing
    ensures ls.backing.Valid()
    ensures r == Threw <==> StoredSearches(old(ls.GetItem(RecentSearchesKey))).None?
    ensures r == Threw ==> ls.backing.View() == old(ls.backing.View())
    ensures r.Returned? ==>
              Written(ls.backing.View(), r.ok) ==
              WriteItem(old(ls.backing.View()), ls.backing.accepts, ls.prefix, ls.serialize, RecentSearchesKey,
                        JArr(AddSearch(StoredSearches(old(ls.GetItem(RecentSearchesKey))).value, search)))
    ensures r == Returned(true) && RoundTrips(ls.serialize, ls.deserialize) ==>
      ls.GetItem(RecentSearchesKey) == JArr(AddSearch(StoredSearches(old(ls.GetItem(RecentSearchesKey))).value, search))
  {
    var searches := StoredSearches(ls.GetItem(RecentSearchesKey));
    if searches.None? {
      return Threw;
    }
    var ok := ls.SetItem(RecentSearchesKey, JArr(AddSearch(searches.value, search)));
    r := Returned(ok);
  }

  method ClearRecentSearches(ls: PrefixedStorage)
    requires ls.backing.Valid()
    modifies ls.backing
    ensures ls.backing.Valid()
    ensures ls.backing.View() == Remove(old(ls.backing.View()), PrefixedKey(ls.prefix, RecentSearchesKey))
    ensures !ls.HasItem(RecentSearchesKey)
  {
    ls.RemoveItem(RecentSearchesKey);
  }
}
