/** The listings slice of the client store: a record of the loaded listings,
    the listing being viewed, the user's own listings, the pagination metadata
    and the loading/error flags; every async action (fetch, create, update,
    delete, fetch-own) moves it through pending, fulfilled and rejected.

    `Reduce` is the reducer as a function of the old state and the action;
    the class `ListingsStore` holds the same state in fields and applies each
    case in place, as the store does, and each of its methods is proved to
    produce `Reduce` of the old state. */
module ListingsSlice {
  import opened JsCore
  import opened ListingTypes

  /** The asynchronous actions of the slice. */
  datatype Thunk = FetchListings | FetchListing | CreateListing | UpdateListing | DeleteListing | FetchUserListings

  datatype Action =
    | ClearCurrentListing
    | ClearError
    | Pending(thunk: Thunk)
    | Rejected(thunk: Thunk, message: Option<string>)
    | FetchListingsFulfilled(listings: seq<Listing>, meta: Option<Meta>)
    | FetchListingFulfilled(listing: Listing)
    | CreateListingFulfilled(created: Listing)
    | UpdateListingFulfilled(updated: Listing)
    | DeleteListingFulfilled(id: int)
    | FetchUserListingsFulfilled(own: seq<Listing>)

  datatype State = State(
    items: seq<Listing>,
    currentListing: Option<Listing>,
    userListings: seq<Listing>,
    meta: Option<Meta>,
    isLoading: bool,
    error: Option<string>)

  /** The data part of the state: everything except the two flags. */
  predicate SameData(a: State, b: State) {
    a.items == b.items && a.currentListing == b.currentListing
    && a.userListings == b.userListings && a.meta == b.meta
  }

  function InitialState(): State {
    State([], None, [], None, false, None)
  }

  /** The message stored when a thunk fails without a message of its own. */
  function Fallback(t: Thunk): string {
    match t
    case FetchListings => "Failed to fetch listings"
    case FetchListing => "Failed to fetch listing"
    case CreateListing => "Failed to create listing"
    case UpdateListing => "Failed to update listing"
    case DeleteListing => "Failed to delete listing"
    case FetchUserListings => "Failed to fetch user listings"
  }

  /** Position of the first listing with the given id, -1 when there is none
      (`findIndex`). */
  function FirstIndexOf(s: seq<Listing>, id: int): (k: int)
    ensures -1 <= k < |s|
    ensures k >= 0 ==> s[k].id == id && forall j :: 0 <= j < k ==> s[j].id != id
    ensures k == -1 <==> forall j :: 0 <= j < |s| ==> s[j].id != id
    decreases |s|
  {
    if s == [] then -1
    else if s[0].id == id then 0
    else
      var k := FirstIndexOf(s[1..], id);
      if k == -1 then -1 else k + 1
  }

  /** The list with the first listing of `l`'s id replaced by `l`. */
  function ReplaceFirstById(s: seq<Listing>, l: Listing): seq<Listing> {
    var k := FirstIndexOf(s, l.id);
    if k == -1 then s else s[k := l]
  }

  /** The list without any listing of the given id. */
  function WithoutId(s: seq<Listing>, id: int): seq<Listing> {
    Filter(s, (x: Listing) => x.id != id)
  }

  /** The slice reducer. Across all actions: only a pending case starts
      loading and every settled request stops it; an error appears only
      through a rejection, and only a pending case or `clearError` removes
      one. */
  function Reduce(s: State, a: Action): (r: State)
    ensures r.isLoading <==> a.Pending? || (s.isLoading && (a.ClearCurrentListing? || a.ClearError?))
    ensures r.error.Some? <==> a.Rejected? || (s.error.Some? && !a.Pending? && !a.ClearError?)
  {
    match a
    case ClearCurrentListing => s.(currentListing := None)
    case ClearError => s.(error := None)
    case Pending(_) => s.(isLoading := true, error := None)
    case Rejected(t, m) => s.(isLoading := false, error := Some(OrElse(m, Fallback(t))))
    case FetchListingsFulfilled(ls, meta) => s.(isLoading := false, items := ls, meta := meta)
    case FetchListingFulfilled(l) => s.(isLoading := false, currentListing := Some(l))
    case CreateListingFulfilled(l) => s.(isLoading := false, items := [l] + s.items)
    case UpdateListingFulfilled(l) =>
      s.(isLoading := false,
         items := ReplaceFirstById(s.items, l),
         currentListing := if s.currentListing.Some? && s.currentListing.value.id == l.id
                           then Some(l) else s.currentListing)
    case DeleteListingFulfilled(id) =>
      s.(isLoading := false, items := WithoutId(s.items, id), userListings := WithoutId(s.userListings, id))
    case FetchUserListingsFulfilled(own) => s.(isLoading := false, userListings := own)
  }

  // ---------------------------------------------------------------------------
  // Properties of the reducer

  /** Every pending case raises the loading flag, clears the error and keeps
      all data. */
  lemma PendingKeepsData(s: State, t: Thunk)
    ensures var r := Reduce(s, Pending(t)); r.isLoading && r.error == None && SameData(r, s)
  {
  }

  /** Every rejected case lowers the loading flag, stores the thunk's message or
      its own fallback text, and keeps all data, so stale data stays visible. */
  lemma RejectedKeepsData(s: State, t: Thunk, m: Option<string>)
    ensures var r := Reduce(s, Rejected(t, m));
      && !r.isLoading && SameData(r, s)
      && r.error == Some(if Truthy(m) then m.value else Fallback(t))
      && r.error.value != ""
  {
  }

  /** A failed request, from pending to rejected, leaves every data field as it
      was before the request. */
  lemma FailedRequestKeepsData(s: State, t: Thunk, m: Option<string>)
    ensures var r := Reduce(Reduce(s, Pending(t)), Rejected(t, m));
      SameData(r, s) && !r.isLoading && r.error.Some?
  {
  }

  /** fetchListings replaces the list and its metadata wholesale; fetching the
      user's own listings replaces only those and leaves the list and metadata. */
  lemma FetchesReplaceTheirOwnLists(s: State, ls: seq<Listing>, meta: Option<Meta>, own: seq<Listing>)
    ensures var r := Reduce(s, FetchListingsFulfilled(ls, meta));
      r.items == ls && r.meta == meta && r.userListings == s.userListings && r.currentListing == s.currentListing
    ensures var r := Reduce(s, FetchUserListingsFulfilled(own));
      r.userListings == own && r.items == s.items && r.meta == s.meta && r.currentListing == s.currentListing
  {
  }

  /** createListing puts the new listing in front of the old ones. */
  lemma CreatePrepends(s: State, l: Listing)
    ensures var r := Reduce(s, CreateListingFulfilled(l));
      r.items == [l] + s.items && |r.items| == |s.items| + 1 && r.items[0] == l && r.items[1..] == s.items
  {
  }

  /** `k` is the position of the first listing with the id. */
  predicate FirstWithId(s: seq<Listing>, k: int, id: int) {
    0 <= k < |s| && s[k].id == id && forall j :: 0 <= j < k ==> s[j].id != id
  }

  /** updateListing puts the payload in place of the first listing with its
      id and changes no other position; when no listing matches, the list is
      unchanged. */
  lemma UpdateReplacesFirstMatch(s: State, l: Listing)
    ensures var r := Reduce(s, UpdateListingFulfilled(l));
      && |r.items| == |s.items|
      && (forall k :: FirstWithId(s.items, k, l.id) ==> r.items == s.items[k := l])
      && ((forall j :: 0 <= j < |s.items| ==> s.items[j].id != l.id) ==> r.items == s.items)
      && r.userListings == s.userListings && r.meta == s.meta
  {
    var k := FirstIndexOf(s.items, l.id);
    forall k' | FirstWithId(s.items, k', l.id) ensures k' == k {
      assert k >= 0 && k <= k' && s.items[k].id == l.id;
    }
  }

  /** The listing being viewed becomes the payload exactly when it has the
      payload's id; otherwise, and when there is none, it stays as it was. */
  lemma UpdateReplacesCurrentIff(s: State, l: Listing)
    ensures var r := Reduce(s, UpdateListingFulfilled(l));
      && (s.currentListing.Some? && s.currentListing.value.id == l.id ==> r.currentListing == Some(l))
      && (!(s.currentListing.Some? && s.currentListing.value.id == l.id) ==> r.currentListing == s.currentListing)
  {
  }

  /** Removing by id drops every listing of that id, keeps every other one in
      its relative order, and a second removal changes nothing. */
  lemma WithoutIdProperties(s: seq<Listing>, id: int)
    ensures forall x :: x in WithoutId(s, id) <==> x in s && x.id != id
    ensures IsSubsequence(WithoutId(s, id), s)
    ensures WithoutId(WithoutId(s, id), id) == WithoutId(s, id)
  {
    FilterIsSubsequence(s, (x: Listing) => x.id != id);
    FilterIdempotent(s, (x: Listing) => x.id != id);
  }

  /** deleteListing removes the id from both lists, leaves the listing being
      viewed untouched, and deleting the same id twice is deleting it once. */
  lemma DeleteIdempotent(s: State, id: int)
    ensures var r := Reduce(s, DeleteListingFulfilled(id));
      && (forall x :: x in r.items ==> x.id != id)
      && (forall x :: x in r.userListings ==> x.id != id)
      && r.currentListing == s.currentListing && r.meta == s.meta
      && Reduce(r, DeleteListingFulfilled(id)) == r
  {
    WithoutIdProperties(s.items, id);
    WithoutIdProperties(s.userListings, id);
  }

  /** The two synchronous reducers each reset exactly one field. */
  lemma ClearsResetOneField(s: State)
    ensures Reduce(s, ClearCurrentListing) == s.(currentListing := None)
    ensures Reduce(s, ClearError) == s.(error := None)
  {
  }

  // ---------------------------------------------------------------------------
  // The store, updated in place

  /** `findIndex` over the listing ids. */
  method FindIndex(items: seq<Listing>, id: int) returns (k: int)
    ensures -1 <= k < |items|
    ensures k >= 0 ==> items[k].id == id && forall j :: 0 <= j < k ==> items[j].id != id
    ensures k == -1 <==> forall j :: 0 <= j < |items| ==> items[j].id != id
  {
    var i := 0;
    while i < |items|
      invariant 0 <= i <= |items|
      invariant forall j :: 0 <= j < i ==> items[j].id != id
    {
      if items[i].id == id {
        return i;
      }
      i := i + 1;
    }
    return -1;
  }

  class ListingsStore {
    var items: seq<Listing>
    var currentListing: Option<Listing>
    var userListings: seq<Listing>
    var meta: Option<Meta>
    var isLoading: bool
    var error: Option<string>

    function View(): State
      reads this
    {
      State(items, currentListing, userListings, meta, isLoading, error)
    }

    constructor ()
      ensures View() == InitialState()
    {
      items, currentListing, userListings, meta := [], None, [], None;
      isLoading, error := false, None;
    }

    method ClearCurrentListing()
      modifies this
      ensures View() == Reduce(old(View()), Action.ClearCurrentListing)
    {
      currentListing := None;
    }

    method ClearError()
      modifies this
      ensures View() == Reduce(old(View()), Action.ClearError)
    {
      error := None;
    }

    method Pending(t: Thunk)
      modifies this
      ensures View() == Reduce(old(View()), Action.Pending(t))
    {
      isLoading := true;
      error := None;
    }

    method Rejected(t: Thunk, message: Option<string>)
      modifies this
      ensures View() == Reduce(old(View()), Action.Rejected(t, message))
    {
      isLoading := false;
      error := Some(if Truthy(message) then message.value else Fallback(t));
    }

    method FetchListingsFulfilled(ls: seq<Listing>, m: Option<Meta>)
      modifies this
      ensures View() == Reduce(old(View()), Action.FetchListingsFulfilled(ls, m))
    {
      isLoading := false;
      items := ls;
      meta := m;
    }

    method FetchListingFulfilled(l: Listing)
      modifies this
      ensures View() == Reduce(old(View()), Action.FetchListingFulfilled(l))
    {
      isLoading := false;
      currentListing := Some(l);
    }

    /** `state.items.unshift(listing)`. */
    method CreateListingFulfilled(l: Listing)
      modifies this
      ensures View() == Reduce(old(View()), Action.CreateListingFulfilled(l))
    {
      isLoading := false;
      items := [l] + items;
    }

    /** `findIndex`, then `state.items[index] = listing`, then the current
        listing when its id matches. */
    method UpdateListingFulfilled(l: Listing)
      modifies this
      ensures View() == Reduce(old(View()), Action.UpdateListingFulfilled(l))
    {
      isLoading := false;
      var index := FindIndex(items, l.id);
      assert index == FirstIndexOf(items, l.id);
      if index != -1 {
        items := items[index := l];
      }
      if currentListing.Some? && currentListing.value.id == l.id {
        currentListing := Some(l);
      }
    }

    method DeleteListingFulfilled(id: int)
      modifies this
      ensures View() == Reduce(old(View()), Action.DeleteListingFulfilled(id))
    {
      isLoading := false;
      items := WithoutId(items, id);
      userListings := WithoutId(userListings, id);
    }

    method FetchUserListingsFulfilled(own: seq<Listing>)
      modifies this
      ensures View() == Reduce(old(View()), Action.FetchUserListingsFulfilled(own))
    {
      isLoading := false;
      userListings := own;
    }
  }
}
