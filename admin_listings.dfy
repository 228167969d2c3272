/** The admin listings table (`AdminListings`): the loaded listings are
    filtered by a search term, a status and a category, cut into pages of
    `itemsPerPage`, and each row offers moderation buttons that depend on the
    listing's status. Changing any filter returns to page 1. */
module AdminListings {
  import opened JsCore
  import opened ListingTypes
  import opened Paging

  datatype Filters = Filters(searchTerm: string, statusFilter: string, categoryFilter: string)

  const NoFilters := Filters("", "", "")

  /** Case-insensitive substring match on the title or the description. */
  predicate MatchesSearch(l: Listing, term: string) {
    Includes(ToLower(l.title), ToLower(term)) || Includes(ToLower(l.description), ToLower(term))
  }

  predicate MatchesStatus(l: Listing, status: string) {
    status == ""
    || (status == "active" && l.active)
    || (status == "inactive" && !l.active)
    || (status == "pending" && l.status == "pending")
  }

  predicate MatchesCategory(l: Listing, category: string) {
    category == "" || ToLower(l.category) == ToLower(category)
  }

  predicate Matches(l: Listing, f: Filters) {
    MatchesSearch(l, f.searchTerm) && MatchesStatus(l, f.statusFilter) && MatchesCategory(l, f.categoryFilter)
  }

  function Keep(f: Filters): Listing -> bool {
    l => Matches(l, f)
  }

  /** `filteredListings`: the listings that pass all three filters, in their
      original order. */
  function FilteredListings(listings: seq<Listing>, f: Filters): (r: seq<Listing>)
    ensures forall l :: l in r <==> l in listings && Matches(l, f)
    ensures IsSubsequence(r, listings)
  {
    FilterIsSubsequence(listings, Keep(f));
    Filter(listings, Keep(f))
  }

  /** Every string contains the empty string. */
  lemma IncludesEmpty(s: string)
    ensures Includes(s, "")
  {
    assert s[..0] == "";
  }

  /** With all three filters empty every listing is shown. */
  lemma NoFiltersKeepAll(listings: seq<Listing>)
    ensures FilteredListings(listings, NoFilters) == listings
  {
    forall l | l in listings ensures Keep(NoFilters)(l) {
      IncludesEmpty(ToLower(l.title));
    }
    FilterKeepsAll(listings, Keep(NoFilters));
  }

  /** A status value other than the four the dropdown offers matches nothing. */
  lemma UnknownStatusKeepsNone(listings: seq<Listing>, f: Filters)
    requires f.statusFilter !in {"", "active", "inactive", "pending"}
    ensures FilteredListings(listings, f) == []
  {
    FilterKeepsNone(listings, Keep(f));
  }

  /** The status filter reads two fields: an inactive listing that is pending
      review shows under both "inactive" and "pending", and an active pending
      one under both "active" and "pending". */
  lemma PendingMatchesTwoStatuses(l: Listing)
    requires l.status == "pending"
    ensures MatchesStatus(l, "pending")
    ensures MatchesStatus(l, if l.active then "active" else "inactive")
    ensures !MatchesStatus(l, if l.active then "inactive" else "active")
  {
  }

  /** Searching and category matching ignore the case of what was typed. */
  lemma FiltersIgnoreCase(l: Listing, f: Filters)
    ensures Matches(l, f) <==> Matches(l, Filters(ToLower(f.searchTerm), f.statusFilter,
      if f.categoryFilter == "" then "" else ToLower(f.categoryFilter)))
  {
    ToLowerIdempotent(f.searchTerm);
    ToLowerIdempotent(f.categoryFilter);
    if f.categoryFilter != "" {
      assert |ToLower(f.categoryFilter)| > 0;
    }
  }

  /** Filtering the filtered list again with the same filters changes nothing. */
  lemma FilteringIsIdempotent(listings: seq<Listing>, f: Filters)
    ensures FilteredListings(FilteredListings(listings, f), f) == FilteredListings(listings, f)
  {
    FilterIdempotent(listings, Keep(f));
  }

  /** `paginatedListings`. */
  function PaginatedListings(listings: seq<Listing>, f: Filters, currentPage: int, itemsPerPage: nat): (r: seq<Listing>)
    requires itemsPerPage >= 1
    ensures |r| <= itemsPerPage
    ensures forall l :: l in r ==> l in listings && Matches(l, f)
  {
    var filtered := FilteredListings(listings, f);
    var r := PageOf(filtered, currentPage, itemsPerPage);
    assert forall l :: l in r ==> l in filtered by {
      JsSliceWithin(filtered, (currentPage - 1) * itemsPerPage, currentPage * itemsPerPage);
    }
    r
  }

  /** A slice holds only elements of the sliced list. */
  lemma JsSliceWithin<T>(s: seq<T>, start: int, end: int)
    ensures forall x :: x in JsSlice(s, start, end) ==> x in s
  {
    var n := |s|;
    var a := if start < 0 then Max(0, n + start) else Min(start, n);
    var b := if end < 0 then Max(0, n + end) else Min(end, n);
    if a < b {
      forall x | x in s[a..b] ensures x in s {
        var k :| 0 <= k < b - a && s[a..b][k] == x;
        assert s[a + k] == x;
      }
    }
  }

  /** The page after a filter change is the first `itemsPerPage` matches. */
  lemma FirstPageIsPrefix(listings: seq<Listing>, f: Filters, itemsPerPage: nat)
    requires itemsPerPage >= 1
    ensures var filtered := FilteredListings(listings, f);
      PaginatedListings(listings, f, 1, itemsPerPage) == filtered[..Min(itemsPerPage, |filtered|)]
  {
    PageAsSlice(FilteredListings(listings, f), 1, itemsPerPage);
  }

  /** The pager is rendered only when there is more than one page, that is
      when more listings match than fit on one page. */
  predicate ShowsPager(listings: seq<Listing>, f: Filters, itemsPerPage: nat)
    requires itemsPerPage >= 1
  {
    TotalPages(|FilteredListings(listings, f)|, itemsPerPage) > 1
  }

  lemma PagerShownIff(listings: seq<Listing>, f: Filters, itemsPerPage: nat)
    requires itemsPerPage >= 1
    ensures ShowsPager(listings, f, itemsPerPage) <==> |FilteredListings(listings, f)| > itemsPerPage
  {
    MoreThanOnePageIff(|FilteredListings(listings, f)|, itemsPerPage);
  }

  // ---------------------------------------------------------------------------
  // Row actions

  /** The status-dependent buttons of a row (view, edit and open-in-new-tab
      are on every row). */
  datatype Action = Approve | Reject | Deactivate

  function RowActions(l: Listing): (r: seq<Action>)
    ensures 1 <= |r| <= 2
    ensures Reject in r <==> l.status == "pending"
    ensures Deactivate in r <==> l.status != "pending" && l.active
    ensures Approve in r <==> l.status == "pending" || !l.active
    ensures Deactivate in r ==> r == [Deactivate]
  {
    if l.status == "pending" then [Approve, Reject]
    else if l.active then [Deactivate]
    else [Approve]
  }

  /** Any listing can be moved somewhere by a button: every row offers either
      approval or deactivation, never both. */
  lemma EveryRowOffersOneTransition(l: Listing)
    ensures (Approve in RowActions(l)) != (Deactivate in RowActions(l))
  {
  }

  // ---------------------------------------------------------------------------
  // The component's state

  class ListingsTable {
    var listings: seq<Listing>
    var searchTerm: string
    var statusFilter: string
    var categoryFilter: string
    var currentPage: int
    const itemsPerPage: nat

    function CurrentFilters(): Filters
      reads this
    {
      Filters(searchTerm, statusFilter, categoryFilter)
    }

    /** The rows on screen. */
    function Visible(): seq<Listing>
      reads this
      requires itemsPerPage >= 1
    {
      PaginatedListings(listings, CurrentFilters(), currentPage, itemsPerPage)
    }

    /** The component mounts on page 1 with empty filters; `itemsPerPage`
        defaults to 10. */
    constructor (itemsPerPage: Option<nat>)
      requires itemsPerPage.Some? ==> itemsPerPage.value >= 1
      ensures this.itemsPerPage == (if itemsPerPage.Some? then itemsPerPage.value else 10)
      ensures listings == [] && CurrentFilters() == NoFilters && currentPage == 1
    {
      this.itemsPerPage := if itemsPerPage.Some? then itemsPerPage.value else 10;
      listings, searchTerm, statusFilter, categoryFilter, currentPage := [], "", "", "", 1;
    }

    /** The loaded list arrives. */
    method Loaded(ls: seq<Listing>)
      modifies this
      ensures listings == ls
      ensures CurrentFilters() == old(CurrentFilters()) && currentPage == old(currentPage)
    {
      listings := ls;
    }

    method SetSearchTerm(term: string)
      modifies this
      requires itemsPerPage >= 1
      ensures CurrentFilters() == old(CurrentFilters()).(searchTerm := term)
      ensures currentPage == 1 && listings == old(listings)
      ensures var filtered := FilteredListings(listings, CurrentFilters());
        Visible() == filtered[..Min(itemsPerPage, |filtered|)]
    {
      currentPage := 1;
      searchTerm := term;
      FirstPageIsPrefix(listings, CurrentFilters(), itemsPerPage);
    }

    method SetStatusFilter(status: string)
      modifies this
      requires itemsPerPage >= 1
      ensures CurrentFilters() == old(CurrentFilters()).(statusFilter := status)
      ensures currentPage == 1 && listings == old(listings)
      ensures var filtered := FilteredListings(listings, CurrentFilters());
        Visible() == filtered[..Min(itemsPerPage, |filtered|)]
    {
      currentPage := 1;
      statusFilter := status;
      FirstPageIsPrefix(listings, CurrentFilters(), itemsPerPage);
    }

    method SetCategoryFilter(category: string)
      modifies this
      requires itemsPerPage >= 1
      ensures CurrentFilters() == old(CurrentFilters()).(categoryFilter := category)
      ensures currentPage == 1 && listings == old(listings)
      ensures var filtered := FilteredListings(listings, CurrentFilters());
        Visible() == filtered[..Min(itemsPerPage, |filtered|)]
    {
      currentPage := 1;
      categoryFilter := category;
      FirstPageIsPrefix(listings, CurrentFilters(), itemsPerPage);
    }

    /** The pager's `onPageChange`. */
    method SetPage(page: int)
      modifies this
      ensures currentPage == page
      ensures CurrentFilters() == old(CurrentFilters()) && listings == old(listings)
    {
      currentPage := page;
    }
  }
}
