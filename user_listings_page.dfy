/** The "my listings" page (`UserListingsPage`): the active/inactive filter,
    what the page body shows, and the fetches caused by page changes and
    deletions. The awaited delete's outcome is a parameter. */
module UserListingsPage {
  import opened JsCore
  import opened ListingTypes

  const PageSize := 12

  function IsActive(l: Listing): bool { l.active }

  function IsInactive(l: Listing): bool { !l.active }

  /** `filteredListings`. */
  function FilteredListings(ls: seq<Listing>, filter: string): (r: seq<Listing>)
    ensures IsSubsequence(r, ls)
    ensures filter == "active" ==> forall l :: l in r <==> l in ls && l.active
    ensures filter == "inactive" ==> forall l :: l in r <==> l in ls && !l.active
    ensures filter != "active" && filter != "inactive" ==> r == ls
  {
    FilterIsSubsequence(ls, IsActive);
    FilterIsSubsequence(ls, IsInactive);
    SubsequenceRefl(ls);
    if filter == "active" then Filter(ls, IsActive)
    else if filter == "inactive" then Filter(ls, IsInactive)
    else ls
  }

  /** The active and the inactive views split the list between them. */
  lemma ActiveAndInactivePartition(ls: seq<Listing>)
    ensures multiset(FilteredListings(ls, "active")) + multiset(FilteredListings(ls, "inactive")) == multiset(ls)
    ensures |FilteredListings(ls, "active")| + |FilteredListings(ls, "inactive")| == |ls|
  {
    FilterPartition(ls, IsActive, IsInactive);
  }

  /** The empty-state heading: own wording for "all" and "active"; every
      other filter value reads as the inactive one. */
  function EmptyHeading(filter: string): (r: string)
    ensures filter == "all" ==> r == "Ви ще не створили жодного оголошення"
    ensures filter == "active" ==> r == "Немає активних оголошень"
    ensures filter != "all" && filter != "active" ==> r == "Немає неактивних оголошень"
  {
    if filter == "all" then "Ви ще не створили жодного оголошення"
    else if filter == "active" then "Немає активних оголошень"
    else "Немає неактивних оголошень"
  }

  /** The three dropdown values get three different headings. */
  lemma HeadingsDistinct()
    ensures EmptyHeading("all") != EmptyHeading("active")
    ensures EmptyHeading("active") != EmptyHeading("inactive")
    ensures EmptyHeading("all") != EmptyHeading("inactive")
  {
  }

  datatype Body = Spinner | Cards(listings: seq<Listing>, pager: Option<(int, int)>) | Empty(heading: string)

  /** The page body; the pager, fed from the response metadata, is shown only
      with more than one page. */
  function PageBody(isLoading: bool, ls: seq<Listing>, filter: string, meta: Option<Meta>): (r: Body)
    ensures r.Spinner? <==> isLoading
    ensures r.Cards? <==> !isLoading && |FilteredListings(ls, filter)| > 0
    ensures r.Cards? ==> (r.listings == FilteredListings(ls, filter)
      && (r.pager.Some? <==> meta.Some? && meta.value.pages > 1)
      && (r.pager.Some? ==> r.pager.value == (meta.value.page, meta.value.pages)))
    ensures r.Empty? ==> r.heading == EmptyHeading(filter)
  {
    if isLoading then Spinner
    else
      var shown := FilteredListings(ls, filter);
      if |shown| > 0 then
        Cards(shown, if meta.Some? && meta.value.pages > 1 then Some((meta.value.page, meta.value.pages)) else None)
      else Empty(EmptyHeading(filter))
  }

  /** The whole page under the filter bar: the error alert, the listing
      count next to the filter, and the body. */
  datatype Page = Page(alert: Option<string>, total: nat, body: Body)

  /** The alert is shown for a truthy error only (an empty message shows
      none), whether or not a request is loading; the count is of all the
      user's listings, not of the filtered ones. */
  function ShowPage(error: Option<string>, isLoading: bool, ls: seq<Listing>, filter: string, meta: Option<Meta>): (r: Page)
    ensures r.alert.Some? <==> error.Some? && error.value != ""
    ensures r.alert.Some? ==> r.alert == error
    ensures r.total == |ls| && r.total >= |FilteredListings(ls, filter)|
    ensures r.body == PageBody(isLoading, ls, filter, meta)
  {
    Page(if Truthy(error) then error else None, |ls|, PageBody(isLoading, ls, filter, meta))
  }

  datatype Fetch = Fetch(page: int, limit: int)

  class UserListingsView {
    var currentPage: int
    var filter: string
    /** The `fetchUserListings` requests made, in order. */
    var fetches: seq<Fetch>
    /** The `deleteListing` requests made, in order. */
    var deletes: seq<int>

    constructor ()
      ensures currentPage == 1 && filter == "all" && fetches == [Fetch(1, PageSize)] && deletes == []
    {
      currentPage, filter, fetches, deletes := 1, "all", [Fetch(1, PageSize)], [];
    }

    /** A page change refetches that page when it differs from the current. */
    method SetCurrentPage(p: int)
      modifies this
      ensures currentPage == p && filter == old(filter) && deletes == old(deletes)
      ensures fetches == old(fetches) + (if p != old(currentPage) then [Fetch(p, PageSize)] else [])
    {
      if p != currentPage {
        fetches := fetches + [Fetch(p, PageSize)];
      }
      currentPage := p;
    }

    method SetFilter(f: string)
      modifies this
      ensures filter == f && currentPage == old(currentPage)
      ensures fetches == old(fetches) && deletes == old(deletes)
    {
      filter := f;
    }

    /** `handleDelete`: the delete is requested; only when it succeeds is the
        current page fetched again. */
    method HandleDelete(listingId: int, deleteSucceeds: bool)
      modifies this
      ensures deletes == old(deletes) + [listingId]
      ensures fetches == old(fetches) + (if deleteSucceeds then [Fetch(currentPage, PageSize)] else [])
      ensures currentPage == old(currentPage) && filter == old(filter)
    {
      deletes := deletes + [listingId];
      if deleteSucceeds {
        fetches := fetches + [Fetch(currentPage, PageSize)];
      }
    }
  }
}
