/** The notifications panel (`NotificationsList`): the read/unread filter,
    the spinner and badge conditions, the empty-state texts and the page
    count, plus the fetches its page changes cause. */
module NotificationsList {
  import opened JsCore
  import opened Paging

  /** A notification, restricted to the fields the panel reads. */
  datatype Notification = Notification(id: int, content: string, read: bool)

  const PageSize := 10

  function IsUnread(n: Notification): bool { !n.read }

  function IsRead(n: Notification): bool { n.read }

  /** `filteredNotifications`. */
  function FilteredNotifications(ns: seq<Notification>, filterType: string): (r: seq<Notification>)
    ensures IsSubsequence(r, ns)
    ensures filterType == "unread" ==> forall n :: n in r <==> n in ns && !n.read
    ensures filterType == "read" ==> forall n :: n in r <==> n in ns && n.read
    ensures filterType != "unread" && filterType != "read" ==> r == ns
  {
    FilterIsSubsequence(ns, IsUnread);
    FilterIsSubsequence(ns, IsRead);
    SubsequenceRefl(ns);
    if filterType == "unread" then Filter(ns, IsUnread)
    else if filterType == "read" then Filter(ns, IsRead)
    else ns
  }

  /** The unread and the read views split the list between them. */
  lemma ReadAndUnreadPartition(ns: seq<Notification>)
    ensures multiset(FilteredNotifications(ns, "unread")) + multiset(FilteredNotifications(ns, "read")) == multiset(ns)
    ensures |FilteredNotifications(ns, "unread")| + |FilteredNotifications(ns, "read")| == |ns|
  {
    FilterPartition(ns, IsUnread, IsRead);
  }

  /** What the panel shows. */
  datatype Panel =
    | Spinner
    | Shown(badge: Option<int>, items: seq<Notification>, emptyTitle: Option<string>, totalPages: nat)

  function EmptyTitle(filterType: string): (r: string)
    ensures filterType == "unread" ==> r == "Немає непрочитаних сповіщень"
    ensures filterType == "read" ==> r == "Немає прочитаних сповіщень"
    ensures filterType != "unread" && filterType != "read" ==> r == "Сповіщення відсутні"
  {
    if filterType == "unread" then "Немає непрочитаних сповіщень"
    else if filterType == "read" then "Немає прочитаних сповіщень"
    else "Сповіщення відсутні"
  }

  function Render(isLoading: bool, ns: seq<Notification>, unreadCount: int, filterType: string): (r: Panel)
    ensures r.Spinner? <==> isLoading && |ns| == 0
    ensures r.Shown? ==> (r.badge.Some? <==> unreadCount > 0) && (r.badge.Some? ==> r.badge.value == unreadCount)
    ensures r.Shown? ==> r.items == FilteredNotifications(ns, filterType)
    ensures r.Shown? ==> (r.emptyTitle.Some? <==> |r.items| == 0)
    ensures r.Shown? && r.emptyTitle.Some? ==> r.emptyTitle.value == EmptyTitle(filterType)
    ensures r.Shown? ==> r.totalPages == TotalPages(|ns|, PageSize)
  {
    if isLoading && |ns| == 0 then Spinner
    else
      var items := FilteredNotifications(ns, filterType);
      Shown(if unreadCount > 0 then Some(unreadCount) else None, items,
        if |items| > 0 then None else Some(EmptyTitle(filterType)), CeilDiv(|ns|, PageSize))
  }

  /** An empty list has no pages at all (not one empty page), which the pager
      receives as `totalPages` 0. */
  lemma EmptyListHasNoPages(unreadCount: int, filterType: string)
    ensures Render(false, [], unreadCount, filterType).totalPages == 0
  {
  }

  /** The page count from the loaded list: at most `PageSize` per page and no
      empty page. */
  lemma PageCountFitsList(ns: seq<Notification>)
    ensures TotalPages(|ns|, PageSize) * PageSize >= |ns|
    ensures |ns| > 0 ==> (TotalPages(|ns|, PageSize) - 1) * PageSize < |ns|
  {
    TotalPagesBounds(|ns|, PageSize);
  }

  datatype Fetch = Fetch(page: int, limit: int)

  class NotificationsPanel {
    var page: int
    var filterType: string
    /** The `fetchNotifications` requests made, in order. */
    var fetches: seq<Fetch>

    /** Mounting fetches page 1. */
    constructor ()
      ensures page == 1 && filterType == "all" && fetches == [Fetch(1, PageSize)]
    {
      page, filterType, fetches := 1, "all", [Fetch(1, PageSize)];
    }

    /** The pager's `onPageChange`: the effect refetches when the page
        actually changed. */
    method SetPage(p: int)
      modifies this
      ensures page == p && filterType == old(filterType)
      ensures fetches == old(fetches) + (if p != old(page) then [Fetch(p, PageSize)] else [])
    {
      if p != page {
        fetches := fetches + [Fetch(p, PageSize)];
      }
      page := p;
    }

    /** Changing the filter only filters what is loaded. */
    method SetType(t: string)
      modifies this
      ensures filterType == t && page == old(page) && fetches == old(fetches)
    {
      filterType := t;
    }
  }
}
