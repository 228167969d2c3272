/** The admin shell (`AdminLayout`): which sidebar item is active for the
    current pathname, the header title, and logging out. */
module AdminLayout {
  import opened JsCore

  datatype MenuItem = MenuItem(path: string, caption: string)

  const DashboardPath := "/admin"

  /** The sidebar, in menu order. */
  const MenuItems: seq<MenuItem> := [
    MenuItem("/admin", "Dashboard"),
    MenuItem("/admin/users", "Користувачі"),
    MenuItem("/admin/listings", "Оголошення"),
    MenuItem("/admin/categories", "Категорії"),
    MenuItem("/admin/payments", "Платежі"),
    MenuItem("/admin/analytics", "Аналітика"),
    MenuItem("/admin/settings", "Налаштування")
  ]

  const FallbackTitle := "Admin Panel"

  /** `isActivePath`: the dashboard only on its own pathname, any other item
      also on every pathname that starts with its path. */
  predicate IsActivePath(pathname: string, path: string) {
    pathname == path || (path != DashboardPath && StartsWith(pathname, path))
  }

  /** `find` over the menu: the first item active for `pathname`. */
  function FirstActive(items: seq<MenuItem>, pathname: string): (r: Option<nat>)
    ensures r.Some? ==> r.value < |items| && IsActivePath(pathname, items[r.value].path)
    ensures r.Some? ==> forall j :: 0 <= j < r.value ==> !IsActivePath(pathname, items[j].path)
    ensures r.None? <==> forall j :: 0 <= j < |items| ==> !IsActivePath(pathname, items[j].path)
    decreases |items|
  {
    if items == [] then None
    else if IsActivePath(pathname, items[0].path) then Some(0)
    else
      var rest := FirstActive(items[1..], pathname);
      assert forall j :: 1 <= j < |items| ==> items[1..][j - 1] == items[j];
      if rest.Some? then Some(rest.value + 1) else None
  }

  /** The header title: the caption of the first active item, or the fallback
      (the captions are all non-empty, so `|| 'Admin Panel'` only catches "no
      item"). */
  function Title(pathname: string): (r: string)
    ensures FirstActive(MenuItems, pathname).Some? ==> r == MenuItems[FirstActive(MenuItems, pathname).value].caption
    ensures FirstActive(MenuItems, pathname).None? ==> r == FallbackTitle
  {
    var found := FirstActive(MenuItems, pathname);
    CaptionsNonEmpty();
    if found.Some? && MenuItems[found.value].caption != "" then MenuItems[found.value].caption else FallbackTitle
  }

  lemma CaptionsNonEmpty()
    ensures forall j :: 0 <= j < |MenuItems| ==> MenuItems[j].caption != ""
  {
    forall j | 0 <= j < |MenuItems| ensures MenuItems[j].caption != "" {
      assert |MenuItems[j].caption| > 0;
    }
  }

  /** The dashboard is active on `/admin` and nowhere else. */
  lemma DashboardOnlyOnItsPath(pathname: string)
    ensures IsActivePath(pathname, DashboardPath) <==> pathname == DashboardPath
  {
  }

  /** Any pathname below an item's path activates that item, however the next
      character reads: `/admin/usersX` activates Users. */
  lemma PrefixActivates(path: string, rest: string)
    requires path != DashboardPath
    ensures IsActivePath(path + rest, path)
  {
    assert (path + rest)[..|path|] == path;
  }

  /** Every pathname that starts with `/admin/users`, `/admin/usersX`
      included, shows the Users caption. */
  lemma UsersPrefixTitle(rest: string)
    ensures Title("/admin/users" + rest) == "Користувачі"
  {
    OwnPathTitle(1, rest);
  }

  /** The item at `i` is the one found when it is active and none before it
      is. */
  lemma FirstActiveAt(items: seq<MenuItem>, pathname: string, i: nat)
    requires i < |items| && IsActivePath(pathname, items[i].path)
    requires forall j :: 0 <= j < i ==> !IsActivePath(pathname, items[j].path)
    ensures FirstActive(items, pathname) == Some(i)
  {
  }

  /** On the dashboard's own pathname the title is Dashboard (the fallback
      for a pathname outside the admin area is `OutsideAdminFallback`). */
  lemma DashboardTitle()
    ensures Title("/admin") == "Dashboard"
  {
  }

  /** No sub-page path is a prefix of another (they differ at their eighth
      character), so on a sub-page's own pathname, and on every pathname
      below it, that item is the first active one and the header names it. */
  lemma OwnPathTitle(i: nat, rest: string)
    requires 1 <= i < |MenuItems|
    ensures Title(MenuItems[i].path + rest) == MenuItems[i].caption
  {
    var path := MenuItems[i].path;
    var p := path + rest;
    assert |path| > 7 && p[7] == path[7];
    forall j | 0 <= j < i ensures !IsActivePath(p, MenuItems[j].path) {
      var q := MenuItems[j].path;
      if j == 0 {
        assert |p| != |q|;
      } else {
        assert |q| > 7 && q[7] != path[7];
        DifferAt(p, q, 7);
      }
    }
    PrefixActivates(path, rest);
    FirstActiveAt(MenuItems, p, i);
  }

  lemma DifferAt(s: string, p: string, k: nat)
    requires k < |s| && k < |p| && s[k] != p[k]
    ensures !StartsWith(s, p)
  {
    assert |p| <= |s| ==> s[..|p|][k] == s[k];
  }

  /** Every item lives under the dashboard's path. */
  lemma MenuUnderDashboard()
    ensures forall j :: 0 <= j < |MenuItems| ==> StartsWith(MenuItems[j].path, DashboardPath)
  {
    forall j | 0 <= j < |MenuItems| ensures StartsWith(MenuItems[j].path, DashboardPath) {
      assert MenuItems[j].path[..6] == "/admin";
    }
  }

  lemma StartsWithTrans(s: string, p: string, q: string)
    requires StartsWith(s, p) && StartsWith(p, q)
    ensures StartsWith(s, q)
  {
    assert s[..|q|] == s[..|p|][..|q|];
  }

  /** A pathname outside `/admin...` activates nothing, so the header shows
      the fallback. */
  lemma OutsideAdminFallback(pathname: string)
    requires !StartsWith(pathname, DashboardPath)
    ensures Title(pathname) == FallbackTitle
  {
    MenuUnderDashboard();
    forall j | 0 <= j < |MenuItems| ensures !IsActivePath(pathname, MenuItems[j].path) {
      var p := MenuItems[j].path;
      assert StartsWith(pathname, p) ==> StartsWith(pathname, DashboardPath) by {
        if StartsWith(pathname, p) {
          StartsWithTrans(pathname, p, DashboardPath);
        }
      }
    }
  }

  // ---------------------------------------------------------------------------
  // Logging out

  /** What the handlers dispatch and where they navigate, in order. */
  datatype Effect = DispatchLogout | Navigate(to: string)

  class Shell {
    var effects: seq<Effect>

    constructor ()
      ensures effects == []
    {
      effects := [];
    }

    /** `handleLogout`: `logout` first, then `/login`. */
    method HandleLogout()
      modifies this
      ensures effects == old(effects) + [DispatchLogout, Navigate("/login")]
    {
      effects := effects + [DispatchLogout];
      effects := effects + [Navigate("/login")];
    }
  }
}
