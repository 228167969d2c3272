/** The UI slice of the client store: the colour theme, whether the sidebar is
    open, and the queue of toast notifications.

    `Reduce` is the reducer as a function; the class `UiStore` holds the same
    state in fields and applies each action in place. The notification id is
    the current time in milliseconds written as a decimal string; the time is a
    parameter of the action. */
module UiSlice {
  import opened JsCore

  datatype Theme = Light | Dark

  datatype Kind = Success | Error | Warning | Info

  datatype Notification = Notification(id: string, kind: Kind, message: string)

  datatype Action =
    | ToggleTheme
    | SetTheme(theme: Theme)
    | ToggleSidebar
    | SetSidebarOpen(open: bool)
    | AddNotification(kind: Kind, message: string, now: nat)
    | RemoveNotification(id: string)

  datatype State = State(theme: Theme, sidebarOpen: bool, notifications: seq<Notification>)

  function InitialState(): (s: State)
    ensures s.theme == Light && !s.sidebarOpen && s.notifications == []
  {
    State(Light, false, [])
  }

  function Toggled(t: Theme): (r: Theme)
    ensures r != t
  {
    if t == Light then Dark else Light
  }

  /** The notifications whose id differs from `id`. */
  function WithoutId(ns: seq<Notification>, id: string): seq<Notification> {
    Filter(ns, (n: Notification) => n.id != id)
  }

  /** The slice reducer. Each field is changed only by its own actions;
      adding keeps the existing notifications in front, and no action
      lengthens the list by more than one. */
  function Reduce(s: State, a: Action): (r: State)
    ensures !(a.ToggleTheme? || a.SetTheme?) ==> r.theme == s.theme
    ensures !(a.ToggleSidebar? || a.SetSidebarOpen?) ==> r.sidebarOpen == s.sidebarOpen
    ensures a.AddNotification? ==> |r.notifications| == |s.notifications| + 1 && r.notifications[..|s.notifications|] == s.notifications
    ensures |r.notifications| <= |s.notifications| + 1
    ensures !(a.AddNotification? || a.RemoveNotification?) ==> r.notifications == s.notifications
  {
    match a
    case ToggleTheme => s.(theme := Toggled(s.theme))
    case SetTheme(t) => s.(theme := t)
    case ToggleSidebar => s.(sidebarOpen := !s.sidebarOpen)
    case SetSidebarOpen(b) => s.(sidebarOpen := b)
    case AddNotification(k, m, now) =>
      s.(notifications := s.notifications + [Notification(NatToString(now), k, m)])
    case RemoveNotification(id) => s.(notifications := WithoutId(s.notifications, id))
  }

  // ---------------------------------------------------------------------------
  // Properties of the reducer

  /** Toggling the theme swaps light and dark; twice is the identity. */
  lemma ToggleThemeTwice(s: State)
    ensures Reduce(s, ToggleTheme).theme != s.theme
    ensures Reduce(s, ToggleTheme).sidebarOpen == s.sidebarOpen
    ensures Reduce(s, ToggleTheme).notifications == s.notifications
    ensures Reduce(Reduce(s, ToggleTheme), ToggleTheme) == s
  {
  }

  /** Toggling the sidebar negates the flag; twice is the identity. */
  lemma ToggleSidebarTwice(s: State)
    ensures Reduce(s, ToggleSidebar).sidebarOpen == !s.sidebarOpen
    ensures Reduce(s, ToggleSidebar).theme == s.theme
    ensures Reduce(Reduce(s, ToggleSidebar), ToggleSidebar) == s
  {
  }

  /** The two setters store their payload and change nothing else; setting is
      idempotent. */
  lemma SettersStorePayload(s: State, t: Theme, b: bool)
    ensures Reduce(s, SetTheme(t)) == s.(theme := t)
    ensures Reduce(s, SetSidebarOpen(b)) == s.(sidebarOpen := b)
    ensures Reduce(Reduce(s, SetTheme(t)), SetTheme(t)) == Reduce(s, SetTheme(t))
  {
  }

  /** Adding a notification appends exactly one entry carrying the payload and
      the time stamp as its id, and leaves the existing entries as they were. */
  lemma AddAppends(s: State, k: Kind, m: string, now: nat)
    ensures var r := Reduce(s, AddNotification(k, m, now)).notifications;
      && |r| == |s.notifications| + 1
      && r[..|s.notifications|] == s.notifications
      && r[|s.notifications|].kind == k && r[|s.notifications|].message == m
      && r[|s.notifications|].id == NatToString(now)
  {
  }

  /** Two notifications added in different milliseconds get different ids. */
  lemma {:induction false} DistinctTimesDistinctIds(t1: nat, t2: nat)
    requires t1 != t2
    ensures NatToString(t1) != NatToString(t2)
  {
    DecValueOfNatToString(t1);
    DecValueOfNatToString(t2);
  }

  /** Removing by id drops every entry with that id (also several added in the
      same millisecond), keeps the others in order, is idempotent, and removing
      an absent id is a no-op. */
  lemma RemoveDropsAllWithId(s: State, id: string)
    ensures var r := Reduce(s, RemoveNotification(id)).notifications;
      && (forall n :: n in r <==> n in s.notifications && n.id != id)
      && IsSubsequence(r, s.notifications)
      && Reduce(Reduce(s, RemoveNotification(id)), RemoveNotification(id)) == Reduce(s, RemoveNotification(id))
    ensures (forall n :: n in s.notifications ==> n.id != id) ==> Reduce(s, RemoveNotification(id)) == s
  {
    var p := (n: Notification) => n.id != id;
    FilterIsSubsequence(s.notifications, p);
    FilterIdempotent(s.notifications, p);
    if forall n :: n in s.notifications ==> n.id != id {
      FilterKeepsAll(s.notifications, p);
    }
  }

  // ---------------------------------------------------------------------------
  // The store, updated in place

  class UiStore {
    var theme: Theme
    var sidebarOpen: bool
    var notifications: seq<Notification>

    function View(): State
      reads this
    {
      State(theme, sidebarOpen, notifications)
    }

    constructor ()
      ensures View() == InitialState()
    {
      theme, sidebarOpen, notifications := Light, false, [];
    }

    method ToggleTheme()
      modifies this
      ensures View() == Reduce(old(View()), Action.ToggleTheme)
    {
      theme := if theme == Light then Dark else Light;
    }

    method SetTheme(t: Theme)
      modifies this
      ensures View() == Reduce(old(View()), Action.SetTheme(t))
    {
      theme := t;
    }

    method ToggleSidebar()
      modifies this
      ensures View() == Reduce(old(View()), Action.ToggleSidebar)
    {
      sidebarOpen := !sidebarOpen;
    }

    method SetSidebarOpen(b: bool)
      modifies this
      ensures View() == Reduce(old(View()), Action.SetSidebarOpen(b))
    {
      sidebarOpen := b;
    }

    /** `push` of the payload with the time stamp as its id. */
    method AddNotification(k: Kind, m: string, now: nat)
      modifies this
      ensures View() == Reduce(old(View()), Action.AddNotification(k, m, now))
    {
      var id := NatToString(now);
      notifications := notifications + [Notification(id, k, m)];
    }

    method RemoveNotification(id: string)
      modifies this
      ensures View() == Reduce(old(View()), Action.RemoveNotification(id))
    {
      notifications := WithoutId(notifications, id);
    }
  }
}
