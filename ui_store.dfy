/** The global UI store (project/lib/stores/uiStore.ts): the sidebar flag,
    the colour theme and a newest-first list of at most ten notifications. */
module UiStore {
  import Seqs

  datatype Theme = Light | Dark

  datatype NotificationType = Info | Success | Warning | Error

  datatype Notification = Notification(id: string, title: string, message: string,
                                       kind: NotificationType, timestamp: string)

  /** `.slice(0, 10)` keeps at most this many notifications. */
  const MaxNotifications: nat := 10

  function Min(a: nat, b: nat): nat { if a < b then a else b }

  /** `[n, ...list].slice(0, 10)`. */
  function WithNotification(list: seq<Notification>, n: Notification): (r: seq<Notification>)
    ensures |r| == Min(|list| + 1, MaxNotifications)
    ensures r[0] == n
    ensures r[1..] == list[..|r| - 1]
  {
    ([n] + list)[..Min(|list| + 1, MaxNotifications)]
  }

  /** The filter condition of `removeNotification`. */
  function HasOtherId(id: string): Notification -> bool {
    (n: Notification) => n.id != id
  }

  /** `list.filter(n => n.id !== id)`. */
  function WithoutNotification(list: seq<Notification>, id: string): (r: seq<Notification>)
    ensures forall i :: 0 <= i < |r| ==> r[i].id != id
    ensures Seqs.IsSubsequence(r, list)
    ensures forall n :: multiset(r)[n] == if n.id != id then multiset(list)[n] else 0
  {
    Seqs.FilterSpec(list, HasOtherId(id));
    Seqs.Filter(list, HasOtherId(id))
  }

  /** Adding to a full list drops the oldest entry and keeps the other nine in order. */
  lemma AddToFullDropsOldest(list: seq<Notification>, n: Notification)
    requires |list| == MaxNotifications
    ensures WithNotification(list, n) == [n] + list[..MaxNotifications - 1]
    ensures |WithNotification(list, n)| == |list|
  {
  }

  /** The list never grows beyond its cap. */
  lemma AddKeepsCap(list: seq<Notification>, n: Notification)
    requires |list| <= MaxNotifications
    ensures |WithNotification(list, n)| <= MaxNotifications
    ensures |list| < MaxNotifications ==> WithNotification(list, n) == [n] + list
  {
  }

  /** Removing an id no entry carries changes nothing. */
  lemma RemoveAbsentIsNoOp(list: seq<Notification>, id: string)
    requires forall i :: 0 <= i < |list| ==> list[i].id != id
    ensures WithoutNotification(list, id) == list
  {
    Seqs.FilterKeepsAll(list, HasOtherId(id));
  }

  /** Removing the same id twice is removing it once. */
  lemma RemoveIdempotent(list: seq<Notification>, id: string)
    ensures WithoutNotification(WithoutNotification(list, id), id) == WithoutNotification(list, id)
  {
    Seqs.FilterIdempotent(list, HasOtherId(id));
  }

  /** The two notifications the store starts with; the clock readings are parameters. */
  function InitialNotifications(now: string, anHourAgo: string): seq<Notification> {
    [ Notification("1", "Welcome!", "Your timetable has been successfully generated.", Success, now),
      Notification("2", "Reminder", "Faculty meeting scheduled for tomorrow at 2 PM.", Info, anHourAgo) ]
  }

  class UIStore {
    var sidebarOpen: bool
    var theme: Theme
    var notifications: seq<Notification>

    /** The cap of `.slice(0, 10)` holds in every reachable state. */
    ghost predicate Valid()
      reads this
    {
      |notifications| <= MaxNotifications
    }

    constructor (now: string, anHourAgo: string)
      ensures Valid()
      ensures sidebarOpen && theme == Light
      ensures notifications == InitialNotifications(now, anHourAgo)
      ensures notifications[0].id == "1" && notifications[1].id == "2"
    {
      sidebarOpen := true;
      theme := Light;
      notifications := InitialNotifications(now, anHourAgo);
    }

    method SetSidebarOpen(open: bool)
      modifies this`sidebarOpen
      ensures sidebarOpen == open
    {
      sidebarOpen := open;
    }

    method ToggleSidebar()
      modifies this`sidebarOpen
      ensures sidebarOpen == !old(sidebarOpen)
    {
      sidebarOpen := !sidebarOpen;
    }

    method SetTheme(t: Theme)
      modifies this`theme
      ensures theme == t
    {
      theme := t;
    }

    /** The random id and the clock reading are supplied by the caller. */
    method AddNotification(title: string, message: string, kind: NotificationType, id: string, timestamp: string)
      requires Valid()
      modifies this`notifications
      ensures Valid()
      ensures notifications == WithNotification(old(notifications), Notification(id, title, message, kind, timestamp))
      ensures notifications[0] == Notification(id, title, message, kind, timestamp)
      ensures |notifications| == Min(|old(notifications)| + 1, MaxNotifications)
    {
      notifications := WithNotification(notifications, Notification(id, title, message, kind, timestamp));
    }

    method RemoveNotification(id: string)
      requires Valid()
      modifies this`notifications
      ensures Valid()
      ensures notifications == WithoutNotification(old(notifications), id)
    {
      notifications := WithoutNotification(notifications, id);
    }
  }
}
