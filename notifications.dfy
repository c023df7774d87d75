/**
 * The notification menu in the header: a list of notifications, each read or unread,
 * the unread count shown on the bell, and the two actions that mark notifications
 * as read. Times are milliseconds since the epoch; the clock is a parameter.
 */
module Notifications {
  import Seqs
  import RelativeTime

  datatype Kind = Info | Warning | Error | Success

  datatype Notification = Notification(id: string, title: string, message: string, kind: Kind,
                                       read: bool, createdAtMs: int)

  predicate IsUnread(n: Notification) {
    !n.read
  }

  /** `notifications.filter((n) => !n.read).length`. */
  function CountUnread(ns: seq<Notification>): (c: nat)
    ensures c <= |ns|
  {
    |Seqs.Filter(ns, IsUnread)|
  }

  /** There is nothing unread exactly when every notification has been read. */
  lemma NoneUnread(ns: seq<Notification>)
    ensures CountUnread(ns) == 0 <==> forall i :: 0 <= i < |ns| ==> ns[i].read
  {
    Seqs.FilterEmpty(ns, IsUnread);
  }

  /**
   * `markAsRead(id)`: the notifications with that id become read; nothing else about any
   * notification changes, and the list keeps its length and order.
   */
  function MarkRead(ns: seq<Notification>, id: string): (r: seq<Notification>)
    ensures |r| == |ns|
    ensures forall i :: 0 <= i < |ns| ==> r[i].read == (ns[i].read || ns[i].id == id)
    ensures forall i :: 0 <= i < |ns| ==> r[i].(read := ns[i].read) == ns[i]
  {
    seq(|ns|, i requires 0 <= i < |ns| => if ns[i].id == id then ns[i].(read := true) else ns[i])
  }

  /** `markAllAsRead`: every notification becomes read and nothing else changes. */
  function MarkAllRead(ns: seq<Notification>): (r: seq<Notification>)
    ensures |r| == |ns|
    ensures forall i :: 0 <= i < |ns| ==> r[i].read
    ensures forall i :: 0 <= i < |ns| ==> r[i].(read := ns[i].read) == ns[i]
  {
    seq(|ns|, i requires 0 <= i < |ns| => ns[i].(read := true))
  }

  /** Marking the same notification twice is marking it once. */
  lemma MarkReadIdempotent(ns: seq<Notification>, id: string)
    ensures MarkRead(MarkRead(ns, id), id) == MarkRead(ns, id)
  {
  }

  /** Marking an id that no notification carries changes nothing. */
  lemma MarkReadUnknown(ns: seq<Notification>, id: string)
    requires forall i :: 0 <= i < |ns| ==> ns[i].id != id
    ensures MarkRead(ns, id) == ns
  {
  }

  /** An unread notification that some other id was marked for. */
  predicate UnreadOther(id: string, n: Notification) {
    !n.read && n.id != id
  }

  /**
   * After `markAsRead(id)` the unread notifications are exactly the ones still unread
   * that carry another id; so the count never goes up, and it drops when an unread
   * notification carried the id.
   */
  lemma MarkReadCount(ns: seq<Notification>, id: string)
    ensures CountUnread(MarkRead(ns, id)) == |Seqs.Filter(ns, n => UnreadOther(id, n))|
    ensures CountUnread(MarkRead(ns, id)) <= CountUnread(ns)
    ensures (exists i :: 0 <= i < |ns| && !ns[i].read && ns[i].id == id) ==> CountUnread(MarkRead(ns, id)) < CountUnread(ns)
  {
    var r := MarkRead(ns, id);
    var other := (n: Notification) => UnreadOther(id, n);
    Seqs.FilterLengthPointwise(ns, other, r, IsUnread);
    Seqs.FilterLengthPointwise(r, IsUnread, ns, other);
    Seqs.FilterLengthPointwise(ns, IsUnread, ns, other);
    if i :| 0 <= i < |ns| && !ns[i].read && ns[i].id == id {
      FilterDropsOne(ns, i, id);
    }
  }

  /** Leaving out one unread notification with the id leaves fewer unread others than unread ones. */
  lemma {:induction false} FilterDropsOne(ns: seq<Notification>, k: nat, id: string)
    requires k < |ns| && !ns[k].read && ns[k].id == id
    ensures |Seqs.Filter(ns, n => UnreadOther(id, n))| < |Seqs.Filter(ns, IsUnread)|
    decreases |ns|
  {
    var other := (n: Notification) => UnreadOther(id, n);
    var m := |ns| - 1;
    var init := ns[..m];
    assert forall i :: 0 <= i < m ==> init[i] == ns[i];
    assert ns == init + [ns[m]];
    if k == m {
      Seqs.FilterLengthPointwise(init, IsUnread, init, other);
    } else {
      FilterDropsOne(init, k, id);
    }
  }

  /** After `markAllAsRead` nothing is unread. */
  lemma MarkAllReadClears(ns: seq<Notification>)
    ensures CountUnread(MarkAllRead(ns)) == 0
  {
    NoneUnread(MarkAllRead(ns));
  }

  /** What the menu shows beside a notification: its age by the shared relative-time rule. */
  function Age(n: Notification, nowMs: int): string {
    RelativeTime.TimeAgo(nowMs - n.createdAtMs)
  }

  /** The two notifications the menu starts with, thirty minutes and an hour old. */
  function Initial(nowMs: int): (ns: seq<Notification>)
    ensures |ns| == 2
  {
    [ Notification("1", "Low Stock Alert", "Laptop Pro X is running low on stock", Warning, false, nowMs - 1000 * 60 * 30),
      Notification("2", "New Order", "New order #1234 has been placed", Success, false, nowMs - 1000 * 60 * 60) ]
  }

  /** The starting list holds two unread notifications. */
  lemma InitialUnread(nowMs: int)
    ensures CountUnread(Initial(nowMs)) == 2
  {
    var ns := Initial(nowMs);
    assert ns[..1] == [ns[0]];
    assert ns[..1][..0] == [];
  }

  /** They are shown as "30m ago" and "1h ago". */
  lemma InitialAges(nowMs: int)
    ensures Age(Initial(nowMs)[0], nowMs) == "30m ago"
    ensures Age(Initial(nowMs)[1], nowMs) == "1h ago"
  {
    RelativeTime.TimeAgoBuckets(1000 * 60 * 30);
    RelativeTime.TimeAgoBuckets(1000 * 60 * 60);
  }

  /** The menu's state: whether it is open and the notification list. */
  class Menu {
    var isOpen: bool
    var notifications: seq<Notification>

    constructor (nowMs: int)
      ensures !isOpen && notifications == Initial(nowMs)
    {
      isOpen := false;
      notifications := Initial(nowMs);
    }

    function UnreadCount(): nat
      reads this
    {
      CountUnread(notifications)
    }

    /** The badge on the bell, and the "Mark all as read" control, are shown while something is unread. */
    predicate ShowsBadge()
      reads this
    {
      UnreadCount() > 0
    }

    /** The badge is shown exactly when some notification has not been read. */
    lemma BadgeIffUnread()
      ensures ShowsBadge() <==> exists i :: 0 <= i < |notifications| && !notifications[i].read
    {
      NoneUnread(notifications);
    }

    /** The bell toggles the menu. */
    method Toggle()
      modifies this
      ensures isOpen == !old(isOpen) && notifications == old(notifications)
    {
      isOpen := !isOpen;
    }

    /** A click outside closes it. */
    method Close()
      modifies this
      ensures !isOpen && notifications == old(notifications)
    {
      isOpen := false;
    }

    method MarkAsRead(id: string)
      modifies this
      ensures notifications == MarkRead(old(notifications), id)
      ensures isOpen == old(isOpen)
      ensures UnreadCount() <= old(UnreadCount())
    {
      MarkReadCount(notifications, id);
      notifications := MarkRead(notifications, id);
    }

    method MarkAllAsRead()
      modifies this
      ensures notifications == MarkAllRead(old(notifications))
      ensures isOpen == old(isOpen)
      ensures UnreadCount() == 0 && !ShowsBadge()
    {
      MarkAllReadClears(notifications);
      notifications := MarkAllRead(notifications);
    }
  }
}
