/**
 * The two client views of a user's notifications: the notifications page,
 * which filters the list by read state and updates it locally after each
 * service call, and the notification bell, which keeps a separate unread
 * counter next to its list.
 *
 * The service never throws (every write answers `{ success, error }`), so
 * both views update their local state whatever the store did; the outcome of
 * a call is therefore not an input here.
 */
module NotificationViews {
  import opened Seqs
  import opened Text
  import opened Wrappers
  import Store = NotificationStore

  type Notification = Store.Notification

  predicate IsUnread(n: Notification) { !n.read }
  predicate IsRead(n: Notification) { n.read }

  function UnreadCount(ns: seq<Notification>): nat {
    |Filter(ns, IsUnread)|
  }

  /** Some record with that id is still unread. */
  predicate HasUnread(ns: seq<Notification>, id: string) {
    exists k :: 0 <= k < |ns| && ns[k].id == id && !ns[k].read
  }

  /** The page's filter tabs. */
  datatype View = All | Unread | Read

  function Visible(ns: seq<Notification>, view: View): (r: seq<Notification>)
    ensures view == All ==> r == ns
    ensures view == Unread ==> forall k :: 0 <= k < |r| ==> !r[k].read
    ensures view == Read ==> forall k :: 0 <= k < |r| ==> r[k].read
    ensures forall n :: n in r ==> n in ns
  {
    match view
    case All => ns
    case Unread => Filter(ns, IsUnread)
    case Read => Filter(ns, IsRead)
  }

  /** The unread and read tabs split the list: every record shows in exactly one of them, as often as in the list. */
  lemma ViewsPartition(ns: seq<Notification>)
    ensures multiset(Visible(ns, Unread)) + multiset(Visible(ns, Read)) == multiset(ns)
    ensures forall n :: n in ns ==> (n in Visible(ns, Unread) <==> n !in Visible(ns, Read))
  {
    forall n
      ensures (multiset(Visible(ns, Unread)) + multiset(Visible(ns, Read)))[n] == multiset(ns)[n]
    {
      FilterMultiplicity(ns, IsUnread, n);
      FilterMultiplicity(ns, IsRead, n);
    }
    forall n | n in ns
      ensures n in Visible(ns, Unread) <==> n !in Visible(ns, Read)
    {
      FilterMultiplicity(ns, IsUnread, n);
      FilterMultiplicity(ns, IsRead, n);
    }
  }

  /** A button of the page. */
  datatype Action = MarkOne(id: string) | MarkAll | Remove(id: string) | ClearAll

  function SetRead(n: Notification): Notification {
    n.(read := true)
  }

  /**
   * The page's local update after the service call: mark-all and clear-all do
   * nothing without a signed-in user, and clear-all also needs the user to
   * confirm.
   */
  function Handle(ns: seq<Notification>, a: Action, signedIn: bool, confirmed: bool): (r: seq<Notification>)
    ensures |r| <= |ns|
    ensures a.MarkOne? || a.MarkAll? ==> |r| == |ns| && forall k :: 0 <= k < |ns| ==> r[k].(read := ns[k].read) == ns[k]
    ensures a.MarkOne? ==> forall k :: 0 <= k < |ns| ==> (r[k].read <==> ns[k].read || ns[k].id == a.id)
    ensures a.MarkAll? ==> forall k :: 0 <= k < |ns| ==> (r[k].read <==> ns[k].read || signedIn)
    ensures a.Remove? ==> forall n :: n in r <==> n in ns && n.id != a.id
    ensures a.ClearAll? ==> (r == [] <==> (signedIn && confirmed) || ns == [])
    ensures a.ClearAll? && !(signedIn && confirmed) ==> r == ns
  {
    match a
    case MarkOne(id) => Map(ns, Store.MarkRead(id))
    case MarkAll => if signedIn then Map(ns, SetRead) else ns
    case Remove(id) =>
      var r := Filter(ns, Store.NotId(id));
      assert forall k :: 0 <= k < |r| ==> Store.NotId(id)(r[k]);
      r
    case ClearAll => if signedIn && confirmed then [] else ns
  }

  /**
   * When the service call succeeds, the page's local list is what the store
   * now holds for the same records; when it fails the store keeps its rows
   * but the page still shows the change.
   */
  lemma LocalMatchesStore(ns: seq<Notification>, id: string)
    ensures Handle(ns, MarkOne(id), true, true) == Store.MarkAsRead(ns, id, false).0
    ensures Handle(ns, Remove(id), true, true) == Store.Delete(ns, id, false).0
    ensures HasUnread(ns, id) ==> Store.MarkAsRead(ns, id, true).0 != Handle(ns, MarkOne(id), true, true)
  {
    if HasUnread(ns, id) {
      var k :| 0 <= k < |ns| && ns[k].id == id && !ns[k].read;
      assert Handle(ns, MarkOne(id), true, true)[k].read;
    }
  }

  /** "Mark All as Read" is enabled iff something is unread. */
  function MarkAllEnabled(ns: seq<Notification>): (enabled: bool)
    ensures enabled <==> |Visible(ns, Unread)| > 0
  {
    SomeUnreadIffVisible(ns);
    exists k :: 0 <= k < |ns| && !ns[k].read
  }

  lemma SomeUnreadIffVisible(ns: seq<Notification>)
    ensures (exists k :: 0 <= k < |ns| && !ns[k].read) <==> |Visible(ns, Unread)| > 0
  {
    if exists k :: 0 <= k < |ns| && !ns[k].read {
      var k :| 0 <= k < |ns| && !ns[k].read;
      assert ns[k] in Visible(ns, Unread);
    } else {
      FilterNone(ns, IsUnread);
    }
  }

  /** "Clear All" is enabled iff the list is not empty. */
  function ClearEnabled(ns: seq<Notification>): (enabled: bool)
    ensures enabled <==> |Visible(ns, All)| > 0
  {
    |ns| > 0
  }

  /** After the signed-in user marks all read, nothing is unread and the button turns off. */
  lemma MarkAllDisablesItself(ns: seq<Notification>)
    ensures !MarkAllEnabled(Handle(ns, MarkAll, true, false))
    ensures Visible(Handle(ns, MarkAll, true, false), Read) == Handle(ns, MarkAll, true, false)
  {
    var r := Handle(ns, MarkAll, true, false);
    FilterAll(r, IsRead);
  }

  // The notification bell.

  datatype Bell = Bell(notifications: seq<Notification>, unreadCount: int)

  /** The counter agrees with the list. */
  predicate Consistent(b: Bell) {
    b.unreadCount == UnreadCount(b.notifications)
  }

  /** `fetchNotifications`: the list and the counter are both taken from the fetched records. */
  function Fetch(fetched: seq<Notification>): (b: Bell)
    ensures Consistent(b)
    ensures b.notifications == fetched
  {
    Bell(fetched, |Filter(fetched, IsUnread)|)
  }

  function FlooredDecrement(count: int): (r: int)
    ensures r >= 0
    ensures count > 0 ==> r == count - 1
    ensures count <= 0 ==> r == 0
  {
    if count - 1 > 0 then count - 1 else 0
  }

  /**
   * `markAsRead` as the bell implements it: the record is marked read and the
   * counter drops by one, floored at zero, whether or not that record was
   * unread or present at all.
   */
  function MarkAsReadAsWritten(b: Bell, id: string): (r: Bell)
    ensures r.unreadCount >= 0
    ensures r.notifications == Handle(b.notifications, MarkOne(id), true, true)
    ensures b.unreadCount > 0 ==> r.unreadCount == b.unreadCount - 1
  {
    Bell(Map(b.notifications, Store.MarkRead(id)), FlooredDecrement(b.unreadCount))
  }

  /**
   * Clicking a record that is already read (or gone) still lowers the
   * counter, which then shows one unread fewer than the list holds.
   */
  lemma {:induction false} MarkingReadRecordUndercounts(b: Bell, id: string)
    requires Consistent(b) && Store.DistinctIds(b.notifications)
    requires UnreadCount(b.notifications) > 0 && !HasUnread(b.notifications, id)
    ensures MarkAsReadAsWritten(b, id).unreadCount == UnreadCount(MarkAsReadAsWritten(b, id).notifications) - 1
    ensures !Consistent(MarkAsReadAsWritten(b, id))
  {
    UnreadAfterMark(b.notifications, id);
  }

  /** The counter drops only when the clicked record was unread. */
  function MarkAsRead(b: Bell, id: string): (r: Bell)
    ensures b.unreadCount >= 0 ==> r.unreadCount >= 0
    ensures r.notifications == Handle(b.notifications, MarkOne(id), true, true)
    ensures !HasUnread(b.notifications, id) ==> r.unreadCount == b.unreadCount
  {
    var count := if HasUnread(b.notifications, id) then FlooredDecrement(b.unreadCount) else b.unreadCount;
    Bell(Map(b.notifications, Store.MarkRead(id)), count)
  }

  /** With distinct ids, the corrected `markAsRead` keeps the counter in step with the list. */
  lemma MarkAsReadKeepsCount(b: Bell, id: string)
    requires Consistent(b) && Store.DistinctIds(b.notifications)
    ensures Consistent(MarkAsRead(b, id))
  {
    UnreadAfterMark(b.notifications, id);
  }

  /** Marking one id read removes exactly one unread record when one has that id, and none otherwise. */
  lemma {:induction false} UnreadAfterMark(ns: seq<Notification>, id: string)
    requires Store.DistinctIds(ns)
    ensures UnreadCount(Map(ns, Store.MarkRead(id))) + (if HasUnread(ns, id) then 1 else 0) == UnreadCount(ns)
  {
    if |ns| > 0 {
      var rest := ns[1..];
      MapCons(ns, Store.MarkRead(id));
      assert ns == [ns[0]] + rest;
      FilterCons(ns[0], rest, IsUnread);
      FilterCons(Store.MarkRead(id)(ns[0]), Map(rest, Store.MarkRead(id)), IsUnread);
      UnreadAfterMark(rest, id);
      HasUnreadCons(ns, id);
    }
  }

  lemma MapCons<T, U>(xs: seq<T>, f: T -> U)
    requires |xs| > 0
    ensures Map(xs, f) == [f(xs[0])] + Map(xs[1..], f)
  {
  }

  /** With distinct ids, an unread match lies either at the head or in the rest, never both. */
  lemma HasUnreadCons(ns: seq<Notification>, id: string)
    requires |ns| > 0 && Store.DistinctIds(ns)
    ensures Store.DistinctIds(ns[1..])
    ensures HasUnread(ns, id) <==> (ns[0].id == id && !ns[0].read) || HasUnread(ns[1..], id)
    ensures ns[0].id == id ==> !HasUnread(ns[1..], id)
  {
    var rest := ns[1..];
    if HasUnread(rest, id) {
      var k :| 0 <= k < |rest| && rest[k].id == id && !rest[k].read;
      assert ns[k + 1] == rest[k];
    }
    if HasUnread(ns, id) && !(ns[0].id == id && !ns[0].read) {
      var k :| 0 <= k < |ns| && ns[k].id == id && !ns[k].read;
      assert rest[k - 1] == ns[k];
    }
  }

  /** `markAllAsRead` (signed in): every record read and the counter at zero, which agrees with the list. */
  function MarkAllAsRead(b: Bell, signedIn: bool): (r: Bell)
    ensures signedIn ==> Consistent(r) && r.unreadCount == 0
    ensures !signedIn ==> r == b
    ensures r.notifications == Handle(b.notifications, MarkAll, signedIn, false)
  {
    if signedIn then
      var ns := Map(b.notifications, SetRead);
      FilterNone(ns, IsUnread);
      Bell(ns, 0)
    else b
  }

  /** The badge on the bell: hidden at zero, the count up to 99, then "99+". */
  function Badge(unreadCount: int): (r: Option<string>)
    ensures r.None? <==> unreadCount <= 0
    ensures unreadCount > 99 ==> r == Some("99+")
  {
    if unreadCount <= 0 then None
    else if unreadCount > 99 then Some("99+")
    else Some(NatToString(unreadCount))
  }

  /** Distinct counts up to 99 show distinct badges, none of them "99+". */
  lemma BadgeDistinguishes(a: int, b: int)
    requires 0 < a <= 99 && 0 < b <= 99 && a != b
    ensures Badge(a) != Badge(b)
    ensures Badge(a) != Some("99+")
  {
    if Badge(a) == Badge(b) {
      NatToStringInjective(a, b);
    }
    assert !IsDigit("99+"[2]);
  }

  /** "Mark all as read" in the bell is disabled exactly when the counter is zero. */
  function BellMarkAllEnabled(b: Bell): (enabled: bool)
    ensures Consistent(b) ==> (enabled <==> MarkAllEnabled(b.notifications))
  {
    b.unreadCount != 0
  }
}
