/**
 * The notification service: the `notifications` table as a sequence of
 * records with distinct ids, and the service's reads and writes over it.
 * Every write reports `{ success, error }` instead of throwing; a failing
 * store call (the `fails` parameter) leaves the table unchanged.
 */
module NotificationStore {
  import opened Wrappers
  import opened Seqs
  import opened Sorting
  import Json

  datatype Notification = Notification(
    id: string,
    userId: string,
    kind: string,
    message: string,
    data: Option<Json.Value>,
    read: bool,
    createdAt: int)

  predicate DistinctIds(t: seq<Notification>) {
    forall i, j :: 0 <= i < j < |t| ==> t[i].id != t[j].id
  }

  predicate HasId(t: seq<Notification>, id: string) {
    exists i :: 0 <= i < |t| && t[i].id == id
  }

  /** `{ success: true }` or `{ success: false, error }`. */
  datatype Ack = Ok | Err(error: string)

  const DefaultLimit: int := 20

  function CreatedAt(n: Notification): real {
    n.createdAt as real
  }

  function OwnedBy(userId: string): Notification -> bool {
    (n: Notification) => n.userId == userId
  }

  /** `getNotifications`: the user's newest `limit` records, or none on error. */
  function GetNotifications(t: seq<Notification>, userId: string, limit: int, fails: bool): (r: seq<Notification>)
    ensures fails ==> r == []
    ensures |r| <= if limit < 0 then 0 else limit
    ensures forall i :: 0 <= i < |r| ==> r[i].userId == userId && r[i] in t
    ensures SortedDesc(r, CreatedAt)
  {
    if fails then []
    else
      OwnedMembers(t, userId);
      Newest(Filter(t, OwnedBy(userId)), CreatedAt, limit)
  }

  /** The records kept by `.eq('user_id', userId)` are the user's records of the table. */
  lemma OwnedMembers(t: seq<Notification>, userId: string)
    ensures forall x :: x in Filter(t, OwnedBy(userId)) <==> x in t && x.userId == userId
  {
    var mine := Filter(t, OwnedBy(userId));
    forall x | x in mine ensures x.userId == userId && x in t {
      var i :| 0 <= i < |mine| && mine[i] == x;
      assert OwnedBy(userId)(mine[i]);
    }
    forall x | x in t && x.userId == userId ensures x in mine {
      var i :| 0 <= i < |t| && t[i] == x;
      assert OwnedBy(userId)(t[i]);
    }
  }

  /** Every user's record is returned when the limit allows. */
  lemma GetNotificationsComplete(t: seq<Notification>, userId: string, limit: int, n: Notification)
    requires n in t && n.userId == userId
    requires limit >= |t|
    ensures n in GetNotifications(t, userId, limit, false)
  {
    var mine := Filter(t, OwnedBy(userId));
    OwnedMembers(t, userId);
    assert n in multiset(mine);
  }

  /** The answer holds `limit` of the user's records, or all of them when there are fewer. */
  lemma GetNotificationsSize(t: seq<Notification>, userId: string, limit: int)
    ensures var mine := Filter(t, OwnedBy(userId));
      |GetNotifications(t, userId, limit, false)| == if limit < 0 then 0 else if limit < |mine| then limit else |mine|
  {
  }

  /** A record of the user left out by the limit is no newer than any record returned: these are the newest `limit`. */
  lemma GetNotificationsNewest(t: seq<Notification>, userId: string, limit: int, n: Notification)
    requires n in t && n.userId == userId && n !in GetNotifications(t, userId, limit, false)
    ensures forall i :: 0 <= i < |GetNotifications(t, userId, limit, false)| ==>
      GetNotifications(t, userId, limit, false)[i].createdAt >= n.createdAt
  {
    OwnedMembers(t, userId);
    NewestAreNewest(Filter(t, OwnedBy(userId)), CreatedAt, limit, n);
  }

  /**
   * `createNotification`: adds one unread record stamped `now`. The store
   * assigns `newId`; an id already taken is refused like any insert error.
   */
  function Create(t: seq<Notification>, userId: string, kind: string, message: string, data: Option<Json.Value>,
                  newId: string, now: int, fails: bool): (r: (seq<Notification>, Result<string>))
    ensures r.1.Success? <==> !fails && !HasId(t, newId)
    ensures r.1.Success? ==> r.1.value == newId && r.0 == t + [Notification(newId, userId, kind, message, data, false, now)]
    ensures r.1.Failure? ==> r.0 == t
    ensures DistinctIds(t) ==> DistinctIds(r.0)
  {
    if fails || HasId(t, newId) then (t, Failure("insert failed"))
    else (t + [Notification(newId, userId, kind, message, data, false, now)], Success(newId))
  }

  function MarkRead(id: string): Notification -> Notification {
    (n: Notification) => if n.id == id then n.(read := true) else n
  }

  /** `markAsRead(id)`: marks that record read, whoever owns it; an unknown id changes nothing. */
  function MarkAsRead(t: seq<Notification>, id: string, fails: bool): (r: (seq<Notification>, Ack))
    ensures fails <==> r.1.Err?
    ensures fails ==> r.0 == t
    ensures |r.0| == |t|
    ensures forall i :: 0 <= i < |t| ==> r.0[i] == if t[i].id == id && !fails then t[i].(read := true) else t[i]
  {
    if fails then (t, Err("update failed")) else (Map(t, MarkRead(id)), Ok)
  }

  function MarkOwnRead(userId: string): Notification -> Notification {
    (n: Notification) => if n.userId == userId && !n.read then n.(read := true) else n
  }

  /** `markAllAsRead(user)`: every unread record of the user becomes read; nothing else changes. */
  function MarkAllAsRead(t: seq<Notification>, userId: string, fails: bool): (r: (seq<Notification>, Ack))
    ensures fails <==> r.1.Err?
    ensures fails ==> r.0 == t
    ensures |r.0| == |t|
    ensures !fails ==> forall i :: 0 <= i < |t| ==>
      (if t[i].userId == userId then r.0[i] == t[i].(read := true) else r.0[i] == t[i])
  {
    if fails then (t, Err("update failed")) else (Map(t, MarkOwnRead(userId)), Ok)
  }

  function UnreadOf(t: seq<Notification>, userId: string): nat {
    |Filter(t, (n: Notification) => n.userId == userId && !n.read)|
  }

  /** Marking all read twice is the same as once, and leaves the user nothing unread. */
  lemma MarkAllAsReadIdempotent(t: seq<Notification>, userId: string)
    ensures MarkAllAsRead(MarkAllAsRead(t, userId, false).0, userId, false).0 == MarkAllAsRead(t, userId, false).0
    ensures UnreadOf(MarkAllAsRead(t, userId, false).0, userId) == 0
  {
    var once := MarkAllAsRead(t, userId, false).0;
    var twice := MarkAllAsRead(once, userId, false).0;
    assert forall i :: 0 <= i < |t| ==> twice[i] == once[i];
    FilterNone(once, (n: Notification) => n.userId == userId && !n.read);
  }

  function NotId(id: string): Notification -> bool {
    (n: Notification) => n.id != id
  }

  /** `deleteNotification(id)`: removes exactly the record with that id. */
  function Delete(t: seq<Notification>, id: string, fails: bool): (r: (seq<Notification>, Ack))
    ensures fails <==> r.1.Err?
    ensures fails ==> r.0 == t
    ensures !fails ==> !HasId(r.0, id)
    ensures !fails ==> forall n :: n in t && n.id != id ==> n in r.0
    ensures forall n :: n in r.0 ==> n in t
  {
    if fails then (t, Err("delete failed"))
    else
      var r := Filter(t, NotId(id));
      assert forall i :: 0 <= i < |r| ==> NotId(id)(r[i]);
      (r, Ok)
  }

  function NotOwnedBy(userId: string): Notification -> bool {
    (n: Notification) => n.userId != userId
  }

  /** `deleteAllNotifications(user)`: removes all of that user's records and no others. */
  function DeleteAll(t: seq<Notification>, userId: string, fails: bool): (r: (seq<Notification>, Ack))
    ensures fails <==> r.1.Err?
    ensures fails ==> r.0 == t
    ensures !fails ==> forall i :: 0 <= i < |r.0| ==> r.0[i].userId != userId
    ensures !fails ==> forall n :: n in t && n.userId != userId ==> n in r.0
    ensures forall n :: n in r.0 ==> n in t
  {
    if fails then (t, Err("delete failed"))
    else
      var r := Filter(t, NotOwnedBy(userId));
      assert forall i :: 0 <= i < |r| ==> NotOwnedBy(userId)(r[i]);
      (r, Ok)
  }

  /** Deleting a record just created gives back the table as it was. */
  lemma CreateThenDelete(t: seq<Notification>, userId: string, kind: string, message: string, data: Option<Json.Value>, newId: string, now: int)
    requires DistinctIds(t) && !HasId(t, newId)
    ensures Delete(Create(t, userId, kind, message, data, newId, now, false).0, newId, false).0 == t
  {
    var n := Notification(newId, userId, kind, message, data, false, now);
    FilterConcat(t, [n], NotId(newId));
    FilterAll(t, NotId(newId));
    FilterCons(n, [], NotId(newId));
  }
}
