/**
 * The notifications endpoint: listing a page of the caller's notifications,
 * creating one, and marking one or all of them read.
 */
module NotificationsRoute {
  import opened Wrappers
  import opened Seqs
  import opened Sorting
  import Json
  import Store = NotificationStore
  import Batching

  const Kinds: set<string> := {"new_item", "price_drop", "system", "account"}
  const DefaultPage: int := 1
  const DefaultLimit: int := 20

  /** `.range(from, to)`: the inclusive slots of page `page` when pages hold `limit` rows. */
  function Range(page: int, limit: int): (r: (int, int))
    ensures r.1 - r.0 + 1 == limit
  {
    ((page - 1) * limit, page * limit - 1)
  }

  /** Consecutive pages meet: the next page starts right after this one ends. */
  lemma PagesAdjacent(page: int, limit: int)
    ensures Range(page + 1, limit).0 == Range(page, limit).1 + 1
  {
  }

  /** With positive pages, slot `k` lies on page `k / limit + 1` and on no other. */
  lemma SlotOnOnePage(k: nat, limit: int, page: int)
    requires limit > 0
    ensures Range(k / limit + 1, limit).0 <= k <= Range(k / limit + 1, limit).1
    ensures Range(page, limit).0 <= k <= Range(page, limit).1 ==> page == k / limit + 1
  {
    var q := k / limit;
    assert k == q * limit + k % limit;
    assert (q + 1) * limit == q * limit + limit;
    if Range(page, limit).0 <= k <= Range(page, limit).1 {
      assert page * limit == (page - 1) * limit + limit;
      Batching.DivFromBounds(k, limit, page - 1);
    }
  }

  /**
   * The rows a range query returns: the store refuses a negative offset or a
   * negative row count; a window past the end is empty.
   */
  function Window<T>(xs: seq<T>, from: int, to: int): (r: Result<seq<T>>)
    ensures r.Success? <==> from >= 0 && to - from + 1 >= 0
    ensures r.Success? ==> |r.value| <= to - from + 1
    ensures r.Success? ==> forall i :: 0 <= i < |r.value| ==> from + i < |xs| && r.value[i] == xs[from + i]
    ensures r.Success? && to < |xs| ==> |r.value| == to - from + 1
    ensures r.Success? && from < |xs| <= to ==> |r.value| == |xs| - from
  {
    if from < 0 || to - from + 1 < 0 then Failure("Requested range not satisfiable")
    else if from >= |xs| then Success([])
    else if to + 1 < |xs| then Success(xs[from..to + 1])
    else Success(xs[from..])
  }

  /** A window of a sequence sorted newest first is itself sorted, and holds only elements of it. */
  lemma WindowOfSorted<T>(xs: seq<T>, from: int, to: int, key: T -> real)
    requires Window(xs, from, to).Success?
    ensures forall x :: x in Window(xs, from, to).value ==> x in xs
    ensures SortedDesc(xs, key) ==> SortedDesc(Window(xs, from, to).value, key)
  {
    var rows := Window(xs, from, to).value;
    assert forall i :: 0 <= i < |rows| ==> rows[i] == xs[from + i];
  }

  /** `Math.ceil(total / limit)`; `None` when the quotient is not finite (a zero limit). */
  function TotalPages(total: nat, limit: int): (r: Option<int>)
    ensures r.None? <==> limit == 0
    ensures limit > 0 ==> r.value >= 0 && (r.value - 1) * limit < total <= r.value * limit
    ensures limit > 0 && total == 0 ==> r.value == 0
  {
    if limit == 0 then None
    else if limit > 0 then
      var q := (total + limit - 1) / limit;
      assert total + limit - 1 == q * limit + (total + limit - 1) % limit;
      Some(q)
    else Some(-(total / -limit))
  }

  function CreatedAt(n: Store.Notification): real {
    n.createdAt as real
  }

  /** The rows the list query selects before paging. */
  predicate Selected(userId: string, unreadOnly: bool, kind: Option<string>, n: Store.Notification) {
    n.userId == userId && (!unreadOnly || !n.read) && (kind.None? || kind.value == "" || n.kind == kind.value)
  }

  function SelectedBy(userId: string, unreadOnly: bool, kind: Option<string>): Store.Notification -> bool {
    (n: Store.Notification) => Selected(userId, unreadOnly, kind, n)
  }

  /** The selected notifications, newest first: what the list query pages through. */
  function Selection(t: seq<Store.Notification>, userId: string, params: ListParams): seq<Store.Notification> {
    SortDesc(Filter(t, SelectedBy(userId, params.unreadOnly == Some("true"), params.kind)), CreatedAt)
  }

  datatype ListParams = ListParams(page: Option<int>, limit: Option<int>, unreadOnly: Option<string>, kind: Option<string>)

  datatype Response =
    | Listed(notifications: seq<Store.Notification>, page: int, limit: int, total: nat, totalPages: Option<int>)
    | CreatedOne(notification: Store.Notification)
    | Updated(notification: Store.Notification)
    | AllRead
    | Error(status: nat, message: string)

  /**
   * `GET`: one page of the selected notifications, newest first. The total
   * counts all of the caller's notifications, whatever the filters.
   */
  function List(user: Option<string>, params: ListParams, t: seq<Store.Notification>, countFails: bool): (r: Response)
    ensures user.None? ==> r == Error(401, "Unauthorized")
    ensures r.Listed? ==> r.total == if countFails then 0 else Count(t, Store.OwnedBy(user.value))
    ensures r.Listed? ==> |r.notifications| <= r.limit
    ensures r.Listed? ==> forall i :: 0 <= i < |r.notifications| ==> r.notifications[i] in t && Selected(user.value, params.unreadOnly == Some("true"), params.kind, r.notifications[i])
    ensures r.Listed? ==> SortedDesc(r.notifications, CreatedAt)
    ensures user.Some? && params.page.None? && params.limit.None? ==> r.Listed? && r.page == 1 && r.limit == 20
  {
    if user.None? then Error(401, "Unauthorized")
    else
      var page := params.page.GetOr(DefaultPage);
      var limit := params.limit.GetOr(DefaultLimit);
      var sorted := Selection(t, user.value, params);
      var (from, to) := Range(page, limit);
      match Window(sorted, from, to)
      case Failure(_) => Error(500, "Failed to fetch notifications")
      case Success(rows) =>
        PageRows(t, user.value, params, from, to);
        var total := if countFails then 0 else Count(t, Store.OwnedBy(user.value));
        Listed(rows, page, limit, total, TotalPages(total, limit))
  }

  lemma PageRows(t: seq<Store.Notification>, userId: string, params: ListParams, from: int, to: int)
    requires Window(SortDesc(Filter(t, SelectedBy(userId, params.unreadOnly == Some("true"), params.kind)), CreatedAt), from, to).Success?
    ensures var rows := Window(SortDesc(Filter(t, SelectedBy(userId, params.unreadOnly == Some("true"), params.kind)), CreatedAt), from, to).value;
      SortedDesc(rows, CreatedAt) &&
      forall i :: 0 <= i < |rows| ==> rows[i] in t && Selected(userId, params.unreadOnly == Some("true"), params.kind, rows[i])
  {
    var p := SelectedBy(userId, params.unreadOnly == Some("true"), params.kind);
    var selected := Filter(t, p);
    var sorted := SortDesc(selected, CreatedAt);
    var rows := Window(sorted, from, to).value;
    WindowOfSorted(sorted, from, to, CreatedAt);
    SortDescMembers(selected, CreatedAt);
    forall i | 0 <= i < |rows|
      ensures rows[i] in t && Selected(userId, params.unreadOnly == Some("true"), params.kind, rows[i])
    {
      assert rows[i] in sorted;
      FilterMember(t, p, rows[i]);
    }
  }

  /** `rows` are the consecutive elements of `xs` from slot `from` on. */
  ghost predicate SliceAt<T>(rows: seq<T>, xs: seq<T>, from: int) {
    forall i :: 0 <= i < |rows| ==> 0 <= from + i < |xs| && rows[i] == xs[from + i]
  }

  /** A window of `limit` slots from `from`: `limit` elements when that many follow, the rest otherwise. */
  lemma WindowSlice<T>(xs: seq<T>, from: int, limit: int)
    requires Window(xs, from, from + limit - 1).Success?
    ensures var rows := Window(xs, from, from + limit - 1).value;
      |rows| == (if from >= |xs| then 0 else if from + limit <= |xs| then limit else |xs| - from) &&
      SliceAt(rows, xs, from)
  {
  }

  /**
   * The page listed is the slice of the selected notifications, newest
   * first, that starts at slot `(page - 1) * limit`: `limit` rows when that
   * many follow, the rest of them otherwise. The listing fails exactly for a
   * negative offset or limit.
   */
  lemma ListIsPage(userId: string, params: ListParams, t: seq<Store.Notification>, countFails: bool)
    ensures var sorted := Selection(t, userId, params);
      var page := params.page.GetOr(DefaultPage);
      var limit := params.limit.GetOr(DefaultLimit);
      var from := Range(page, limit).0;
      var r := List(Some(userId), params, t, countFails);
      (r.Listed? <==> from >= 0 && limit >= 0) &&
      (r.Listed? ==>
        |r.notifications| == (if from >= |sorted| then 0 else if from + limit <= |sorted| then limit else |sorted| - from) &&
        SliceAt(r.notifications, sorted, from))
  {
    var page := params.page.GetOr(DefaultPage);
    var limit := params.limit.GetOr(DefaultLimit);
    var range := Range(page, limit);
    assert range.1 == range.0 + limit - 1;
    ListRows(userId, params, t, countFails);
    if Window(Selection(t, userId, params), range.0, range.1).Success? {
      WindowSlice(Selection(t, userId, params), range.0, limit);
    }
  }

  /** The rows listed are the window of the selection that `Range` names. */
  lemma ListRows(userId: string, params: ListParams, t: seq<Store.Notification>, countFails: bool)
    ensures var range := Range(params.page.GetOr(DefaultPage), params.limit.GetOr(DefaultLimit));
      var w := Window(Selection(t, userId, params), range.0, range.1);
      var r := List(Some(userId), params, t, countFails);
      (r.Listed? <==> w.Success?) && (r.Listed? ==> r.notifications == w.value)
  {
  }

  const DataFields: set<string> := {"item_id", "search_id", "price", "old_price", "title", "url", "marketplace", "relevance_score"}
  const NumberFields: set<string> := {"price", "old_price", "relevance_score"}

  /** The `data` object: each known field absent or of its type; unknown fields pass and are dropped. */
  predicate ValidData(v: Option<Json.Value>) {
    v.None? || (v.value.Obj? &&
      forall k :: k in v.value.fields && k in DataFields ==>
        if k in NumberFields then v.value.fields[k].Num? else v.value.fields[k].Str?)
  }

  function StripData(v: Option<Json.Value>): (r: Option<Json.Value>)
    requires ValidData(v)
    ensures v.None? <==> r.None?
    ensures r.Some? ==> r.value.Obj? && r.value.fields.Keys <= DataFields
    ensures r.Some? ==> forall k :: k in r.value.fields ==> k in v.value.fields && r.value.fields[k] == v.value.fields[k]
    ensures r.Some? ==> forall k :: k in v.value.fields && k in DataFields ==> k in r.value.fields
  {
    if v.None? then None
    else Some(Json.Obj(map k | k in v.value.fields && k in DataFields :: v.value.fields[k]))
  }

  /** A valid create body: a known kind, a message of 1 to 500 characters and optional data. */
  predicate ValidCreate(body: Json.Value) {
    body.Obj?
    && Json.StringOf(Json.Field(body.fields, "type")).Some? && Json.StringOf(Json.Field(body.fields, "type")).value in Kinds
    && Json.StringOf(Json.Field(body.fields, "message")).Some? && 1 <= |Json.StringOf(Json.Field(body.fields, "message")).value| <= 500
    && ValidData(Json.Field(body.fields, "data"))
  }

  /**
   * `POST`: an unread notification of the caller with the body's kind,
   * message and data. The store assigns `newId` and stamps `now`.
   */
  function CreateOne(user: Option<string>, body: Option<Json.Value>, t: seq<Store.Notification>, newId: string, now: int, fails: bool)
    : (r: (Response, seq<Store.Notification>))
    ensures user.None? ==> r.0 == Error(401, "Unauthorized")
    ensures user.Some? && body.None? ==> r.0 == Error(500, "Internal server error")
    ensures user.Some? && body.Some? && !ValidCreate(body.value) ==> r.0 == Error(400, "Validation error")
    ensures r.0.CreatedOne? ==> r.0.notification.userId == user.value && !r.0.notification.read
    ensures r.0.CreatedOne? ==> r.0.notification.kind in Kinds && 1 <= |r.0.notification.message| <= 500
    ensures r.0.CreatedOne? ==> r.1 == t + [r.0.notification]
    ensures r.0.CreatedOne? ==> body.Some? && ValidCreate(body.value)
    ensures r.0.CreatedOne? && body.Some? && ValidCreate(body.value) ==>
      r.0.notification.data == StripData(Json.Field(body.value.fields, "data"))
    ensures user.Some? && body.Some? && ValidCreate(body.value) && !fails && !Store.HasId(t, newId) ==> r.0.CreatedOne?
    ensures !r.0.CreatedOne? ==> r.1 == t
  {
    if user.None? then (Error(401, "Unauthorized"), t)
    else if body.None? then (Error(500, "Internal server error"), t)
    else if !ValidCreate(body.value) then (Error(400, "Validation error"), t)
    else
      var f := body.value.fields;
      var (t', res) := Store.Create(t, user.value, f["type"].s, f["message"].s, StripData(Json.Field(f, "data")), newId, now, fails);
      if res.Failure? then (Error(500, "Failed to create notification"), t)
      else (CreatedOne(t'[|t'| - 1]), t')
  }

  /** `UpdateNotificationSchema`: an object whose `read`, if present, is a boolean. */
  predicate ValidUpdate(body: Json.Value) {
    body.Obj? && Json.OptionalBool(Json.Field(body.fields, "read"))
  }

  function Owned(userId: string, id: string): Store.Notification -> bool {
    (n: Store.Notification) => n.id == id && n.userId == userId
  }

  /** The update of one record: it must match both the id and the caller. */
  function SetRead(userId: string, id: string, read: Option<Json.Value>): Store.Notification -> Store.Notification {
    (n: Store.Notification) => if n.id == id && n.userId == userId && read.Some? && read.value.Bool? then n.(read := read.value.b) else n
  }

  /**
   * `PATCH`: with `mark_all_read=true` marks all of the caller's unread
   * notifications read; otherwise updates the notification with the given
   * id, which must belong to the caller. The body is validated first in
   * both cases.
   */
  function Patch(user: Option<string>, id: Option<string>, markAll: Option<string>, body: Option<Json.Value>,
                 t: seq<Store.Notification>, fails: bool)
    : (r: (Response, seq<Store.Notification>))
    ensures user.None? ==> r.0 == Error(401, "Unauthorized")
    ensures user.Some? && body.None? ==> r.0 == Error(500, "Internal server error")
    ensures user.Some? && body.Some? && !ValidUpdate(body.value) ==> r.0 == Error(400, "Validation error")
    ensures (user.Some? && body.Some? && ValidUpdate(body.value) && markAll != Some("true") && id.Some? && id.value != "" &&
             Count(t, Owned(user.value, id.value)) != 1) ==>
      r.0 == Error(500, "Failed to update notification")
    ensures user.Some? && body.Some? && ValidUpdate(body.value) && markAll != Some("true") && (id.None? || id.value == "") ==>
      r.0 == Error(400, "Notification ID required")
    ensures user.Some? && body.Some? && ValidUpdate(body.value) && markAll == Some("true") && !fails ==>
      r.0 == AllRead && r.1 == Store.MarkAllAsRead(t, user.value, false).0
    ensures r.0.Updated? ==> r.0.notification.userId == user.value && id == Some(r.0.notification.id) && |r.1| == |t|
    ensures r.0.Updated? ==> forall i :: 0 <= i < |t| && !Owned(user.value, id.value)(t[i]) ==> r.1[i] == t[i]
    ensures r.0.Updated? ==> body.Some? && ValidUpdate(body.value)
    ensures r.0.Updated? && body.Some? && Json.Field(body.value.fields, "read").Some? ==>
      r.0.notification.read == Json.Field(body.value.fields, "read").value.b
    ensures r.0.Error? ==> r.1 == t
  {
    if user.None? then (Error(401, "Unauthorized"), t)
    else if body.None? then (Error(500, "Internal server error"), t)
    else if !ValidUpdate(body.value) then (Error(400, "Validation error"), t)
    else if markAll == Some("true") then
      var (t', ack) := Store.MarkAllAsRead(t, user.value, fails);
      if ack.Err? then (Error(500, "Failed to update notifications"), t) else (AllRead, t')
    else if id.None? || id.value == "" then (Error(400, "Notification ID required"), t)
    else if fails || Count(t, Owned(user.value, id.value)) != 1 then (Error(500, "Failed to update notification"), t)
    else
      var t' := Map(t, SetRead(user.value, id.value, Json.Field(body.value.fields, "read")));
      var hit := Filter(t', Owned(user.value, id.value));
      if |hit| == 0 then (Error(500, "Failed to update notification"), t)
      else
        assert Owned(user.value, id.value)(hit[0]);
        (Updated(hit[0]), t')
  }
}
