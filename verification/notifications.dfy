/**
 * backend/routes/notifications.js: a parent's unread attendance
 * notifications and marking one as read.
 */
module Notifications {
  import opened Wrappers
  import opened Domain
  import opened Query
  import opened Store
  import opened Auth

  predicate UnreadFor(parentId: Id, n: Notification) {
    n.parentId == parentId && !n.isRead
  }

  /** Sort key for `.sort({createdAt: -1})`. */
  function NewestFirst(n: Notification): int {
    -n.createdAt
  }

  function UnreadOf(ns: seq<Notification>, parentId: Id): (r: seq<Notification>)
    ensures forall n :: n in r <==> n in ns && UnreadFor(parentId, n)
  {
    Filter(ns, (n: Notification) => UnreadFor(parentId, n))
  }

  /** `GET /notifications` (parents): the caller's unread notifications, newest first. */
  function ListNotifications(ns: seq<Notification>, caller: User): (r: seq<Notification>)
    ensures SortedBy(r, NewestFirst)
    ensures multiset(r) == multiset(UnreadOf(ns, caller.id))
    ensures forall n :: n in r <==> n in ns && UnreadFor(caller.id, n)
  {
    var sorted := SortBy(UnreadOf(ns, caller.id), NewestFirst);
    assert forall n :: n in sorted <==> n in multiset(sorted);
    sorted
  }

  /** `findOneAndUpdate({_id: id, parentId}, {isRead: true})`: the new list and the updated notification. */
  function MarkReadIn(ns: seq<Notification>, id: Id, parentId: Id): (r: (seq<Notification>, Option<Notification>))
    ensures |r.0| == |ns|
    ensures r.1.None? <==> forall j :: 0 <= j < |ns| ==> !(ns[j].id == id && ns[j].parentId == parentId)
    ensures r.1.None? ==> r.0 == ns
    ensures r.1.Some? ==>
      exists k :: 0 <= k < |ns| && ns[k].id == id && ns[k].parentId == parentId
        && r.1.value == ns[k].(isRead := true) && r.0 == ns[k := r.1.value]
  {
    var k := FindFirst(ns, (n: Notification) => n.id == id && n.parentId == parentId);
    if k < 0 then (ns, None)
    else
      var n := ns[k].(isRead := true);
      (ns[k := n], Some(n))
  }

  /** Marking the same notification read twice changes nothing the second time. */
  lemma {:induction false} MarkReadIdempotent(ns: seq<Notification>, id: Id, parentId: Id)
    ensures MarkReadIn(MarkReadIn(ns, id, parentId).0, id, parentId).0 == MarkReadIn(ns, id, parentId).0
  {
    var r := MarkReadIn(ns, id, parentId);
    if r.1.Some? {
      var k := FindFirst(ns, (n: Notification) => n.id == id && n.parentId == parentId);
      var k2 := FindFirst(r.0, (n: Notification) => n.id == id && n.parentId == parentId);
      assert r.0[k].id == id && r.0[k].parentId == parentId;
      assert k2 == k by {
        forall j | 0 <= j < k ensures !(r.0[j].id == id && r.0[j].parentId == parentId) {
          assert r.0[j] == ns[j];
        }
      }
    }
  }

  /** Once read, a notification no longer appears in the parent's unread list. */
  lemma ReadNotificationLeavesList(ns: seq<Notification>, id: Id, caller: User)
    requires MarkReadIn(ns, id, caller.id).1.Some?
    ensures MarkReadIn(ns, id, caller.id).1.value !in ListNotifications(MarkReadIn(ns, id, caller.id).0, caller)
  {
  }

  /** `PATCH /notifications/:id/mark-read` (parents): only the caller's own notification. */
  method MarkRead(db: Db, caller: User, id: Id) returns (r: Outcome<Notification>)
    requires db.Valid() && Admitted(caller, [Parent])
    modifies db`notifications
    ensures db.Valid()
    ensures db.notifications == MarkReadIn(old(db.notifications), id, caller.id).0
    ensures MarkReadIn(old(db.notifications), id, caller.id).1.None? ==> r == NotFound("Notification not found")
    ensures MarkReadIn(old(db.notifications), id, caller.id).1.Some? ==>
      r == Ok(MarkReadIn(old(db.notifications), id, caller.id).1.value)
  {
    var o := MarkReadIn(db.notifications, id, caller.id);
    if o.1.None? {
      return NotFound("Notification not found");
    }
    var k :| 0 <= k < |db.notifications| && db.notifications[k].id == id && db.notifications[k].parentId == caller.id
      && o.1.value == db.notifications[k].(isRead := true) && o.0 == db.notifications[k := o.1.value];
    forall n | n in o.0 ensures HasRecord(db.records, n.attendanceId) {
      var j :| 0 <= j < |o.0| && o.0[j] == n;
      assert n.attendanceId == db.notifications[j].attendanceId;
      assert db.notifications[j] in db.notifications;
    }
    db.notifications := o.0;
    r := Ok(o.1.value);
  }
}
