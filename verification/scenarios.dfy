/**
  Scenarios from the backend's test suite, stated for all inputs: a
  notification scheduled in the future is listed as future and not as ready,
  and paging pending notifications one at a time returns them in creation order.
 */
module Scenarios {
  import opened Notifications
  import opened Ordering
  import opened Paging
  import opened Queries
  import opened Backend

  /**
    A notification persisted with `send_after` after `now`, whenever it was
    created, is future and not ready at `now`.
   */
  lemma FutureScheduledIsNotReady(s: Store, createdAt: Timestamp, now: Timestamp, args: NewNotification)
    requires args.sendAfter.Some? && args.sendAfter.value > now
    ensures var p := PersistNotification(s, createdAt, args);
      && p.result.value !in GetAllPendingNotifications(p.store, now)
      && p.result.value in GetAllFutureNotifications(p.store, now)
  {
    var p := PersistNotification(s, createdAt, args);
    var id := p.result.value.id;
    ListedIffMatches(p.store, ReadyAt(now), id);
    ListedIffMatches(p.store, FutureAt(now), id);
  }

  /**
    Three notifications persisted in order into an empty table, the third then
    marked as sent: page 1 and page 2 of size 1 of the pending notifications
    are the first and the second, as `persist_notification` returned them.
   */
  lemma PendingPagesFollowCreationOrder(
    t1: Timestamp, t2: Timestamp, t3: Timestamp,
    a1: NewNotification, a2: NewNotification, a3: NewNotification)
    requires t1 < t2 < t3
    ensures
      var p1 := PersistNotification(Store([]), t1, a1);
      var p2 := PersistNotification(p1.store, t2, a2);
      var p3 := PersistNotification(p2.store, t3, a3);
      var sent := MarkPendingAsSent(p3.store, p3.result.value.id);
      && sent.result.Success?
      && GetPendingNotifications(sent.store, 1, 1) == [p1.result.value]
      && GetPendingNotifications(sent.store, 2, 1) == [p2.result.value]
  {
    var p1 := PersistNotification(Store([]), t1, a1);
    var p2 := PersistNotification(p1.store, t2, a2);
    var p3 := PersistNotification(p2.store, t3, a3);
    var sent := MarkPendingAsSent(p3.store, p3.result.value.id);
    var s := sent.store;
    assert |s.rows| == 3;
    assert s.rows[0] == p3.store.rows[0] == p2.store.rows[0] == p1.store.rows[0];
    assert s.rows[1] == p3.store.rows[1] == p2.store.rows[1];
    assert s.rows[2].status == Sent;
    TwoMatchesListedInOrder(s, Pending, 0, 1);
    var all := List(s, Pending);
    assert Page(all, 1, 1) == Slice(all, 0, 1) == [all[0]];
    assert Page(all, 2, 1) == Slice(all, 1, 1) == [all[1]];
  }
}
