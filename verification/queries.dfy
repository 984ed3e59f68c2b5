/**
  The backend's read side: row filters, the `created`-ordered listings they
  produce, and the paged and unpaged query operations built on them. None of
  these change the store; `now` stands for `datetime.datetime.now()`.
 */
module Queries {
  import opened Notifications
  import opened Ordering
  import opened Paging

  /** The WHERE clauses of the listing queries. */
  datatype Filter =
    | ReadyAt(now: Timestamp)                       // get_all_pending_notifications
    | Pending                                       // get_pending_notifications
    | FutureAt(now: Timestamp)                      // _get_all_future_notifications_query
    | FutureOfUserAt(now: Timestamp, user: UserId)  // _get_all_future_notifications_from_user_query
    | InAppUnreadOf(user: UserId)                   // _get_all_in_app_unread_notifications_query

  /**
    Whether a row satisfies a filter. A comparison with a NULL `send_after` is
    never true in SQL, so a row without `send_after` is never in the future.
   */
  predicate Matches(f: Filter, row: Row)
    ensures Matches(f, row) ==> row.status == (if f.InAppUnreadOf? then Sent else PendingSend)
    ensures Matches(f, row) && (f.FutureOfUserAt? || f.InAppUnreadOf?) ==> row.userId == f.user
    ensures Matches(f, row) && (f.FutureAt? || f.FutureOfUserAt?) ==> row.sendAfter.Some? && row.sendAfter.value > f.now
    ensures Matches(f, row) && f.ReadyAt? ==> row.sendAfter.None? || row.sendAfter.value <= f.now
  {
    match f
    case ReadyAt(now) =>
      row.status == PendingSend && (row.sendAfter.None? || row.sendAfter.value <= now)
    case Pending =>
      row.status == PendingSend
    case FutureAt(now) =>
      row.status == PendingSend && row.sendAfter.Some? && row.sendAfter.value > now
    case FutureOfUserAt(now, user) =>
      row.status == PendingSend && row.sendAfter.Some? && row.sendAfter.value > now
      && row.userId == user
    case InAppUnreadOf(user) =>
      row.userId == user && row.status == Sent && row.notificationType == InApp
  }

  predicate Increasing(ids: seq<nat>) {
    forall i, j :: 0 <= i < j < |ids| ==> ids[i] < ids[j]
  }

  /** The ids below `n` whose rows match `f`, in key order (the table scan). */
  function MatchingIds(rows: seq<Row>, f: Filter, n: nat): (r: seq<nat>)
    requires n <= |rows|
    ensures AllValid(rows, r)
    ensures forall id: nat :: id in r <==> id < n && Matches(f, rows[id])
    ensures forall i :: 0 <= i < |r| ==> r[i] < n
    ensures Increasing(r)
  {
    if n == 0 then []
    else
      var prefix := MatchingIds(rows, f, n - 1);
      if Matches(f, rows[n - 1]) then prefix + [n - 1] else prefix
  }

  /** The ids a filter selects, ordered by `created`. */
  function Select(s: Store, f: Filter): (ids: seq<nat>)
    ensures AllValid(s.rows, ids)
    ensures forall id: nat :: id in ids <==> id < |s.rows| && Matches(f, s.rows[id])
    ensures Distinct(ids)
    ensures SortedByCreated(s.rows, ids)
  {
    var scanned := MatchingIds(s.rows, f, |s.rows|);
    SortByCreatedCorrect(s.rows, scanned);
    SortByCreated(s.rows, scanned)
  }

  /**
    `r` is a listing of `f` over `s`: each matching row appears exactly once,
    serialized under its id, and nothing else appears, in `created` order.
   */
  predicate IsListing(s: Store, f: Filter, r: seq<Notification>) {
    && (forall i :: 0 <= i < |r| ==>
          ValidId(s, r[i].id) && Matches(f, s.rows[r[i].id]) && r[i] == Serialize(r[i].id, s.rows[r[i].id]))
    && (forall id :: 0 <= id < |s.rows| && Matches(f, s.rows[id]) ==> exists i :: 0 <= i < |r| && r[i].id == id)
    && (forall i, j :: 0 <= i < j < |r| ==> r[i].id != r[j].id)
    && (forall i, j :: 0 <= i < j < |r| ==> s.rows[r[i].id].created <= s.rows[r[j].id].created)
  }

  /** `serialize_notification` applied to each selected row. */
  function SerializeAll(s: Store, ids: seq<nat>): (r: seq<Notification>)
    requires AllValid(s.rows, ids)
    ensures |r| == |ids|
    ensures forall i :: 0 <= i < |r| ==> r[i].id == ids[i] && r[i] == Serialize(ids[i], s.rows[ids[i]])
  {
    if ids == [] then [] else [Serialize(ids[0], s.rows[ids[0]])] + SerializeAll(s, ids[1..])
  }

  /** Serializing a selection of `f` gives a listing of `f`. */
  lemma SerializeSelectionIsListing(s: Store, f: Filter)
    ensures IsListing(s, f, SerializeAll(s, Select(s, f)))
  {
    var ids := Select(s, f);
    var r := SerializeAll(s, ids);
    forall id | 0 <= id < |s.rows| && Matches(f, s.rows[id])
      ensures exists i :: 0 <= i < |r| && r[i].id == id
    {
      var i :| 0 <= i < |ids| && ids[i] == id;
      assert r[i].id == id;
    }
  }

  /** The serialized rows of a filter, ordered by `created` (`query.all()` then `serialize_notification`). */
  function List(s: Store, f: Filter): (r: seq<Notification>)
    ensures IsListing(s, f, r)
  {
    SerializeSelectionIsListing(s, f);
    SerializeAll(s, Select(s, f))
  }

  /** A paged listing: the slice of `List(s, f)` for that page. */
  function PagedList(s: Store, f: Filter, page: int, pageSize: nat): (r: seq<Notification>)
    requires page >= 1
    ensures |r| <= pageSize
    ensures forall i :: 0 <= i < |r| ==>
      ValidId(s, r[i].id) && Matches(f, s.rows[r[i].id]) && r[i] == Serialize(r[i].id, s.rows[r[i].id])
    ensures var all := List(s, f);
      && (Offset(page, pageSize) < |all| ==> |r| == Min(pageSize, |all| - Offset(page, pageSize)))
      && (|all| <= Offset(page, pageSize) ==> r == [])
      && forall i :: 0 <= i < |r| ==> Offset(page, pageSize) + i < |all| && r[i] == all[Offset(page, pageSize) + i]
  {
    var all := List(s, f);
    var r := Page(all, page, pageSize);
    assert forall i :: 0 <= i < |r| ==> r[i] in all;
    r
  }

  // The query operations of the backend.

  /** Pending notifications whose `send_after` is unset or has passed, oldest first. */
  function GetAllPendingNotifications(s: Store, now: Timestamp): (r: seq<Notification>)
    ensures IsListing(s, ReadyAt(now), r)
    ensures forall n :: n in r ==> n.status == PendingSend && (n.sendAfter.None? || n.sendAfter.value <= now)
  {
    List(s, ReadyAt(now))
  }

  /** One page of all pending notifications, whatever their `send_after`. */
  function GetPendingNotifications(s: Store, page: int, pageSize: nat): (r: seq<Notification>)
    requires page >= 1
    ensures |r| <= pageSize
    ensures forall i :: 0 <= i < |r| ==> r[i].status == PendingSend
    ensures var all := List(s, Pending);
      && (Offset(page, pageSize) < |all| ==> |r| == Min(pageSize, |all| - Offset(page, pageSize)))
      && (|all| <= Offset(page, pageSize) ==> r == [])
      && forall i :: 0 <= i < |r| ==> Offset(page, pageSize) + i < |all| && r[i] == all[Offset(page, pageSize) + i]
  {
    PagedList(s, Pending, page, pageSize)
  }

  /** The user's sent, in-app notifications (not yet read), oldest first. */
  function FilterAllInAppUnreadNotifications(s: Store, user: UserId): (r: seq<Notification>)
    ensures IsListing(s, InAppUnreadOf(user), r)
    ensures forall n :: n in r ==> n.userId == user && n.status == Sent && n.notificationType == InApp
  {
    var r := List(s, InAppUnreadOf(user));
    assert forall n :: n in r ==> n.userId == user && n.status == Sent && n.notificationType == InApp by {
      forall n | n in r
        ensures n.userId == user && n.status == Sent && n.notificationType == InApp
      {
        var i :| 0 <= i < |r| && r[i] == n;
        assert Matches(InAppUnreadOf(user), s.rows[n.id]);
      }
    }
    r
  }

  function FilterInAppUnreadNotifications(s: Store, user: UserId, page: int, pageSize: nat): (r: seq<Notification>)
    requires page >= 1
    ensures |r| <= pageSize
    ensures forall i :: 0 <= i < |r| ==> r[i].userId == user && r[i].status == Sent && r[i].notificationType == InApp
    ensures var all := List(s, InAppUnreadOf(user));
      && (Offset(page, pageSize) < |all| ==> |r| == Min(pageSize, |all| - Offset(page, pageSize)))
      && (|all| <= Offset(page, pageSize) ==> r == [])
      && forall i :: 0 <= i < |r| ==> Offset(page, pageSize) + i < |all| && r[i] == all[Offset(page, pageSize) + i]
  {
    var r := PagedList(s, InAppUnreadOf(user), page, pageSize);
    assert forall i :: 0 <= i < |r| ==> r[i].userId == user && r[i].status == Sent && r[i].notificationType == InApp by {
      forall i | 0 <= i < |r|
        ensures r[i].userId == user && r[i].status == Sent && r[i].notificationType == InApp
      {
        assert Matches(InAppUnreadOf(user), s.rows[r[i].id]);
      }
    }
    r
  }

  /** Pending notifications scheduled strictly after `now`, oldest first. */
  function GetAllFutureNotifications(s: Store, now: Timestamp): (r: seq<Notification>)
    ensures IsListing(s, FutureAt(now), r)
    ensures forall n :: n in r ==> n.status == PendingSend && n.sendAfter.Some? && n.sendAfter.value > now
  {
    List(s, FutureAt(now))
  }

  function GetFutureNotifications(s: Store, now: Timestamp, page: int, pageSize: nat): (r: seq<Notification>)
    requires page >= 1
    ensures |r| <= pageSize
    ensures forall i :: 0 <= i < |r| ==> r[i].status == PendingSend && r[i].sendAfter.Some? && r[i].sendAfter.value > now
    ensures var all := List(s, FutureAt(now));
      && (Offset(page, pageSize) < |all| ==> |r| == Min(pageSize, |all| - Offset(page, pageSize)))
      && (|all| <= Offset(page, pageSize) ==> r == [])
      && forall i :: 0 <= i < |r| ==> Offset(page, pageSize) + i < |all| && r[i] == all[Offset(page, pageSize) + i]
  {
    PagedList(s, FutureAt(now), page, pageSize)
  }

  function GetAllFutureNotificationsFromUser(s: Store, now: Timestamp, user: UserId): (r: seq<Notification>)
    ensures IsListing(s, FutureOfUserAt(now, user), r)
    ensures forall n :: n in r ==>
      n.userId == user && n.status == PendingSend && n.sendAfter.Some? && n.sendAfter.value > now
  {
    var r := List(s, FutureOfUserAt(now, user));
    assert forall n :: n in r ==>
      n.userId == user && n.status == PendingSend && n.sendAfter.Some? && n.sendAfter.value > now by {
      forall n | n in r
        ensures n.userId == user && n.status == PendingSend && n.sendAfter.Some? && n.sendAfter.value > now
      {
        var i :| 0 <= i < |r| && r[i] == n;
        assert Matches(FutureOfUserAt(now, user), s.rows[n.id]);
      }
    }
    r
  }

  function GetFutureNotificationsFromUser(s: Store, now: Timestamp, user: UserId, page: int, pageSize: nat): (r: seq<Notification>)
    requires page >= 1
    ensures |r| <= pageSize
    ensures forall i :: 0 <= i < |r| ==>
      r[i].userId == user && r[i].status == PendingSend && r[i].sendAfter.Some? && r[i].sendAfter.value > now
    ensures var all := List(s, FutureOfUserAt(now, user));
      && (Offset(page, pageSize) < |all| ==> |r| == Min(pageSize, |all| - Offset(page, pageSize)))
      && (|all| <= Offset(page, pageSize) ==> r == [])
      && forall i :: 0 <= i < |r| ==> Offset(page, pageSize) + i < |all| && r[i] == all[Offset(page, pageSize) + i]
  {
    var r := PagedList(s, FutureOfUserAt(now, user), page, pageSize);
    assert forall i :: 0 <= i < |r| ==>
      r[i].userId == user && r[i].status == PendingSend && r[i].sendAfter.Some? && r[i].sendAfter.value > now by {
      forall i | 0 <= i < |r|
        ensures r[i].userId == user && r[i].status == PendingSend && r[i].sendAfter.Some? && r[i].sendAfter.value > now
      {
        assert Matches(FutureOfUserAt(now, user), s.rows[r[i].id]);
      }
    }
    r
  }

  // Properties of the listings.

  /**
    For one `now`, the ready list and the future list split the pending
    notifications: every pending row is in exactly one of them.
   */
  lemma ReadyAndFuturePartitionPending(s: Store, now: Timestamp, id: int)
    requires ValidId(s, id)
    ensures Matches(Pending, s.rows[id]) <==> Matches(ReadyAt(now), s.rows[id]) || Matches(FutureAt(now), s.rows[id])
    ensures !(Matches(ReadyAt(now), s.rows[id]) && Matches(FutureAt(now), s.rows[id]))
    ensures !(Listed(s, id, GetAllPendingNotifications(s, now)) && Listed(s, id, GetAllFutureNotifications(s, now)))
    ensures s.rows[id].status == PendingSend ==>
      Listed(s, id, GetAllPendingNotifications(s, now)) || Listed(s, id, GetAllFutureNotifications(s, now))
  {
    ListedIffMatches(s, ReadyAt(now), id);
    ListedIffMatches(s, FutureAt(now), id);
  }

  /**
    How the WHERE clauses relate: the user-scoped future filter is the future
    filter plus the user column, and the ready and future filters both refine
    the pending filter, which excludes the in-app unread filter.
   */
  lemma FiltersRelate(row: Row, now: Timestamp, user: UserId)
    ensures Matches(FutureOfUserAt(now, user), row) <==> Matches(FutureAt(now), row) && row.userId == user
    ensures Matches(ReadyAt(now), row) ==> Matches(Pending, row)
    ensures Matches(FutureAt(now), row) ==> Matches(Pending, row)
    ensures !(Matches(Pending, row) && Matches(InAppUnreadOf(user), row))
  {
  }

  /**
    A paged listing is the page of the full listing, so reading pages 1..n in
    turn yields the full listing's first `n * pageSize` notifications.
   */
  lemma PagedListIsPage(s: Store, f: Filter, page: int, pageSize: nat)
    requires page >= 1
    ensures PagedList(s, f, page, pageSize) == Page(List(s, f), page, pageSize)
    ensures FirstPages(List(s, f), pageSize, page) == List(s, f)[..Min(page * pageSize, |List(s, f)|)]
  {
    FirstPagesArePrefix(List(s, f), pageSize, page);
  }

  /** Notification `id` appears, serialized, in `r`. */
  predicate Listed(s: Store, id: int, r: seq<Notification>)
    requires ValidId(s, id)
  {
    Serialize(id, s.rows[id]) in r
  }

  /** A row appears in a listing of `f` exactly when it matches `f`. */
  lemma ListedIffMatches(s: Store, f: Filter, id: int)
    requires ValidId(s, id)
    ensures Listed(s, id, List(s, f)) <==> Matches(f, s.rows[id])
  {
    var r := List(s, f);
    if Matches(f, s.rows[id]) {
      var i :| 0 <= i < |r| && r[i].id == id;
      assert r[i] == Serialize(id, s.rows[id]);
    }
    if Listed(s, id, r) {
      var i :| 0 <= i < |r| && r[i] == Serialize(id, s.rows[id]);
      assert r[i].id == id;
    }
  }

  /** A listing has no duplicates. */
  lemma ListIsDistinct(s: Store, f: Filter)
    ensures Distinct(List(s, f))
  {
  }

  /** Different pages of the same listing share no notification. */
  lemma PagedListsDisjoint(s: Store, f: Filter, pageSize: nat, p: int, q: int)
    requires 1 <= p < q
    ensures forall n :: n in PagedList(s, f, p, pageSize) ==> n !in PagedList(s, f, q, pageSize)
  {
    ListIsDistinct(s, f);
    PagesDisjoint(List(s, f), pageSize, p, q);
  }

  lemma SubsetCardinality<T>(small: set<T>, big: set<T>)
    requires small <= big
    ensures |small| <= |big|
  {
    if small != big {
      assert exists x :: x in big && x !in small;
      var x :| x in big && x !in small;
      SubsetCardinality(small, big - {x});
    }
  }

  /**
    When exactly two rows match and `a` was created before `b`, the listing is
    `a` then `b`.
   */
  lemma TwoMatchesListedInOrder(s: Store, f: Filter, a: int, b: int)
    requires ValidId(s, a) && ValidId(s, b) && a != b
    requires forall id :: 0 <= id < |s.rows| ==> (Matches(f, s.rows[id]) <==> id == a || id == b)
    requires s.rows[a].created < s.rows[b].created
    ensures List(s, f) == [Serialize(a, s.rows[a]), Serialize(b, s.rows[b])]
  {
    ListingOfTwoMatches(s, f, List(s, f), a, b);
  }

  /** A listing holds no more entries than there are ids that can match. */
  lemma ListingSizeBound(s: Store, f: Filter, r: seq<Notification>, candidates: set<int>)
    requires IsListing(s, f, r)
    requires forall id :: 0 <= id < |s.rows| && Matches(f, s.rows[id]) ==> id in candidates
    ensures |r| <= |candidates|
  {
    var ids := seq(|r|, k requires 0 <= k < |r| => r[k].id);
    assert Distinct(ids);
    DistinctCardinality(ids);
    assert (set x | x in ids) <= candidates;
    SubsetCardinality((set x | x in ids), candidates);
  }

  lemma ListingOfTwoMatches(s: Store, f: Filter, r: seq<Notification>, a: int, b: int)
    requires IsListing(s, f, r)
    requires ValidId(s, a) && ValidId(s, b) && a != b
    requires forall id :: 0 <= id < |s.rows| ==> (Matches(f, s.rows[id]) <==> id == a || id == b)
    requires s.rows[a].created < s.rows[b].created
    ensures r == [Serialize(a, s.rows[a]), Serialize(b, s.rows[b])]
  {
    assert Matches(f, s.rows[a]) && Matches(f, s.rows[b]);
    var i :| 0 <= i < |r| && r[i].id == a;
    var j :| 0 <= j < |r| && r[j].id == b;
    ListingSizeBound(s, f, r, {a, b});
    assert |r| == 2;
    assert s.rows[r[0].id].created <= s.rows[r[1].id].created;
    assert r[0].id == a && r[1].id == b;
  }

}
