# Notification lifecycle of the SQLAlchemy backend, in Dafny

This project models the core of `SQLAlchemyNotificationBackend` from
vintasend-sqlalchemy. That class is the persistence adapter that stores
vintasend notifications in a relational table and moves each one through its
lifecycle: PENDING_SEND, then SENT, FAILED or CANCELLED, and SENT then READ.

The table is an immutable `Store`: a sequence of rows. The backend never
deletes a row, and the model abstracts the database's autoincrement primary
key as the row's position in the sequence. Every public operation is one atomic step on
the store. Each write returns an `Outcome`: the store after the call, and
either the returned `Notification` or the error raised. So "a failed
operation changes nothing" is stated in the contracts, not built into the
types.

- `notifications.dfy` (`Notifications`): the row, the framework-facing
  `Notification` record, status and type vocabularies, errors, and
  `serialize_notification`.
- `backend.dfy` (`Backend`): `persist_notification`,
  `persist_notification_update`, `_update_notification_status` and the three
  `mark_*` wrappers, `cancel_notification`, `get_notification`.
- `queries.dfy` (`Queries`): the WHERE clauses of the listing queries, the
  `created`-ordered listings, and the eight list operations, paged and
  unpaged.
- `ordering.dfy` (`Ordering`): `ORDER BY created`, as a stable insertion sort
  of ids.
- `paging.dfy` (`Paging`): `OFFSET (page - 1) * page_size LIMIT page_size`.
- `lifecycle.dfy` (`Lifecycle`): the status machine over arbitrary sequences
  of operations.
- `scenarios.dfy` (`Scenarios`): the test suite's scenarios, stated for all
  inputs.

Time is a parameter. The query operations take `now`, which stands for
`datetime.datetime.now()`. `PersistNotification` takes `createdAt`, the value
the `created` column's default takes at insertion. `ORDER BY created` leaves
the order of rows with equal `created` to the database engine. The model
breaks such ties by id, which is one order the engine may return. Separate page queries need not agree on that order, so the paging lemmas hold in the source only when the matching rows have distinct `created` values (see "## Left out").

The paged `get_pending_notifications` filters on status alone. It
also returns PENDING_SEND rows whose `send_after` is still in the future. The
unpaged `get_all_pending_notifications` returns only rows that are due.

The test suite's method `get_all_pending_notifications` lacks the `test_`
prefix. It expects the newest notification first, which contradicts
`order_by(created)`. The model follows the query: oldest first.

## Model

| member | source | states |
|---|---|---|
| Notifications.Serialize | vintasend_sqlalchemy/services/notification_backends/sqlalchemy_notification_backend.py:96-109 | the record carries the row's id and every public column, so the row can be rebuilt from it plus the four columns serialization drops (`created`, `context_used`, `adapter_used`, `adapter_extra_parameters`) |
| Notifications.SerializeDeterminesPublicColumns | vintasend_sqlalchemy/services/notification_backends/sqlalchemy_notification_backend.py:96-109 | two rows serialize to the same record exactly when they differ only in the dropped columns |
| Backend.PersistNotification | vintasend_sqlalchemy/services/notification_backends/sqlalchemy_notification_backend.py:139-169 | always succeeds in the model (database-side rejections are listed under "## Left out"); adds exactly one row under an id that was not in use, and leaves every existing row unchanged; the new row is PENDING_SEND, stores each given field unchanged, stores a missing subject or preheader as `""`, has no context_used/adapter_used and is created at `createdAt`; the returned record is that row serialized |
| Backend.ApplyUpdate | vintasend_sqlalchemy/services/notification_backends/sqlalchemy_notification_backend.py:181-186 | each column named in the update takes the given value and every other column keeps its value; status and `created` are never touched |
| Backend.ApplyUpdateIdempotent | vintasend_sqlalchemy/services/notification_backends/sqlalchemy_notification_backend.py:181-186 | applying an update twice equals applying it once, and an empty update leaves the row as it was |
| Backend.PersistNotificationUpdate | vintasend_sqlalchemy/services/notification_backends/sqlalchemy_notification_backend.py:171-207 | succeeds if and only if the id exists and the row is PENDING_SEND; on success only that row changes, by exactly the given fields, and the returned record is the updated row; otherwise it raises an update error and the store is unchanged |
| Backend.UpdateNotificationStatus | vintasend_sqlalchemy/services/notification_backends/sqlalchemy_notification_backend.py:259-291 | the guarded UPDATE succeeds if and only if the id exists and its status is in the expected set; then only that row's status changes, to the target, and the re-read row is returned; otherwise it raises an update error and the store is unchanged |
| Backend.MarkPendingAsSent | vintasend_sqlalchemy/services/notification_backends/sqlalchemy_notification_backend.py:209-212 | succeeds exactly on an existing PENDING_SEND row and sets only its status to SENT; the returned record has status SENT; otherwise it raises an update error and changes nothing |
| Backend.MarkPendingAsFailed | vintasend_sqlalchemy/services/notification_backends/sqlalchemy_notification_backend.py:214-219 | succeeds exactly on an existing PENDING_SEND row and sets only its status to FAILED; otherwise it raises an update error and changes nothing |
| Backend.MarkSentAsRead | vintasend_sqlalchemy/services/notification_backends/sqlalchemy_notification_backend.py:221-224 | succeeds exactly on an existing SENT row and sets only its status to READ; otherwise it raises an update error and changes nothing |
| Backend.CancelNotification | vintasend_sqlalchemy/services/notification_backends/sqlalchemy_notification_backend.py:226-239 | succeeds exactly on an existing PENDING_SEND row and sets only its status to CANCELLED; on any other status or a missing id it raises a cancel error and changes nothing |
| Backend.GetNotification | vintasend_sqlalchemy/services/notification_backends/sqlalchemy_notification_backend.py:241-257 | returns the serialized row if and only if the id exists and the row is not CANCELLED; otherwise it raises not-found |
| Ordering.SortByCreated | vintasend_sqlalchemy/services/notification_backends/sqlalchemy_notification_backend.py:120 | the result is a permutation of the input ids (same multiset, same members, same length) |
| Ordering.SortByCreatedCorrect | vintasend_sqlalchemy/services/notification_backends/sqlalchemy_notification_backend.py:120 | the result is ordered by `created` and keeps a duplicate-free input free of duplicates |
| Paging.Page | vintasend_sqlalchemy/services/notification_backends/sqlalchemy_notification_backend.py:131-132 | a page holds at most `page_size` elements; element i of page p is element `(p - 1) * page_size + i` of the list; a page whose offset lies inside the list holds `min(page_size, remaining)` elements, and a page past the end is empty |
| Paging.PageOfIndex | vintasend_sqlalchemy/services/notification_backends/sqlalchemy_notification_backend.py:131-132 | every element of the list is on page `i / page_size + 1`, at position `i % page_size` |
| Paging.FirstPagesArePrefix | vintasend_sqlalchemy/services/notification_backends/sqlalchemy_notification_backend.py:131-132 | pages 1..n read in turn give exactly the first `n * page_size` elements of the list: nothing skipped and nothing repeated |
| Paging.PagesDisjoint | vintasend_sqlalchemy/services/notification_backends/sqlalchemy_notification_backend.py:131-132 | two different pages of a duplicate-free list share no element |
| Queries.Matches | vintasend_sqlalchemy/services/notification_backends/sqlalchemy_notification_backend.py:57-129 | a row matching a filter is PENDING_SEND (SENT for the in-app unread filter); the user-scoped filters fix `user_id`; the future filters need a non-null `send_after` after `now`, the ready filter a null one or one not after `now` |
| Queries.Select | vintasend_sqlalchemy/services/notification_backends/sqlalchemy_notification_backend.py:54-94 | a filter selects exactly the ids of the rows satisfying its WHERE clause, each once, in `created` order |
| Queries.List | vintasend_sqlalchemy/services/notification_backends/sqlalchemy_notification_backend.py:111-123 | the listing of a filter holds every matching row exactly once, serialized under its id, holds nothing else, and is ordered by `created` |
| Queries.PagedList | vintasend_sqlalchemy/services/notification_backends/sqlalchemy_notification_backend.py:125-137 | a paged listing is the slice of the full listing at offset `(page - 1) * page_size`: it holds `min(page_size, remaining)` notifications when the offset is inside the listing, none otherwise, each equal to the listing's entry at offset plus position |
| Queries.GetAllPendingNotifications | vintasend_sqlalchemy/services/notification_backends/sqlalchemy_notification_backend.py:111-123 | exactly the PENDING_SEND rows whose `send_after` is null or not after `now`, oldest first |
| Queries.GetPendingNotifications | vintasend_sqlalchemy/services/notification_backends/sqlalchemy_notification_backend.py:125-137 | the requested page of all PENDING_SEND rows, whatever their `send_after`, oldest first: `min(page_size, remaining)` entries of the full listing from offset `(page - 1) * page_size`, empty past its end |
| Queries.FilterAllInAppUnreadNotifications | vintasend_sqlalchemy/services/notification_backends/sqlalchemy_notification_backend.py:293-299 | exactly the user's rows that are SENT and of type IN_APP, oldest first |
| Queries.FilterInAppUnreadNotifications | vintasend_sqlalchemy/services/notification_backends/sqlalchemy_notification_backend.py:301-311 | the requested page of the user's SENT IN_APP rows: `min(page_size, remaining)` entries of the full listing from offset `(page - 1) * page_size`, empty past its end |
| Queries.GetAllFutureNotifications | vintasend_sqlalchemy/services/notification_backends/sqlalchemy_notification_backend.py:313-317 | exactly the PENDING_SEND rows with a `send_after` strictly after `now`, oldest first |
| Queries.GetFutureNotifications | vintasend_sqlalchemy/services/notification_backends/sqlalchemy_notification_backend.py:319-325 | the requested page of the future-scheduled PENDING_SEND rows: `min(page_size, remaining)` entries of the full listing from offset `(page - 1) * page_size`, empty past its end |
| Queries.GetAllFutureNotificationsFromUser | vintasend_sqlalchemy/services/notification_backends/sqlalchemy_notification_backend.py:327-335 | exactly the user's PENDING_SEND rows with a `send_after` strictly after `now`, oldest first |
| Queries.GetFutureNotificationsFromUser | vintasend_sqlalchemy/services/notification_backends/sqlalchemy_notification_backend.py:337-345 | the requested page of the user's future-scheduled PENDING_SEND rows: `min(page_size, remaining)` entries of the full listing from offset `(page - 1) * page_size`, empty past its end |
| Queries.FiltersRelate | vintasend_sqlalchemy/services/notification_backends/sqlalchemy_notification_backend.py:57-92 | the user-scoped future filter is the future filter plus the user column; the ready and the future filter each imply PENDING_SEND; no row is both pending and in-app unread |
| Queries.PagedListIsPage | vintasend_sqlalchemy/services/notification_backends/sqlalchemy_notification_backend.py:125-137 | a paged listing is the page of the full listing, and reading pages 1..n in turn gives the listing's first `n * page_size` notifications |
| Queries.ListedIffMatches | vintasend_sqlalchemy/services/notification_backends/sqlalchemy_notification_backend.py:111-123 | a row appears in a filter's listing if and only if it satisfies the filter |
| Queries.ReadyAndFuturePartitionPending | vintasend_sqlalchemy/services/notification_backends/sqlalchemy_notification_backend.py:70-78 | for one `now`, every PENDING_SEND row is in exactly one of the ready list and the future list, and no other row is in either |
| Queries.ListIsDistinct | vintasend_sqlalchemy/services/notification_backends/sqlalchemy_notification_backend.py:111-123 | a listing contains no notification twice |
| Queries.PagedListsDisjoint | vintasend_sqlalchemy/services/notification_backends/sqlalchemy_notification_backend.py:125-137 | two different pages of the same query share no notification |
| Queries.ListingSizeBound | vintasend_sqlalchemy/services/notification_backends/sqlalchemy_notification_backend.py:111-123 | a listing is no longer than the set of ids that can match |
| Queries.TwoMatchesListedInOrder | vintasend_sqlalchemy/services/tests/test_sqlalchemy_notification_backend.py:213-245 | when exactly two rows match, the listing is those two, the earlier-created first |
| Lifecycle.ReachesIsClosureOfEdge | vintasend_sqlalchemy/services/notification_backends/sqlalchemy_notification_backend.py:209-239 | the allowed transitions are PENDING_SEND to SENT, FAILED or CANCELLED, and SENT to READ; reachability is closed under them, and nothing leads back to PENDING_SEND |
| Lifecycle.StepRespectsMachine | vintasend_sqlalchemy/services/notification_backends/sqlalchemy_notification_backend.py:139-291 | one modelled operation, successful or not, keeps every existing row, moves its status along at most one allowed edge, and never changes `created`; a row that has left PENDING_SEND changes in no column but status |
| Lifecycle.RunRespectsMachine | vintasend_sqlalchemy/services/notification_backends/sqlalchemy_notification_backend.py:139-291 | over any sequence of the modelled operations, a row's final status is reachable from its first, `created` never changes, and once the row has left PENDING_SEND only its status can change (`send_after` is frozen) |
| Lifecycle.TerminalRowsAreFrozen | vintasend_sqlalchemy/services/notification_backends/sqlalchemy_notification_backend.py:259-277 | a FAILED, READ or CANCELLED row is identical after any sequence of the modelled operations |
| Lifecycle.AtMostOneClaimWins | vintasend_sqlalchemy/services/notification_backends/sqlalchemy_notification_backend.py:266-277 | of two operations (mark-sent, mark-failed, cancel) each trying to take the same PENDING_SEND row out of PENDING_SEND, the first succeeds and the second raises and changes nothing |
| Lifecycle.RepeatedTransitionFails | vintasend_sqlalchemy/services/notification_backends/sqlalchemy_notification_backend.py:266-277 | repeating a status transition that just succeeded raises and leaves the store as it was |
| Lifecycle.CancelHidesNotification | vintasend_sqlalchemy/services/tests/test_sqlalchemy_notification_backend.py:398-412 | a PENDING_SEND notification is found before cancel, cancel succeeds, and lookup afterwards raises not-found |
| Lifecycle.PersistThenGet | vintasend_sqlalchemy/services/tests/test_sqlalchemy_notification_backend.py:368-392 | a new notification's id was not found before it was persisted; afterwards lookup returns exactly the record persist returned, in PENDING_SEND |
| Lifecycle.PersistSendThenFailConflicts | vintasend_sqlalchemy/services/tests/test_sqlalchemy_notification_backend.py:287-305 | persist, mark-sent, then mark-failed: mark-sent returns SENT, mark-failed raises an update error, and the row stays SENT |
| Scenarios.FutureScheduledIsNotReady | vintasend_sqlalchemy/services/notification_backends/sqlalchemy_notification_backend.py:111-123 | a notification persisted with `send_after` after `now`, whatever its creation time, is in the future list at `now` and not in the ready list |
| Scenarios.PendingPagesFollowCreationOrder | vintasend_sqlalchemy/services/tests/test_sqlalchemy_notification_backend.py:172-245 | start with an empty table, persist three notifications in time order, then mark the third sent; pending page 1 and page 2 of size 1 are then the first and second notifications, exactly as persist returned them |

## Left out

- The asynchronous `SQLAlchemyAsyncIONotificationBackend` (lines 396-771) has the same store semantics as the synchronous class, so it is modelled once. Its `asyncio_lock` parameter is unused.
- Session handling (`begin`, `flush`, `expunge`, `commit`) is transaction mechanics. Each operation is one atomic step. The gap between a committed update and its re-read is not modelled.
- The `for_update` row lock in `get_notification` and concurrent callers belong to the database. The sequential model with atomic guarded steps covers the at-most-one-winner outcome (`Lifecycle.AtMostOneClaimWins`).
- `get_user_email_from_notification` and `store_context_used` are left out. They look up the row by comparing the user-id column with the notification id, and they depend on the user model. `store_context_used` is the one write that changes a row after it has left PENDING_SEND: it sets `context_used` and `adapter_used` with no status guard, after a send. So the lifecycle lemmas speak of the modelled operations only. `send_after`, `status` and `created` stay frozen under it too.
- `_get_notification_model_cls` and the constructor are configuration wiring. So are the generic user-key metaclass, the migration, and the example models.
- The `updated` timestamp is maintained by the ORM's `onupdate` hook. It is not a column of the model.
- The `notification_instance is None` checks after `.one()` are unreachable, because `.one()` raises first. The model has no such branch.
- Backend.PersistNotification: the model's insert always succeeds. The database can reject it, and then `session.flush()` raises and no row is added. It rejects a `context_kwargs` or `adapter_extra_parameters` value that the default JSON serializer cannot encode, such as a UUID. On engines that enforce them, it also rejects a `user_id` with no matching user (the foreign key) and a string longer than its column (String(50) or String(255)).
- All timestamps sit on one integer clock. The source mixes clocks: `created` defaults to aware UTC `datetime.now(timezone.utc)`, while the filters compare `send_after` with naive local `datetime.now()`, and callers may pass aware `send_after` values. The model does not capture time-zone offsets or naive/aware comparison behaviour.
- The user key is an integer in the model. The deployment may configure `int`, `str` or `UUID`; only equality on it is used.
- The JSON columns are maps from strings to int, string or UUID values, and no operation looks inside them. In the source the values must be JSON-encodable: a UUID value is rejected at flush by the default JSON serializer unless the engine configures its own.
- Backend.PersistNotificationUpdate: the model's update always succeeds on a PENDING_SEND row. The database can still reject it, for the same reasons as an insert (see the Backend.PersistNotification line), and then raises its own error rather than the update error. Update keys naming `status`, `id`, `created` or `updated` are not modelled. The update covers the columns of the framework's update kwargs. An empty update is modelled as a no-op that still requires PENDING_SEND; how the ORM handles an empty SET list is not modelled.
- Paging.Page: requires `page >= 1` and a non-negative page size. Negative OFFSET or LIMIT values are engine-dependent (rejected by some engines, clamped by others).
- Queries.List: rows with equal `created` are returned in id order. The source leaves their order to the database engine.
- Queries.PagedListsDisjoint: in the source, each page is a separate `ORDER BY created OFFSET … LIMIT …` query. `created` is not unique, so the engine may order rows with equal `created` differently from one page query to the next. Then two pages can repeat a row, or skip one. The model fixes ties by id on every call, so the lemma holds in the source only when the matching rows' `created` values are pairwise distinct.
- Queries.PagedListIsPage: its clause that pages 1..n concatenate to the listing's prefix holds in the source only under the same condition: the matching rows have pairwise distinct `created` values.
- Paging.FirstPagesArePrefix and Paging.PagesDisjoint: these are about one fixed list. Applied to separate page queries in the source, they carry the same distinct-`created` condition.
- Queries.GetAllPendingNotifications, Queries.FilterAllInAppUnreadNotifications, Queries.FilterInAppUnreadNotifications and Queries.GetAllFutureNotifications: the synchronous versions return a generator over rows loaded in a session that has already committed and closed. These rows were not expunged, so with the default `expire_on_commit=True` iterating a non-empty result raises instead of yielding notifications. The listing is yielded only when the caller's sessionmaker sets `expire_on_commit=False`. The model gives the result that the asynchronous versions, and the other synchronous listings (which call `expunge_all()`), return.
- Lifecycle.PersistThenGet: the synchronous `persist_notification` returns the caller's own `send_after` value without re-reading the row, while a lookup returns what the naive `DateTime` column stored. So the record equality holds in the source only for a `send_after` that is None or naive. A time-zone-aware value loses its offset on the read-back.
- Scenarios.FutureScheduledIsNotReady: the membership of persist's returned record in the listings holds in the source only for a naive `send_after`, for the same reason (the listings return the stored value).
- Scenarios.PendingPagesFollowCreationOrder: the equality of the pages with the records persist returned holds in the source only for a `send_after` that is None or naive, for the same reason.
- Notification ids are integers in the model: a notification's id is its row position. The source's signatures also accept `str` and `uuid.UUID` ids, which are compared against the integer `id` column, with driver-dependent results. Such ids are not modelled. An out-of-range integer id stands for a missing row.
- `NotificationError` for a missing model class is not modelled, because configuration is outside the model.
