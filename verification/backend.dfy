/**
  The write side of the SQLAlchemy notification backend and its single-row
  lookup. Each public operation is one atomic step on the store: a conditional
  UPDATE that matches no row raises and changes nothing.
 */
module Backend {
  import opened Notifications

  /** The keyword arguments of `persist_notification`. */
  datatype NewNotification = NewNotification(
    userId: UserId,
    notificationType: NotificationType,
    title: string,
    bodyTemplate: string,
    contextName: string,
    contextKwargs: Payload,
    sendAfter: Option<Timestamp>,
    subjectTemplate: Option<string>,
    preheaderTemplate: Option<string>,
    adapterExtraParameters: Option<Payload>
  )

  /**
    The keys an update may carry (`UpdateNotificationKwargs`); `None` means the
    key is absent. `send_after` and `adapter_extra_parameters` are nullable, so
    setting them to NULL is `Some(None)`.
   */
  datatype FieldUpdate = FieldUpdate(
    userId: Option<UserId>,
    notificationType: Option<NotificationType>,
    title: Option<string>,
    bodyTemplate: Option<string>,
    contextName: Option<string>,
    contextKwargs: Option<Payload>,
    sendAfter: Option<Option<Timestamp>>,
    subjectTemplate: Option<string>,
    preheaderTemplate: Option<string>,
    adapterExtraParameters: Option<Option<Payload>>
  )

  /** `row` and `row'` agree on every column except, possibly, `status`. */
  predicate SameExceptStatus(row: Row, row': Row) {
    row' == row.(status := row'.status)
  }

  /** Row `id` of `s'` is row `id` of `s` with status `target`, and all other rows are as in `s`. */
  predicate StatusSet(s: Store, s': Store, id: int, target: Status)
    requires ValidId(s, id)
  {
    && |s'.rows| == |s.rows|
    && SameExceptStatus(s.rows[id], s'.rows[id])
    && s'.rows[id].status == target
    && forall j :: 0 <= j < |s.rows| && j != id ==> s'.rows[j] == s.rows[j]
  }

  /**
    `persist_notification`: inserts a PENDING_SEND row under a fresh id.
    `createdAt` is the `created` column's default, taken when the row is inserted.
   */
  function PersistNotification(s: Store, createdAt: Timestamp, args: NewNotification): (o: Outcome<Notification>)
    ensures o.result.Success?
    ensures var n := o.result.value;
      && !ValidId(s, n.id) && ValidId(o.store, n.id)
      && |o.store.rows| == |s.rows| + 1
      && (forall j :: 0 <= j < |s.rows| ==> o.store.rows[j] == s.rows[j])
      && n == Serialize(n.id, o.store.rows[n.id])
    ensures var row := o.store.rows[|s.rows|];
      && row.status == PendingSend
      && row.userId == args.userId
      && row.notificationType == args.notificationType
      && row.title == args.title
      && row.bodyTemplate == args.bodyTemplate
      && row.contextName == args.contextName
      && row.contextKwargs == args.contextKwargs
      && row.sendAfter == args.sendAfter
      && (args.subjectTemplate.Some? ==> row.subjectTemplate == args.subjectTemplate.value)
      && (args.subjectTemplate.None? ==> row.subjectTemplate == "")
      && (args.preheaderTemplate.Some? ==> row.preheaderTemplate == args.preheaderTemplate.value)
      && (args.preheaderTemplate.None? ==> row.preheaderTemplate == "")
      && row.adapterExtraParameters == args.adapterExtraParameters
      && row.contextUsed.None? && row.adapterUsed.None?
      && row.created == createdAt
  {
    var row := Row(
      userId := args.userId,
      notificationType := args.notificationType,
      title := args.title,
      bodyTemplate := args.bodyTemplate,
      subjectTemplate := args.subjectTemplate.GetOr(""),
      preheaderTemplate := args.preheaderTemplate.GetOr(""),
      contextName := args.contextName,
      contextKwargs := args.contextKwargs,
      contextUsed := None,
      adapterUsed := None,
      adapterExtraParameters := args.adapterExtraParameters,
      status := PendingSend,
      sendAfter := args.sendAfter,
      created := createdAt);
    var id := |s.rows|;
    Outcome(Store(s.rows + [row]), Success(Serialize(id, row)))
  }

  /** The row with the columns named in `u` overwritten and every other column kept. */
  function ApplyUpdate(row: Row, u: FieldUpdate): (row': Row)
    ensures row'.status == row.status && row'.created == row.created
    ensures row'.contextUsed == row.contextUsed && row'.adapterUsed == row.adapterUsed
    ensures row'.userId == (if u.userId.Some? then u.userId.value else row.userId)
    ensures row'.notificationType == (if u.notificationType.Some? then u.notificationType.value else row.notificationType)
    ensures row'.title == (if u.title.Some? then u.title.value else row.title)
    ensures row'.bodyTemplate == (if u.bodyTemplate.Some? then u.bodyTemplate.value else row.bodyTemplate)
    ensures row'.contextName == (if u.contextName.Some? then u.contextName.value else row.contextName)
    ensures row'.contextKwargs == (if u.contextKwargs.Some? then u.contextKwargs.value else row.contextKwargs)
    ensures row'.sendAfter == (if u.sendAfter.Some? then u.sendAfter.value else row.sendAfter)
    ensures row'.subjectTemplate == (if u.subjectTemplate.Some? then u.subjectTemplate.value else row.subjectTemplate)
    ensures row'.preheaderTemplate == (if u.preheaderTemplate.Some? then u.preheaderTemplate.value else row.preheaderTemplate)
    ensures row'.adapterExtraParameters == (if u.adapterExtraParameters.Some? then u.adapterExtraParameters.value else row.adapterExtraParameters)
  {
    row.(
      userId := u.userId.GetOr(row.userId),
      notificationType := u.notificationType.GetOr(row.notificationType),
      title := u.title.GetOr(row.title),
      bodyTemplate := u.bodyTemplate.GetOr(row.bodyTemplate),
      contextName := u.contextName.GetOr(row.contextName),
      contextKwargs := u.contextKwargs.GetOr(row.contextKwargs),
      sendAfter := u.sendAfter.GetOr(row.sendAfter),
      subjectTemplate := u.subjectTemplate.GetOr(row.subjectTemplate),
      preheaderTemplate := u.preheaderTemplate.GetOr(row.preheaderTemplate),
      adapterExtraParameters := u.adapterExtraParameters.GetOr(row.adapterExtraParameters))
  }

  /** An update with no keys. */
  const NoChange := FieldUpdate(None, None, None, None, None, None, None, None, None, None)

  /** Applying the same update twice is applying it once; the empty update changes nothing. */
  lemma ApplyUpdateIdempotent(row: Row, u: FieldUpdate)
    ensures ApplyUpdate(ApplyUpdate(row, u), u) == ApplyUpdate(row, u)
    ensures ApplyUpdate(row, NoChange) == row
  {
  }

  /**
    `persist_notification_update`: overwrites the given columns of row `id`,
    only while it is PENDING_SEND, and returns the re-read row.
   */
  function PersistNotificationUpdate(s: Store, id: int, u: FieldUpdate): (o: Outcome<Notification>)
    ensures o.result.Success? <==> ValidId(s, id) && s.rows[id].status == PendingSend
    ensures o.result.Failure? ==> o.result.error == UpdateConflict && o.store == s
    ensures o.result.Success? ==>
      && |o.store.rows| == |s.rows|
      && o.store.rows[id] == ApplyUpdate(s.rows[id], u)
      && (forall j :: 0 <= j < |s.rows| && j != id ==> o.store.rows[j] == s.rows[j])
      && o.result.value == Serialize(id, o.store.rows[id])
  {
    if ValidId(s, id) && s.rows[id].status == PendingSend then
      var row := ApplyUpdate(s.rows[id], u);
      Outcome(Store(s.rows[id := row]), Success(Serialize(id, row)))
    else
      Outcome(s, Failure(UpdateConflict))
  }

  /**
    `_update_notification_status`: `UPDATE ... SET status = target WHERE id = id
    AND status IN expected`, then the re-read row; no match raises.
   */
  function UpdateNotificationStatus(s: Store, id: int, expected: set<Status>, target: Status): (o: Outcome<Notification>)
    ensures o.result.Success? <==> ValidId(s, id) && s.rows[id].status in expected
    ensures o.result.Failure? ==> o.result.error == UpdateConflict && o.store == s
    ensures o.result.Success? ==>
      StatusSet(s, o.store, id, target) && o.result.value == Serialize(id, o.store.rows[id])
  {
    if ValidId(s, id) && s.rows[id].status in expected then
      var row := s.rows[id].(status := target);
      Outcome(Store(s.rows[id := row]), Success(Serialize(id, row)))
    else
      Outcome(s, Failure(UpdateConflict))
  }

  /** `mark_pending_as_sent`: PENDING_SEND to SENT. */
  function MarkPendingAsSent(s: Store, id: int): (o: Outcome<Notification>)
    ensures o.result.Success? <==> ValidId(s, id) && s.rows[id].status == PendingSend
    ensures o.result.Failure? ==> o.result.error == UpdateConflict && o.store == s
    ensures o.result.Success? ==>
      StatusSet(s, o.store, id, Sent) && o.result.value == Serialize(id, o.store.rows[id])
      && o.result.value.status == Sent
  {
    UpdateNotificationStatus(s, id, {PendingSend}, Sent)
  }

  /** `mark_pending_as_failed`: PENDING_SEND to FAILED. */
  function MarkPendingAsFailed(s: Store, id: int): (o: Outcome<Notification>)
    ensures o.result.Success? <==> ValidId(s, id) && s.rows[id].status == PendingSend
    ensures o.result.Failure? ==> o.result.error == UpdateConflict && o.store == s
    ensures o.result.Success? ==>
      StatusSet(s, o.store, id, Failed) && o.result.value == Serialize(id, o.store.rows[id])
      && o.result.value.status == Failed
  {
    UpdateNotificationStatus(s, id, {PendingSend}, Failed)
  }

  /** `mark_sent_as_read`: SENT to READ. */
  function MarkSentAsRead(s: Store, id: int): (o: Outcome<Notification>)
    ensures o.result.Success? <==> ValidId(s, id) && s.rows[id].status == Sent
    ensures o.result.Failure? ==> o.result.error == UpdateConflict && o.store == s
    ensures o.result.Success? ==>
      StatusSet(s, o.store, id, Read) && o.result.value == Serialize(id, o.store.rows[id])
      && o.result.value.status == Read
  {
    UpdateNotificationStatus(s, id, {Sent}, Read)
  }

  /** `cancel_notification`: PENDING_SEND to CANCELLED; returns nothing. */
  function CancelNotification(s: Store, id: int): (o: Outcome<()>)
    ensures o.result.Success? <==> ValidId(s, id) && s.rows[id].status == PendingSend
    ensures o.result.Failure? ==> o.result.error == CancelConflict && o.store == s
    ensures o.result.Success? ==> StatusSet(s, o.store, id, Cancelled)
  {
    if ValidId(s, id) && s.rows[id].status == PendingSend then
      Outcome(Store(s.rows[id := s.rows[id].(status := Cancelled)]), Success(()))
    else
      Outcome(s, Failure(CancelConflict))
  }

  /**
    `get_notification`: the row under `id` unless it is missing or CANCELLED.
    The `for_update` row lock does not change the result.
   */
  function GetNotification(s: Store, id: int): (r: Result<Notification, Error>)
    ensures r.Success? <==> ValidId(s, id) && s.rows[id].status != Cancelled
    ensures r.Failure? ==> r.error == NotFound
    ensures r.Success? ==> r.value == Serialize(id, s.rows[id]) && r.value.id == id
  {
    if ValidId(s, id) && s.rows[id].status != Cancelled then Success(Serialize(id, s.rows[id]))
    else Failure(NotFound)
  }
}
