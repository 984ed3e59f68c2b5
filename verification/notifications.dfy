/**
  The notification record of the SQLAlchemy backend: the stored row (the
  `notifications` table), the framework-facing `Notification` record that every
  operation returns, the status and type vocabularies, and the error kinds the
  backend raises.
 */
module Notifications {

  datatype Option<T> = None | Some(value: T) {
    /** The value, or `default` when absent (Python's `x or default` on an optional string). */
    function GetOr(default: T): T {
      if Some? then value else default
    }
  }

  datatype Result<T, E> = Success(value: T) | Failure(error: E)

  /** The `status` column. */
  datatype Status = PendingSend | Sent | Failed | Read | Cancelled

  /** The `notification_type` column; only IN_APP is singled out by a query. */
  datatype NotificationType = Email | InApp | Sms | Push

  /** The errors raised on the backend's boundary. */
  datatype Error =
    | NotFound        // NotificationNotFoundError
    | UpdateConflict  // NotificationUpdateError
    | CancelConflict  // NotificationCancelError

  /**
    Timestamps (`send_after`, `created`, the caller's `now`) as integers on one
    clock; the model does not distinguish naive local from aware UTC datetimes.
   */
  type Timestamp = int

  /** The user key; its concrete type (int, str or UUID) is fixed per deployment. */
  type UserId = int

  /** Values allowed in `context_kwargs`: `int | str | uuid.UUID`. */
  datatype ContextValue = IntValue(i: int) | StrValue(s: string) | UuidValue(u: nat)

  /** The JSON columns (`context_kwargs`, `context_used`, `adapter_extra_parameters`). */
  type Payload = map<string, ContextValue>

  /** One row of the `notifications` table, without its primary key. */
  datatype Row = Row(
    userId: UserId,
    notificationType: NotificationType,
    title: string,
    bodyTemplate: string,
    subjectTemplate: string,
    preheaderTemplate: string,
    contextName: string,
    contextKwargs: Payload,
    contextUsed: Option<Payload>,
    adapterUsed: Option<string>,
    adapterExtraParameters: Option<Payload>,
    status: Status,
    sendAfter: Option<Timestamp>,
    created: Timestamp
  )

  /** The record handed back to the framework by every read and write. */
  datatype Notification = Notification(
    id: int,
    userId: UserId,
    notificationType: NotificationType,
    title: string,
    bodyTemplate: string,
    contextName: string,
    contextKwargs: Payload,
    sendAfter: Option<Timestamp>,
    subjectTemplate: string,
    preheaderTemplate: string,
    status: Status
  )

  /** The columns a serialized notification does not expose. */
  datatype HiddenColumns = HiddenColumns(
    contextUsed: Option<Payload>,
    adapterUsed: Option<string>,
    adapterExtraParameters: Option<Payload>,
    created: Timestamp
  )

  /**
    `serialize_notification`: the row's public columns under its id. It loses
    nothing but the hidden columns, so the row is recoverable from it.
   */
  function Serialize(id: int, row: Row): (n: Notification)
    ensures n.id == id && RowOf(n, Hidden(row)) == row
  {
    Notification(id, row.userId, row.notificationType, row.title, row.bodyTemplate,
                 row.contextName, row.contextKwargs, row.sendAfter,
                 row.subjectTemplate, row.preheaderTemplate, row.status)
  }

  function Hidden(row: Row): HiddenColumns {
    HiddenColumns(row.contextUsed, row.adapterUsed, row.adapterExtraParameters, row.created)
  }

  /** Rebuilds a row from its serialized form and the columns serialization drops. */
  function RowOf(n: Notification, h: HiddenColumns): Row {
    Row(n.userId, n.notificationType, n.title, n.bodyTemplate, n.subjectTemplate,
        n.preheaderTemplate, n.contextName, n.contextKwargs, h.contextUsed, h.adapterUsed,
        h.adapterExtraParameters, n.status, n.sendAfter, h.created)
  }

  /** Two rows serialize equally under one id exactly when they differ at most in hidden columns. */
  lemma SerializeDeterminesPublicColumns(id: int, a: Row, b: Row)
    ensures Serialize(id, a) == Serialize(id, b) <==> a == RowOf(Serialize(id, b), Hidden(a))
  {
  }

  /**
    The table. Rows are never deleted by the backend; the model abstracts the
    database's primary key as the row's position in the table.
   */
  datatype Store = Store(rows: seq<Row>)

  predicate ValidId(s: Store, id: int) {
    0 <= id < |s.rows|
  }

  /** The store after an operation, and what the operation returned or raised. */
  datatype Outcome<T> = Outcome(store: Store, result: Result<T, Error>)
}
