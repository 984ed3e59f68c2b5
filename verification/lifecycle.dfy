/**
  The notification lifecycle as a state machine over the store: any sequence of
  the modelled backend operations (all but `store_context_used`) moves a row's status only along the transition table
  PENDING_SEND -> SENT | FAILED | CANCELLED and SENT -> READ, and freezes every
  other column once the row has left PENDING_SEND.
 */
module Lifecycle {
  import opened Notifications
  import opened Backend

  /** A call to one of the modelled mutating operations (`store_context_used` is not one). */
  datatype Op =
    | Persist(createdAt: Timestamp, args: NewNotification)
    | Update(id: int, u: FieldUpdate)
    | MarkSent(id: int)
    | MarkFailed(id: int)
    | MarkRead(id: int)
    | Cancel(id: int)

  /** The store after `op`, whether it succeeded or raised. */
  function Step(s: Store, op: Op): Store {
    match op
    case Persist(createdAt, args) => PersistNotification(s, createdAt, args).store
    case Update(id, u) => PersistNotificationUpdate(s, id, u).store
    case MarkSent(id) => MarkPendingAsSent(s, id).store
    case MarkFailed(id) => MarkPendingAsFailed(s, id).store
    case MarkRead(id) => MarkSentAsRead(s, id).store
    case Cancel(id) => CancelNotification(s, id).store
  }

  /** Whether `op` returned normally rather than raising. */
  predicate Accepted(s: Store, op: Op) {
    match op
    case Persist(createdAt, args) => PersistNotification(s, createdAt, args).result.Success?
    case Update(id, u) => PersistNotificationUpdate(s, id, u).result.Success?
    case MarkSent(id) => MarkPendingAsSent(s, id).result.Success?
    case MarkFailed(id) => MarkPendingAsFailed(s, id).result.Success?
    case MarkRead(id) => MarkSentAsRead(s, id).result.Success?
    case Cancel(id) => CancelNotification(s, id).result.Success?
  }

  /** The operations in turn, each on the store the previous one left. */
  function Run(s: Store, ops: seq<Op>): Store
    decreases |ops|
  {
    if ops == [] then s else Run(Step(s, ops[0]), ops[1..])
  }

  /** One step of the status machine, or no change. */
  predicate Edge(a: Status, b: Status) {
    || a == b
    || (a == PendingSend && (b == Sent || b == Failed || b == Cancelled))
    || (a == Sent && b == Read)
  }

  /** The reflexive-transitive closure of `Edge`. */
  predicate Reaches(a: Status, b: Status) {
    a == b || a == PendingSend || (a == Sent && b == Read)
  }

  /** The status table as stated, and that nothing leads back into PENDING_SEND. */
  lemma ReachesIsClosureOfEdge(a: Status, b: Status, c: Status)
    ensures Edge(a, b) ==> Reaches(a, b)
    ensures Reaches(a, b) && Edge(b, c) ==> Reaches(a, c)
    ensures Reaches(a, PendingSend) ==> a == PendingSend
  {
  }

  /** A single operation respects the transition table and never removes a row. */
  lemma StepRespectsMachine(s: Store, op: Op, id: int)
    requires ValidId(s, id)
    ensures |Step(s, op).rows| >= |s.rows|
    ensures ValidId(Step(s, op), id)
    ensures Edge(s.rows[id].status, Step(s, op).rows[id].status)
    ensures Step(s, op).rows[id].created == s.rows[id].created
    ensures s.rows[id].status != PendingSend ==> SameExceptStatus(s.rows[id], Step(s, op).rows[id])
  {
  }

  /**
    Over any sequence of modelled operations a row's status only moves forward through
    the table, its `created` never changes, and once it has left PENDING_SEND
    only its status may change (so `send_after` is frozen).
   */
  lemma {:induction false} RunRespectsMachine(s: Store, ops: seq<Op>, id: int)
    requires ValidId(s, id)
    ensures |Run(s, ops).rows| >= |s.rows|
    ensures ValidId(Run(s, ops), id)
    ensures Reaches(s.rows[id].status, Run(s, ops).rows[id].status)
    ensures Run(s, ops).rows[id].created == s.rows[id].created
    ensures s.rows[id].status != PendingSend ==> SameExceptStatus(s.rows[id], Run(s, ops).rows[id])
    decreases |ops|
  {
    if ops != [] {
      var s1 := Step(s, ops[0]);
      StepRespectsMachine(s, ops[0], id);
      RunRespectsMachine(s1, ops[1..], id);
      ReachesIsClosureOfEdge(s1.rows[id].status, Run(s1, ops[1..]).rows[id].status, PendingSend);
    }
  }

  /** FAILED, READ and CANCELLED rows are never touched again. */
  lemma TerminalRowsAreFrozen(s: Store, ops: seq<Op>, id: int)
    requires ValidId(s, id)
    requires s.rows[id].status == Failed || s.rows[id].status == Read || s.rows[id].status == Cancelled
    ensures ValidId(Run(s, ops), id) && Run(s, ops).rows[id] == s.rows[id]
  {
    RunRespectsMachine(s, ops, id);
  }

  /** The operations that move a row out of PENDING_SEND. */
  predicate Claims(op: Op, id: int) {
    op == MarkSent(id) || op == MarkFailed(id) || op == Cancel(id)
  }

  /**
    Of two operations that each move the same PENDING_SEND row out of
    PENDING_SEND, the first wins and the second raises without changing anything.
   */
  lemma AtMostOneClaimWins(s: Store, id: int, first: Op, second: Op)
    requires ValidId(s, id) && s.rows[id].status == PendingSend
    requires Claims(first, id) && Claims(second, id)
    ensures Accepted(s, first)
    ensures !Accepted(Step(s, first), second)
    ensures Step(Step(s, first), second) == Step(s, first)
  {
  }

  /** Repeating a status transition that just succeeded raises. */
  lemma RepeatedTransitionFails(s: Store, op: Op)
    requires op.MarkSent? || op.MarkFailed? || op.MarkRead? || op.Cancel?
    requires Accepted(s, op)
    ensures !Accepted(Step(s, op), op)
    ensures Step(Step(s, op), op) == Step(s, op)
  {
  }

  /** A stored notification becomes invisible to lookups once cancelled. */
  lemma CancelHidesNotification(s: Store, id: int)
    requires ValidId(s, id) && s.rows[id].status == PendingSend
    ensures GetNotification(s, id).Success?
    ensures CancelNotification(s, id).result.Success?
    ensures GetNotification(CancelNotification(s, id).store, id) == Failure(NotFound)
  {
  }

  /** A persisted notification is found under its new id, which was unknown before. */
  lemma PersistThenGet(s: Store, createdAt: Timestamp, args: NewNotification)
    ensures var n := PersistNotification(s, createdAt, args).result.value;
      && GetNotification(s, n.id) == Failure(NotFound)
      && GetNotification(PersistNotification(s, createdAt, args).store, n.id) == Success(n)
      && n.status == PendingSend
  {
  }

  /**
    Persist, mark as sent, then mark as failed: the last call raises an update
    conflict and the row stays SENT.
   */
  lemma PersistSendThenFailConflicts(s: Store, createdAt: Timestamp, args: NewNotification)
    ensures var p := PersistNotification(s, createdAt, args);
      var id := p.result.value.id;
      var sent := MarkPendingAsSent(p.store, id);
      var failed := MarkPendingAsFailed(sent.store, id);
      && p.result.value.status == PendingSend
      && sent.result.Success? && sent.result.value.status == Sent
      && failed.result == Failure(UpdateConflict)
      && failed.store.rows[id].status == Sent
  {
  }
}
